# did — pseudonymisation core, modelled in Dafny

`did` replaces personal data in texts with stable identifiers such as
`<PERSON_1>` or `<NUMBER_3>`. An external recognizer reports spans with
labels: PERSON, EMAIL_ADDRESS, ADDRESS, PHONE_NUMBER, NUMBER_PATTERN and
CPR_NUMBER. From those spans the program does three things:

- **Builds a registry.** `detect_entities` de-duplicates the texts of each
  label and groups similar names and numbers. The grouping is seed linkage:
  each group is a seed plus every later, still ungrouped item that scores
  strictly above the threshold against that seed. The thresholds are 85 for
  names and 80 for numbers. Each group or text then gets a numbered
  identifier.
- **Loads a mapping.** `load_replacements` turns a configuration into a
  label → variant → identifier map, which the `entity_counter` operator
  consults.
- **Counts.** `anonymize` counts what was found and how often each
  identifier appears in the output.

The project also models two of the program's own recognizers:

- the digit-density window recognizer;
- the general number pattern.

It also models the pydantic configuration schema.

## How the model is organised

**Shared modules**

- `Wrappers`, `Seqs` and `Chars` hold:
  - `Option`/`Result`;
  - sequence helpers (`Filter`, `Map`, `Dedup`, `Range`, `Flatten`);
  - Latin-1 character classes with Python's `lower`, `isalpha`, `isdigit` and `split` semantics.

**Normalisation and similarity**

- `Normalize` covers `normalize_name`, `normalize_number` and `is_valid_name`.
  - The functions in `src/did/utils.py` and the method copies in `src/did/anonymizer.py` have identical bodies, so one definition serves both.
  - `IsValidName` is defined directly as "one to three words, each with a letter, none on the denylist in any case".
- `Similarity` provides the Indel ratio `200·LCS(a,b)/(|a|+|b|)`, the normalised Indel similarity that `fuzz.ratio` documents. Everywhere except the concrete scenarios, the scorer is a parameter.

**Grouping**

- `Linkage.Link` is an independent, recursive reference definition of seed linkage: the head, the items similar to it, then linkage of the rest.
- `Variants` covers the position-based grouping of `src/did/utils.py`, with its `visited` array over indices. It is proved equal to `Link` over the valid names (or all numbers), with repeats kept.
- `LegacyVariants` covers the set-based methods of `src/did/anonymizer.py`, with their `processed` set of strings. It is proved equal to `Link` over the de-duplicated list, together with the counter bumps those methods make.

**Registry and operator**

- `Registry`, `Ids` and `Models` define the data:
  - labels, counters, entity records and the mapping;
  - the identifier format `<PREFIX_k>`;
  - the `Entity`/`Config` schema with its aliases and defaults.
- `Detection` covers `detect_entities` for both classes. `Edition` tells them apart:
  - `Legacy` is `src/did/anonymizer.py`: no CPR, set-based grouping, extra counter bumps;
  - `WithCpr` is `src/did/core/anonymizer.py`.
- `Replacements` covers `load_replacements`.
- `Counting` covers the counter logic of `anonymize`.
- `Operators` covers `validate`/`operate`.

**Recognizers**

- `DigitDensity` covers `HighDigitDensityRecognizer.analyze`.
- `GeneralNumber` covers `GeneralNumberRecognizer.analyze`. The regex is a hand-written scanner. Its optional suffix group `(?:[.,+ ][a-zA-Z]{1,3})?` can never take part in a match: every character that could start the suffix is already in the repeated class, and the greedy star stops only at a character outside it. `GeneralNumber.SuffixDead` proves this, so the scanner is "a lead character, then the longest run of the class".

**Scenarios**

- `Scenarios` checks the clustering examples of the test suite under the Indel ratio.
- "John Doe", "Jon Doe" and "john DOE" form one group.
- "1234567890", "1234567" and "12 34 56 78" also form one group. One might expect "1234567" to stay apart at threshold 80, but its ratio against the seed is 1400/17 ≈ 82.4, which is above 80. The model follows the code, under which the three are grouped.

## Model

| member | source | states |
|---|---|---|
| Chars.LowerChar | src/did/utils.py:11 | lower-casing maps each upper-case letter to the letter 32 code points above it, fixes every other character, and leaves no upper-case letter |
| Chars.Words | src/did/utils.py:27 | `split()` yields only non-empty runs of non-whitespace characters |
| Chars.WordsKeepNonSpace | src/did/utils.py:27 | the words concatenate back to exactly the non-whitespace characters of the input, in order |
| Chars.WordsAtSpace | src/did/utils.py:27 | a whitespace character separates: splitting `a + [c] + b` splits `a` and `b` independently |
| Chars.Replace | src/did/utils.py:12-16 | a replaced character absent from the replacement text is gone; every character of the result comes from the input or the replacement text, and every other character of the input is kept |
| Chars.ReplaceByNothing | src/did/utils.py:22 | `replace(c, "")` deletes exactly the occurrences of `c` and keeps every other character in order |
| Normalize.NormalizeName | src/did/utils.py:8-17 | the chain of `lower` and `replace` calls equals folding each character on its own (lower-case it, å to aa, æ to ae, ø to oe, drop a hyphen, newline to space), so the order of the calls does not matter; no upper-case letter, å, æ, ø, hyphen or newline is left |
| Normalize.NormalizeNameAppend | src/did/utils.py:8-17 | name normalisation distributes over concatenation |
| Normalize.NormalizeNameIdempotent | src/did/anonymizer.py:53-62 | normalising a normalised name changes nothing |
| Normalize.NormalizeNumber | src/did/utils.py:20-22 | the result is the input with exactly the spaces and hyphens removed, all other characters kept in order |
| Normalize.NormalizeNumberIdempotent | src/did/anonymizer.py:64-66 | normalising a normalised number changes nothing |
| Normalize.StripBeforeSplitIsRedundant | src/did/utils.py:27 | `strip()` before `split()` never changes the words |
| Normalize.IsValidName | src/did/utils.py:25-35 | the `strip()` is redundant: a name is valid exactly when `split()` alone yields one to three words, each with a letter, none a denylisted word in any case |
| Normalize.IsValidNameIgnoresCase | src/did/utils.py:25-35 | a name is valid exactly when its lower-cased form is |
| Similarity.LcsAtMostShorter | src/did/utils.py:46 | the common subsequence is no longer than either string |
| Similarity.LcsSymmetric | src/did/utils.py:46 | the LCS length does not depend on argument order |
| Similarity.LcsAtLeastCommon | src/did/utils.py:46 | any common subsequence bounds the LCS length from below |
| Similarity.IndelRatio | src/did/utils.py:46 | the ratio is a score in [0, 100], and 100 for identical strings |
| Similarity.IndelRatioSymmetric | src/did/utils.py:46 | the ratio does not depend on argument order |
| Similarity.IndelRatioBelow | src/did/utils.py:46 | a length-based cap on the common part bounds the ratio from above |
| Linkage.Link | src/did/utils.py:49-61 | seed linkage gives at most one group per item, no group exactly for no items, and never an empty group |
| Linkage.LinkPermutes | src/did/utils.py:49-61 | the groups hold exactly the input items, each as often as in the input |
| Linkage.LinkElements | src/did/utils.py:49-61 | an item is in some group exactly when it is an input item |
| Linkage.LinkMembersNearSeed | src/did/utils.py:55-59 | every non-first member of a group is similar to that group's seed |
| Linkage.LinkLaterFarFromSeed | src/did/utils.py:55-59 | no member of a later group is similar to an earlier group's seed |
| Linkage.LinkDisjoint | src/did/anonymizer.py:85-100 | on distinct items no item is in two groups and no group repeats an item |
| Linkage.LinkGroupsIncreasing | src/did/utils.py:56-59 | on increasing positions every group is increasing, so its seed is its first and smallest member |
| Linkage.LinkSeedsPrecede | src/did/utils.py:49-53 | every member of a later group comes after every earlier seed |
| Linkage.LinkSeeded | src/did/utils.py:49-61 | members relate to their own seed and to earlier seeds, and nothing is claimed between two non-seed members |
| Linkage.LinkSeedsEarliest | src/did/utils.py:49-53 | each seed is the least position not taken by an earlier group |
| Linkage.LinkMap | src/did/utils.py:45-46 | grouping positions by the similarity of their items, then reading off the items, equals grouping the items |
| Variants.ScoreMatrix | src/did/utils.py:46 | `cdist` of a list against itself is a square matrix of its length |
| Variants.TakeSimilar | src/did/utils.py:55-59 | the inner loop marks exactly the positions already visited or near the seed, and appends the unvisited near positions in index order after the seed |
| Variants.LinkStep | src/did/utils.py:49-61 | one outer round produces the head group of seed linkage over the unvisited positions, and leaves unvisited exactly the far ones for the rest |
| Variants.Mark | src/did/utils.py:53-59 | after a seed's round a position is visited when it was, is the seed, or is near the seed |
| Variants.SweepIsLink | src/did/utils.py:49-61 | the outer loop's groups, from any round on, are seed linkage over the positions still unvisited |
| Variants.LinkByScores | src/did/utils.py:47-62 | the visited-array loop over the score matrix computes the step-by-step sweep |
| Variants.SeedLinkByPosition | src/did/utils.py:45-62 | the position-based loop equals seed linkage over the items under the normalised-score test |
| Variants.FindNameVariants | src/did/utils.py:38-62 | `find_name_variants` returns seed linkage over the valid names, repeats kept |
| Variants.FindNumberVariants | src/did/utils.py:65-85 | `find_number_variants` returns seed linkage over all numbers, repeats kept |
| Variants.IndexGroupsPartition | src/did/utils.py:47-61 | every index lands in exactly one group, once |
| Variants.IndexGroupsOrder | src/did/utils.py:49-59 | each group lists its indices in input order, and its seed is the earliest index not taken earlier |
| Variants.NameGroupsEmpty | src/did/utils.py:40-44 | no groups exactly when no name is valid, including for no names |
| Variants.NameGroupsPartition | src/did/utils.py:42-61 | the groups rearrange the valid names with repeats kept, every member is valid, and no group is empty |
| Variants.NameGroupsSeeded | src/did/utils.py:49-59 | non-seed members score above the threshold against their seed, and no later member does against an earlier seed |
| Variants.NumberGroupsPartition | src/did/utils.py:65-85 | no groups exactly for no numbers, and the groups rearrange all numbers with repeats kept |
| Variants.NumberGroupsSeeded | src/did/utils.py:73-82 | the seed property holds for numbers on normalised numbers |
| LegacyVariants.PickIsFilterDedup | src/did/anonymizer.py:92-97 | the inner loop takes the first occurrences of the unprocessed items near the seed |
| LegacyVariants.TakeUnprocessed | src/did/anonymizer.py:90-98 | the inner loop appends exactly those items, marks them processed, and bumps the counter once per appended item |
| LegacyVariants.SetSweepIsLink | src/did/anonymizer.py:87-100 | the outer loop's groups are seed linkage over the de-duplicated unprocessed items |
| LegacyVariants.SeedLinkBySet | src/did/anonymizer.py:84-102 | the set-based loop returns seed linkage over the de-duplicated items, and the counter rises by distinct items minus groups |
| LegacyVariants.FindNameVariants | src/did/anonymizer.py:77-102 | the method's groups, and `names_found` rising by distinct valid names minus groups |
| LegacyVariants.FindNumberVariants | src/did/anonymizer.py:104-126 | the method's groups, and `numbers_found` rising by distinct numbers minus groups |
| LegacyVariants.DistinctNameGroupsDedup | src/did/anonymizer.py:85-100 | the set-based grouping is the position-based grouping of the de-duplicated names |
| LegacyVariants.NameVersionsAgree | src/did/anonymizer.py:77-102 | on names without repeats both copies of `find_name_variants` agree |
| LegacyVariants.NumberVersionsAgree | src/did/anonymizer.py:104-126 | on numbers without repeats both copies of `find_number_variants` agree |
| LegacyVariants.DistinctNameGroupsPartition | src/did/anonymizer.py:79-100 | each distinct valid name appears exactly once overall and nothing else does; no groups exactly when no name is valid |
| LegacyVariants.DistinctNumberGroupsPartition | src/did/anonymizer.py:106-124 | each distinct number appears exactly once overall and nothing else does |
| LegacyVariants.DistinctGroupsSeeded | src/did/anonymizer.py:92-97 | non-seed members score above the threshold against their seed, and later members do not against earlier seeds |
| Ids.Id | src/did/core/anonymizer.py:103 | with an underscore-free prefix, the prefix and the counter are read back from the identifier |
| Ids.DecimalRoundTrip | src/did/core/anonymizer.py:103 | reading back the decimal digits of the counter gives the counter |
| Ids.IdInjective | src/did/core/anonymizer.py:103 | distinct underscore-free prefixes or distinct counters give distinct identifiers |
| Models.ParseEntity | src/did/core/models.py:6-11 | validation succeeds exactly when `id` and `variants` are present, and otherwise names exactly the missing fields |
| Models.EntityRoundTrip | src/did/core/models.py:6-11 | writing an entity out and validating it again gives the entity |
| Models.RecordRoundTrip | src/did/core/models.py:6-11 | a record that validates is exactly the record of its entity |
| Models.PatternDefaultsToNone | src/did/core/models.py:11 | a record without `pattern` validates to an entity with no pattern |
| Models.AliasInjective | src/did/core/models.py:17-24 | the alias and the attribute name are each one-to-one over the eight categories |
| Models.AliasBijection | src/did/core/models.py:17-24 | aliases and categories correspond one to one |
| Models.OnlyAliasesAreCategories | src/did/core/models.py:14-24 | only the eight aliases name categories; attribute names and CPR keys name none |
| Models.DefaultConfig | src/did/core/models.py:17-24 | the default configuration has every category list empty |
| Models.ParseEntities | src/did/core/models.py:17 | a list validates exactly when every record does, element by element; otherwise the error list is non-empty and holds exactly the (key, index, field) of every missing field of every record |
| Models.ListErrorsSpec | src/did/core/models.py:17 | validation of a list visits every record: its located errors are exactly the missing fields, and there are none exactly when every record validates |
| Models.CategoryErrors | src/did/core/models.py:14-24 | a document's errors are exactly the missing fields of the records under the categories' aliases, and there are none exactly when every section validates |
| Models.ParseConfig | src/did/core/models.py:14-24 | a document validates exactly when every category's section does, and each category holds its alias's list; otherwise the errors are exactly the (alias, index, field) of every missing field under every alias |
| Models.EmptyDocumentIsDefault | src/did/core/models.py:17-24 | an empty document validates to the default configuration |
| Models.ConfigRoundTrip | src/did/core/models.py:14-24 | writing a configuration by alias and validating it gives it back |
| Models.EntitiesRoundTrip | src/did/core/models.py:17-24 | writing an entity list and validating it gives it back |
| Models.OtherKeysIgnored | src/did/core/models.py:14-24 | a key that names no category does not change what a document validates to, errors included |
| Operators.Validate | src/did/operators.py:23-27 | passes exactly when both keys are present, and blames the mapping first |
| Operators.Lookup | src/did/operators.py:17-21 | returns the known replacement for a known variant and the text itself otherwise; the mapping gains the label with an empty map if absent, all else unchanged |
| Operators.Operate | src/did/operators.py:13-21 | succeeds exactly when both parameters are present, and blames the label first |
| Operators.OperateAll | src/did/operators.py:13-21 | after the operator has run on a sequence of findings, the mapping holds every label it ran on, new labels with an empty map, and nothing else changes |
| Operators.ValidateGuardsOperate | src/did/operators.py:13-27 | parameters that pass `validate` never make `operate` raise; the two differ only in which key they blame when both are missing |
| Operators.LookupStable | src/did/operators.py:17 | the `setdefault` never changes a later lookup, and doing it twice is doing it once |
| Operators.OperateAfterLoad | src/did/operators.py:17-21 | after loading, a variant maps to the identifier of the last entry listing it; an unknown text is returned unchanged |
| Replacements.Assign | src/did/core/anonymizer.py:151-152 | the variants now map to the identifier, and every other key keeps its value |
| Replacements.AssignVariants | src/did/core/anonymizer.py:151-152 | the innermost loop computes `Assign` |
| Replacements.LoadEntry | src/did/core/anonymizer.py:161-167 | one entry's body computes its effect on the mapping |
| Replacements.AddSection | src/did/core/anonymizer.py:149-152 | one section loop computes the entries in order, raising at the first malformed one |
| Replacements.LoadReplacements | src/did/core/anonymizer.py:141-171 | the section loops in order compute `load_replacements` |
| Replacements.AddAllStops | src/did/core/anonymizer.py:149-152 | once an entry raises, later entries are never reached |
| Replacements.LoadSectionsStops | src/did/core/anonymizer.py:149-171 | once a section raises, later sections are never reached |
| Replacements.LastFed | src/did/core/anonymizer.py:161-167 | finds the last entry that writes a variant under a label, or none |
| Replacements.AddEntryEffect | src/did/core/anonymizer.py:161-167 | an entry adds only the labels it `setdefault`s, and writes its variants only under them |
| Replacements.AddAllOutcome | src/did/core/anonymizer.py:149-152 | a section loop succeeds exactly when every entry is loadable, and otherwise reports the first entry that is not |
| Replacements.AddAllLookup | src/did/core/anonymizer.py:149-152 | after a section, a variant maps to the last writing entry's identifier, or keeps its old value |
| Replacements.AddAllUntouched | src/did/core/anonymizer.py:149-152 | a section leaves the labels it does not touch as they were |
| Replacements.LoadSectionsUntouched | src/did/core/anonymizer.py:141-171 | labels touched by no section are left as they were |
| Replacements.LoadSectionsLookup | src/did/core/anonymizer.py:141-171 | a label touched by exactly one section ends up as that section's loop leaves it |
| Replacements.LoadSectionsOutcome | src/did/core/anonymizer.py:141-171 | the loops all get through exactly when every entry they read is loadable |
| Replacements.LoadSectionsReads | src/did/core/anonymizer.py:143-147 | the loops read the document only through their own keys |
| Replacements.LoadSucceeds | src/did/core/anonymizer.py:141-171 | loading succeeds exactly when every entry has `variants`, and an `id` whenever it has a variant |
| Replacements.LoadMaps | src/did/core/anonymizer.py:143-171 | entity lists become the configuration's and counters are untouched; each variant maps to its last listing entry's identifier, NUMBER_PATTERN only for entries with a truthy pattern |
| Replacements.LoadKeeps | src/did/anonymizer.py:206-232 | labels no section touches keep their variants |
| Replacements.LegacyIgnoresCpr | src/did/anonymizer.py:206-211 | the legacy class never reads a `cpr` section |
| Counting.Occurrences | src/did/core/anonymizer.py:217 | the empty string is counted at every one of the `len + 1` positions; non-overlapping occurrences of a non-empty string fit in the text |
| Counting.OccurrencesRepeat | src/did/core/anonymizer.py:217 | a non-empty string is counted `n` times in `n` back-to-back copies of itself |
| Counting.OccurrencesPositive | src/did/core/anonymizer.py:217 | a non-empty string is counted at least once exactly when it occurs |
| Counting.CountOccurrences | src/did/core/anonymizer.py:217 | the search loop of `str.count` computes the non-overlapping count |
| Counting.Tick | src/did/core/anonymizer.py:197-208 | one finding bumps exactly its label's counter, and both number counters for a pattern match |
| Counting.CountFound | src/did/core/anonymizer.py:196-208 | the found counters are the number of findings per label, repeats included |
| Counting.TallyEntries | src/did/core/anonymizer.py:222-225 | one loop computes both the number sum and the pattern sum, or the first entry without `id` |
| Counting.TallyStops | src/did/core/anonymizer.py:216-227 | once an entry without `id` is reached, the loop raises there |
| Counting.TallyAgree | src/did/core/anonymizer.py:216-227 | whether a loop raises does not depend on which entries are summed; it raises exactly when an entry has no `id` |
| Counting.TallyMono | src/did/core/anonymizer.py:222-225 | summing over fewer entries gives no more |
| Counting.TallyAbsent | src/did/core/anonymizer.py:216-227 | identifiers absent from the output contribute nothing |
| Counting.Anonymize | src/did/core/anonymizer.py:173-229 | on success the output is the engine's text, the entities are unchanged, and the mapping gains exactly the labels the operator ran on, each new one with an empty map, every existing entry kept |
| Counting.AnonymizeCounts | src/did/core/anonymizer.py:196-227 | the counting loops compute `anonymize`'s counters |
| Counting.AnonymizeResets | src/did/core/anonymizer.py:175-188 | the result does not depend on the counters before the call |
| Counting.AnonymizeSucceeds | src/did/core/anonymizer.py:216-227 | counting gets through exactly when every counted entry has an `id` |
| Counting.PatternsBounded | src/did/core/anonymizer.py:203-225 | never more patterns than numbers, found or replaced |
| Detection.FirstNumberLabelSeen | src/did/core/anonymizer.py:90-95 | a text has a first number label exactly when it was reported as a number |
| Detection.AbsorbedIsCollectedOf | src/did/core/anonymizer.py:79-98 | running the `if`/`elif` chain over the findings builds each label's texts once, in first-seen order |
| Detection.Step | src/did/core/anonymizer.py:80-98 | one pass extends only the finding's list, and bumps the counter of the list it extends |
| Detection.Collect | src/did/core/anonymizer.py:73-98 | the lists are each label's distinct texts in first-seen order; pattern matches are the numbers first seen as NUMBER_PATTERN; each counter rises by its list's length |
| Detection.PatternStep | src/did/core/anonymizer.py:90-95 | the pattern list grows exactly when a new number arrives from NUMBER_PATTERN |
| Detection.SingletonsFlatten | src/did/core/anonymizer.py:106-114 | the one-text groups of emails, addresses and CPR numbers read back as the texts |
| Detection.AnyIn | src/did/core/anonymizer.py:120 | true exactly when some variant is a pattern match |
| Detection.Mint | src/did/core/anonymizer.py:118-123 | the `k`-th group is appended as `<prefix_k>` with its variants, and a number entry carries the pattern exactly when its variants call for it |
| Detection.NumberedIdsDistinct | src/did/core/anonymizer.py:101-104 | distinct positions of one call's entries carry distinct identifiers |
| Detection.Group | src/did/core/anonymizer.py:100-117 | the groups are those of `find_name_variants`/`find_number_variants`, and the legacy class bumps its counters once per variant joined |
| Detection.Detect | src/did/core/anonymizer.py:58-128 | the entity lists are extended with numbered groups, patterns are tagged, the mapping is untouched, and the counters rise as collected and regrouped |
| Detection.LegacyAgrees | src/did/anonymizer.py:171-188 | on the de-duplicated lists the legacy grouping equals the position-based one |
| Detection.NumberingRestarts | src/did/core/anonymizer.py:60-64 | numbering restarts at 1 on every call, so a second detection re-mints identifiers already in use |
| GeneralNumber.RunEnd | src/did/core/general_number_detector.py:15 | the greedy star stops at the first character outside the class |
| GeneralNumber.SuffixDead | src/did/core/general_number_detector.py:15 | the optional suffix group never takes part in a match |
| GeneralNumber.Matches | src/did/core/general_number_detector.py:24 | matches are non-empty, in the text, start on `+`, `(` or a digit, and do not overlap |
| GeneralNumber.MatchesMaximal | src/did/core/general_number_detector.py:15-24 | each match ends where the repeated class does |
| GeneralNumber.MatchesCover | src/did/core/general_number_detector.py:15-24 | a position is matched exactly when a lead character reaches it through the class |
| GeneralNumber.Findings | src/did/core/general_number_detector.py:22-36 | results are labelled NUMBER with score 0.7, in the text, start on a lead character, hold at least two digits, and do not overlap |
| GeneralNumber.FindingsAreDigitMatches | src/did/core/general_number_detector.py:24-35 | the results are exactly the matches with at least two digits |
| GeneralNumber.FewDigitsNothing | src/did/core/general_number_detector.py:26-27 | a text with fewer than two digits yields nothing |
| GeneralNumber.ScanRun | src/did/core/general_number_detector.py:15 | the loop finds where the greedy star stops |
| GeneralNumber.AnalyzeText | src/did/core/general_number_detector.py:22-36 | the `finditer` loop with the digit filter computes `analyze` |
| DigitDensity.WindowsUpToSound | src/did/core/number_detector.py:21-26 | collected windows are qualifying full-size windows in increasing order |
| DigitDensity.WindowsUpToComplete | src/did/core/number_detector.py:21-26 | no qualifying window is missed |
| DigitDensity.WindowsSpec | src/did/core/number_detector.py:21-30 | the intervals are exactly the qualifying windows, sorted and inside the text |
| DigitDensity.MergeShape | src/did/core/number_detector.py:29-36 | merged intervals are non-empty and strictly apart; touching ones are joined |
| DigitDensity.MergeCovers | src/did/core/number_detector.py:31-36 | merging keeps the union of positions |
| DigitDensity.MergeHolds | src/did/core/number_detector.py:31-36 | every merged interval contains an input interval and stays in bounds |
| DigitDensity.TrimStart | src/did/core/number_detector.py:39-40 | the start moves past exactly the leading non-digits |
| DigitDensity.TrimEnd | src/did/core/number_detector.py:41-42 | the end moves back past exactly the trailing non-digits |
| DigitDensity.Trimmed | src/did/core/number_detector.py:38-42 | the trimmed interval lies inside and starts and ends on a digit unless empty |
| DigitDensity.TrimKeepsDigits | src/did/core/number_detector.py:38-42 | trimming loses no digit |
| DigitDensity.Analyze | src/did/core/number_detector.py:18-49 | a zero window size raises `ZeroDivisionError`; a text shorter than the window yields nothing |
| DigitDensity.MergedInText | src/did/core/number_detector.py:21-36 | merged intervals lie in the text, are apart, and hold at least `min_digits` digits |
| DigitDensity.TrimmedLong | src/did/core/number_detector.py:38-43 | an interval with enough digits stays long enough after trimming |
| DigitDensity.ReportAll | src/did/core/number_detector.py:37-48 | the length test never drops an interval: one result per merged interval |
| DigitDensity.ReportedWell | src/did/core/number_detector.py:43-48 | each result is labelled NUMBER with score 0.7, is inside the text, is long enough, and starts and ends on a digit |
| DigitDensity.AnalyzeShape | src/did/core/number_detector.py:37-48 | one result per merged interval, each well reported, strictly apart in increasing order |
| DigitDensity.AnalyzeCovers | src/did/core/number_detector.py:21-48 | results cover only window positions and every digit of a qualifying window |
| DigitDensity.FindingCovered | src/did/core/number_detector.py:21-48 | a position inside a result lies in a qualifying window |
| DigitDensity.CoveredFound | src/did/core/number_detector.py:21-48 | a digit inside a qualifying window lies inside a result |
| DigitDensity.CountDigits | src/did/core/number_detector.py:23 | the generator sum counts the `isdigit` characters |
| DigitDensity.ScanWindows | src/did/core/number_detector.py:21-26 | the window loop computes the qualifying windows |
| DigitDensity.MergeIntervals | src/did/core/number_detector.py:29-36 | the merge loop computes the merge |
| DigitDensity.TrimSpan | src/did/core/number_detector.py:39-42 | the two trim loops compute the trimmed interval |
| DigitDensity.ReportIntervals | src/did/core/number_detector.py:37-48 | the result loop computes the report |
| DigitDensity.AnalyzeText | src/did/core/number_detector.py:18-49 | the whole method computes `analyze` |
| Scenarios.ValidJohnDoe | tests/test_anonymizer.py:48 | "John Doe", "Jon Doe" and "john DOE" are valid names |
| Scenarios.JohnJon | tests/test_anonymizer.py:48 | "john doe" and "jon doe" score above 85 |
| Scenarios.NameVariantsScenario | tests/test_anonymizer.py:47-58 | the three spellings form a single group seeded by the first |
| Scenarios.SevenOfSeventeen | tests/test_anonymizer.py:62 | "1234567890" and "1234567" score above 80 |
| Scenarios.NumberVariantsScenario | tests/test_anonymizer.py:61-73 | the three numbers form one group at threshold 80 |
| Scenarios.SpacedDigits | src/did/utils.py:20-22 | "12 34 56 78" normalises to "12345678" |

## Left out

- **The recognizer engine and its regex patterns**, for PERSON, EMAIL_ADDRESS, ADDRESS, PHONE_NUMBER, NUMBER_PATTERN and CPR_NUMBER. These live in an external NLP library.
  - The findings, as `(label, text)` pairs in order, are an input to `detect_entities` and `anonymize`.
  - The anonymizing engine's output text is an input to `anonymize`.
- **The rapidfuzz scorer, `cdist` and numpy.** The scorer is a parameter, and the scenarios use the integer-exact Indel ratio. Floating-point scores are not reproduced.
- **YAML and JSON output** (`generate_yaml`, the `entity_mapping.json` dump) and all file and directory writes. These are I/O and serialisation libraries.
- **`src/did/file_utils.py` and `src/did/cli.py`.** They are not part of this model: they are file handling and command-line plumbing.
- **Unicode beyond Latin-1.** `lower`, `isalpha`, `isdigit`, `split` and the regex class `\d` are exact on Latin-1 only.
- **The `density_threshold` comparison** is done exactly in rationals rather than in floating point.
- **Negative `window_size` and `min_digits`.** The parameters are `nat`. A zero window size is modelled as the `ZeroDivisionError` the code raises.
- Models.ParseConfig: an error is reported as its location (alias, index, missing field) only. Pydantic's message text and error type are not modelled, nor are errors for values of the wrong type (a section that is not a list, an `id` that is not a string): a document here holds only lists of records.
- Replacements.Load: on a `KeyError` it returns only the error. The partly updated mapping and entity lists the source leaves behind are not modelled.
- Counting.Anonymize: which findings the engine keeps and operates on (after its overlap resolution) and the text it writes are inputs, not computed.
- Counting.Anonymize: on a `KeyError` it returns only the error. The counters the source has partly updated, and the labels the operator has already added to the mapping, are not modelled.
- **Legacy CPR counters.** The legacy class has no `cpr_*` counters or `cpr` list. The model keeps them at zero and leaves them unchanged there.
- **`patterns_replaced` on non-string `pattern` values.** Python truthiness is modelled only for strings: a `pattern` is truthy when present and non-empty.
