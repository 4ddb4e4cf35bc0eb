/** `detect_entities` of both anonymizer classes: collect the recognizer's
    findings per label, de-duplicated in first-seen order, then group names and
    numbers and append numbered entries (`<PERSON_k>`, `<EMAIL_k>`, `<ADDRESS_k>`,
    `<NUMBER_k>`, and `<CPR_k>` in the CPR edition). */
module Detection {
  import opened Wrappers
  import opened Seqs
  import Models
  import opened Registry
  import opened Ids
  import Similarity
  import Normalize
  import Variants
  import LegacyVariants

  /** The texts of the findings whose label is in `ls`, in order, repeats kept. */
  function Texts(fs: seq<Finding>, ls: set<Label>): seq<string> {
    if fs == [] then []
    else Texts(fs[..|fs| - 1], ls) + (if fs[|fs| - 1].kind in ls then [fs[|fs| - 1].text] else [])
  }

  const NumberLabels: set<Label> := {Phone, NumberPattern}

  /** The label `x` carried when it was first reported as a number, if ever. */
  function FirstNumberLabel(fs: seq<Finding>, x: string): Option<Label> {
    if fs == [] then None
    else
      var prior := FirstNumberLabel(fs[..|fs| - 1], x);
      var f := fs[|fs| - 1];
      if prior.Some? then prior
      else if IsNumber(f.kind) && f.text == x then Some(f.kind)
      else None
  }

  /** The texts first reported by the NUMBER_PATTERN recognizer rather than as
      a phone number. */
  function FirstSeenAsPattern(fs: seq<Finding>): string -> bool {
    x => FirstNumberLabel(fs, x) == Some(NumberPattern)
  }

  /** A text has a first number label exactly when it was reported as a number. */
  lemma {:induction false} FirstNumberLabelSeen(fs: seq<Finding>, x: string)
    ensures FirstNumberLabel(fs, x).Some? <==> x in Texts(fs, NumberLabels)
  {
    if fs != [] {
      FirstNumberLabelSeen(fs[..|fs| - 1], x);
    }
  }

  lemma Prefix<T>(s: seq<T>, i: nat)
    requires i < |s|
    ensures s[..i + 1][..i] == s[..i] && s[..i + 1][i] == s[i] && |s[..i + 1]| == i + 1
  {
  }

  lemma DedupSnoc(xs: seq<string>, x: string)
    ensures Dedup(xs + [x]) == Dedup(xs) + (if x in xs then [] else [x])
    ensures x in Dedup(xs) <==> x in xs
  {
    DedupFromAppend(xs, [x], {});
    DedupFromElems(xs, {});
    assert [x][1..] == [];
    assert x in Dedup(xs) <==> x in Elems(Dedup(xs));
  }

  /** The per-label lists `detect_entities` builds before grouping. */
  datatype Collected = Collected(names: seq<string>, emails: seq<string>, addresses: seq<string>,
                                 numbers: seq<string>, patterns: seq<string>, cpr: seq<string>)

  /** What the findings loop has built after `fs`: each label's texts once, in
      first-seen order; as pattern matches, the numbers first reported by the
      NUMBER_PATTERN recognizer; no CPR list in the legacy class. */
  function CollectedOf(edition: Edition, fs: seq<Finding>): Collected {
    Collected(Dedup(Texts(fs, {Person})), Dedup(Texts(fs, {Email})), Dedup(Texts(fs, {Address})),
              Dedup(Texts(fs, NumberLabels)), Filter(Dedup(Texts(fs, NumberLabels)), FirstSeenAsPattern(fs)),
              if edition == WithCpr then Dedup(Texts(fs, {Cpr})) else [])
  }

  /** The counters after `c` was collected on top of `counts`: one bump per
      recorded text. */
  function Bumped(counts: Counts, c: Collected): Counts {
    counts.(namesFound := counts.namesFound + |c.names|,
            emailsFound := counts.emailsFound + |c.emails|,
            addressesFound := counts.addressesFound + |c.addresses|,
            numbersFound := counts.numbersFound + |c.numbers|,
            patternsFound := counts.patternsFound + |c.patterns|,
            cprFound := counts.cprFound + |c.cpr|)
  }

  /** One pass of the loop body: the `if`/`elif` chain on the finding's label. */
  function Absorb(edition: Edition, c: Collected, f: Finding): Collected {
    if f.kind == Person && f.text !in c.names then c.(names := c.names + [f.text])
    else if f.kind == Email && f.text !in c.emails then c.(emails := c.emails + [f.text])
    else if f.kind == Address && f.text !in c.addresses then c.(addresses := c.addresses + [f.text])
    else if IsNumber(f.kind) && f.text !in c.numbers then
      if f.kind == NumberPattern then c.(numbers := c.numbers + [f.text], patterns := c.patterns + [f.text])
      else c.(numbers := c.numbers + [f.text])
    else if edition == WithCpr && f.kind == Cpr && f.text !in c.cpr then c.(cpr := c.cpr + [f.text])
    else c
  }

  /** The lists after the loop body has run over each of `fs` in turn. */
  function Absorbed(edition: Edition, fs: seq<Finding>): Collected {
    if fs == [] then Collected([], [], [], [], [], [])
    else Absorb(edition, Absorbed(edition, fs[..|fs| - 1]), fs[|fs| - 1])
  }

  lemma AbsorbedSnoc(edition: Edition, fs: seq<Finding>, i: nat)
    requires i < |fs|
    ensures Absorbed(edition, fs[..i + 1]) == Absorb(edition, Absorbed(edition, fs[..i]), fs[i])
  {
    Prefix(fs, i);
  }

  /** Running the loop body over the findings builds exactly the de-duplicated
      per-label lists. */
  lemma {:induction false} AbsorbedIsCollectedOf(edition: Edition, fs: seq<Finding>)
    ensures Absorbed(edition, fs) == CollectedOf(edition, fs)
  {
    if fs != [] {
      var n := |fs| - 1;
      assert fs[..n + 1] == fs;
      AbsorbedIsCollectedOf(edition, fs[..n]);
      AbsorbStep(edition, fs, n);
    }
  }

  /** One pass of the loop body: the `if`/`elif` chain on the finding's label,
      bumping the counter of the list it extends. */
  method Step(edition: Edition, f: Finding, c: Collected, counts: Counts, ghost base: Counts)
    returns (c': Collected, counts': Counts)
    requires counts == Bumped(base, c)
    ensures c' == Absorb(edition, c, f)
    ensures counts' == Bumped(base, c')
  {
    c', counts' := c, counts;
    if f.kind == Person && f.text !in c.names {
      c' := c.(names := c.names + [f.text]);
      counts' := counts'.(namesFound := counts'.namesFound + 1);
    } else if f.kind == Email && f.text !in c.emails {
      c' := c.(emails := c.emails + [f.text]);
      counts' := counts'.(emailsFound := counts'.emailsFound + 1);
    } else if f.kind == Address && f.text !in c.addresses {
      c' := c.(addresses := c.addresses + [f.text]);
      counts' := counts'.(addressesFound := counts'.addressesFound + 1);
    } else if IsNumber(f.kind) && f.text !in c.numbers {
      c' := c.(numbers := c.numbers + [f.text]);
      counts' := counts'.(numbersFound := counts'.numbersFound + 1);
      if f.kind == NumberPattern {
        c' := c'.(patterns := c.patterns + [f.text]);
        counts' := counts'.(patternsFound := counts'.patternsFound + 1);
      }
    } else if edition == WithCpr && f.kind == Cpr && f.text !in c.cpr {
      c' := c.(cpr := c.cpr + [f.text]);
      counts' := counts'.(cprFound := counts'.cprFound + 1);
    }
  }

  /** The findings loop of `detect_entities`: each new text of a label is
      recorded once and bumps that label's counter. */
  method Collect(edition: Edition, fs: seq<Finding>, counts: Counts) returns (c: Collected, counts': Counts)
    ensures c.names == Dedup(Texts(fs, {Person}))
    ensures c.emails == Dedup(Texts(fs, {Email}))
    ensures c.addresses == Dedup(Texts(fs, {Address}))
    ensures c.numbers == Dedup(Texts(fs, NumberLabels))
    ensures c.patterns == Filter(Dedup(Texts(fs, NumberLabels)), FirstSeenAsPattern(fs))
    ensures c.cpr == if edition == WithCpr then Dedup(Texts(fs, {Cpr})) else []
    ensures c == CollectedOf(edition, fs)
    ensures counts' == Bumped(counts, c)
  {
    c := Collected([], [], [], [], [], []);
    counts' := counts;
    for i := 0 to |fs|
      invariant c == Absorbed(edition, fs[..i])
      invariant counts' == Bumped(counts, c)
    {
      AbsorbedSnoc(edition, fs, i);
      c, counts' := Step(edition, fs[i], c, counts', counts);
    }
    assert fs[..|fs|] == fs;
    AbsorbedIsCollectedOf(edition, fs);
  }

  /** The loop body turns the lists of `fs[..i]` into those of `fs[..i + 1]`. */
  lemma AbsorbStep(edition: Edition, fs: seq<Finding>, i: nat)
    requires i < |fs|
    ensures CollectedOf(edition, fs[..i + 1]) == Absorb(edition, CollectedOf(edition, fs[..i]), fs[i])
  {
    StepLists(edition, fs, i);
    StepNumbers(edition, fs, i);
    AbsorbFields(edition, CollectedOf(edition, fs[..i]), CollectedOf(edition, fs[..i + 1]), fs[i]);
  }

  /** The names, e-mails, addresses and CPR numbers after one more finding. */
  lemma StepLists(edition: Edition, fs: seq<Finding>, i: nat)
    requires i < |fs|
    ensures var f, c0, c1 := fs[i], CollectedOf(edition, fs[..i]), CollectedOf(edition, fs[..i + 1]);
      && c1.names == (if f.kind == Person && f.text !in c0.names then c0.names + [f.text] else c0.names)
      && c1.emails == (if f.kind == Email && f.text !in c0.emails then c0.emails + [f.text] else c0.emails)
      && c1.addresses == (if f.kind == Address && f.text !in c0.addresses then c0.addresses + [f.text] else c0.addresses)
      && c1.cpr == (if edition == WithCpr && f.kind == Cpr && f.text !in c0.cpr then c0.cpr + [f.text] else c0.cpr)
  {
    DedupTextsStep(fs, i, {Person});
    DedupTextsStep(fs, i, {Email});
    DedupTextsStep(fs, i, {Address});
    DedupTextsStep(fs, i, {Cpr});
  }

  /** The numbers and the pattern matches after one more finding. */
  lemma StepNumbers(edition: Edition, fs: seq<Finding>, i: nat)
    requires i < |fs|
    ensures var f, c0, c1 := fs[i], CollectedOf(edition, fs[..i]), CollectedOf(edition, fs[..i + 1]);
      && c1.numbers == (if IsNumber(f.kind) && f.text !in c0.numbers then c0.numbers + [f.text] else c0.numbers)
      && c1.patterns == c0.patterns + (if IsNumber(f.kind) && f.text !in c0.numbers && f.kind == NumberPattern then [f.text] else [])
  {
    DedupTextsStep(fs, i, NumberLabels);
    PatternStep(fs, i);
    assert (fs[i].kind in NumberLabels) == IsNumber(fs[i].kind);
  }

  /** `Absorb` changes at most the list of the finding's label. */
  lemma AbsorbFields(edition: Edition, c0: Collected, c1: Collected, f: Finding)
    requires c1.names == if f.kind == Person && f.text !in c0.names then c0.names + [f.text] else c0.names
    requires c1.emails == if f.kind == Email && f.text !in c0.emails then c0.emails + [f.text] else c0.emails
    requires c1.addresses == if f.kind == Address && f.text !in c0.addresses then c0.addresses + [f.text] else c0.addresses
    requires c1.numbers == if IsNumber(f.kind) && f.text !in c0.numbers then c0.numbers + [f.text] else c0.numbers
    requires c1.patterns == c0.patterns + if IsNumber(f.kind) && f.text !in c0.numbers && f.kind == NumberPattern then [f.text] else []
    requires c1.cpr == if edition == WithCpr && f.kind == Cpr && f.text !in c0.cpr then c0.cpr + [f.text] else c0.cpr
    ensures c1 == Absorb(edition, c0, f)
  {
    assert c0.patterns + [] == c0.patterns;
  }

  /** A label's list grows by the finding's text exactly when the finding has
      that label and its text is new. */
  lemma DedupTextsStep(fs: seq<Finding>, i: nat, ls: set<Label>)
    requires i < |fs|
    ensures Dedup(Texts(fs[..i + 1], ls)) ==
      if fs[i].kind in ls && fs[i].text !in Dedup(Texts(fs[..i], ls)) then Dedup(Texts(fs[..i], ls)) + [fs[i].text]
      else Dedup(Texts(fs[..i], ls))
  {
    Prefix(fs, i);
    assert Texts(fs[..i + 1], ls) == Texts(fs[..i], ls) + (if fs[i].kind in ls then [fs[i].text] else []);
    if fs[i].kind in ls {
      DedupSnoc(Texts(fs[..i], ls), fs[i].text);
    } else {
      assert Texts(fs[..i], ls) + [] == Texts(fs[..i], ls);
    }
  }

  /** The pattern matches grow exactly when a new number arrives from the
      NUMBER_PATTERN recognizer. */
  lemma PatternStep(fs: seq<Finding>, i: nat)
    requires i < |fs|
    ensures var numbers := Dedup(Texts(fs[..i], NumberLabels));
      Filter(Dedup(Texts(fs[..i + 1], NumberLabels)), FirstSeenAsPattern(fs[..i + 1])) ==
      Filter(numbers, FirstSeenAsPattern(fs[..i])) +
        (if IsNumber(fs[i].kind) && fs[i].text !in numbers && fs[i].kind == NumberPattern then [fs[i].text] else [])
  {
    Prefix(fs, i);
    var numbers := Dedup(Texts(fs[..i], NumberLabels));
    var now, before := FirstSeenAsPattern(fs[..i + 1]), FirstSeenAsPattern(fs[..i]);
    forall x | x in numbers ensures now(x) == before(x) {
      DedupSnoc(Texts(fs[..i], NumberLabels), x);
      FirstNumberLabelSeen(fs[..i], x);
    }
    FilterExt(numbers, now, before);
    DedupTextsStep(fs, i, NumberLabels);
    var x := fs[i].text;
    if IsNumber(fs[i].kind) && x !in numbers {
      DedupSnoc(Texts(fs[..i], NumberLabels), x);
      FirstNumberLabelSeen(fs[..i], x);
      FilterAppend(numbers, [x], now);
      assert Filter([x], now) == if fs[i].kind == NumberPattern then [x] else [];
    } else {
      assert Filter(numbers, before) + [] == Filter(numbers, before);
    }
  }

  // ---------------------------------------------------------------- minting

  /** `after` is `before` followed by one entry per group, numbered from 1. */
  predicate Appended(after: seq<Models.Record>, before: seq<Models.Record>, prefix: string, groups: seq<seq<string>>) {
    |after| == |before| + |groups| && after[..|before|] == before && Numbered(after[|before|..], prefix, groups)
  }

  /** No entry carries a `pattern` field. */
  predicate Plain(entries: seq<Models.Record>) {
    forall k :: 0 <= k < |entries| ==> entries[k].pattern == None
  }

  /** Emails, addresses and CPR numbers are not grouped: each text is a group
      of its own. */
  function Singletons(xs: seq<string>): (gs: seq<seq<string>>)
    ensures |gs| == |xs|
  {
    seq(|xs|, k requires 0 <= k < |xs| => [xs[k]])
  }

  /** Reading the singleton groups back in order gives the texts. */
  lemma {:induction false} SingletonsFlatten(xs: seq<string>)
    ensures Flatten(Singletons(xs)) == xs
  {
    if xs != [] {
      assert Singletons(xs) == [[xs[0]]] + Singletons(xs[1..]);
      FlattenAppend([[xs[0]]], Singletons(xs[1..]));
      SingletonsFlatten(xs[1..]);
      assert Flatten([[xs[0]]]) == [xs[0]] + Flatten<string>([]);
    }
  }

  /** The pattern a number group is tagged with: the fixed regular expression
      when any of its variants came from the NUMBER_PATTERN recognizer. */
  function PatternOf(variants: seq<string>, patterns: seq<string>): Option<string> {
    if exists v :: v in variants && v in patterns then Some(PatternRegex) else None
  }

  /** Each entry's pattern is the one its variants call for. */
  predicate PatternTagged(entries: seq<Models.Record>, patterns: seq<string>) {
    forall k :: 0 <= k < |entries| ==>
      entries[k].variants.Some? && entries[k].pattern == PatternOf(entries[k].variants.value, patterns)
  }

  /** `any(v in pattern_matches for v in variants)`. */
  method AnyIn(variants: seq<string>, patterns: seq<string>) returns (b: bool)
    ensures b <==> exists v :: v in variants && v in patterns
  {
    b := false;
    for i := 0 to |variants|
      invariant b <==> exists v :: v in variants[..i] && v in patterns
    {
      assert variants[..i + 1] == variants[..i] + [variants[i]];
      b := b || variants[i] in patterns;
    }
    assert variants[..|variants|] == variants;
  }

  /** One `for variants in groups` loop of `detect_entities`: the `k`-th group
      becomes the entry `<prefix_k>` with those variants and, for numbers,
      the pattern its variants call for. */
  method Mint(entries: seq<Models.Record>, prefix: string, groups: seq<seq<string>>, tag: bool, patterns: seq<string>)
    returns (entries': seq<Models.Record>)
    ensures Appended(entries', entries, prefix, groups)
    ensures tag ==> PatternTagged(entries'[|entries|..], patterns)
    ensures !tag ==> Plain(entries'[|entries|..])
  {
    entries' := entries;
    var count := 1;
    for k := 0 to |groups|
      invariant count == k + 1
      invariant Appended(entries', entries, prefix, groups[..k])
      invariant tag ==> PatternTagged(entries'[|entries|..], patterns)
      invariant !tag ==> Plain(entries'[|entries|..])
    {
      var pattern := None;
      if tag {
        var any := AnyIn(groups[k], patterns);
        if any {
          pattern := Some(PatternRegex);
        }
      }
      var entry := Models.Record(Some(Id(prefix, count)), Some(groups[k]), pattern);
      MintStep(entries', entries, prefix, groups, k, entry);
      if tag {
        assert pattern == PatternOf(groups[k], patterns);
        TaggedSnoc(entries'[|entries|..], entry, patterns);
      } else {
        PlainSnoc(entries'[|entries|..], entry);
      }
      entries' := entries' + [entry];
      count := count + 1;
    }
    assert groups[..|groups|] == groups;
  }

  /** One round of `Mint`: the entry for the `k`-th group extends the numbering. */
  lemma MintStep(after: seq<Models.Record>, before: seq<Models.Record>, prefix: string, groups: seq<seq<string>>,
                 k: nat, entry: Models.Record)
    requires k < |groups| && Appended(after, before, prefix, groups[..k])
    requires entry.id == Some(Id(prefix, k + 1)) && entry.variants == Some(groups[k])
    ensures Appended(after + [entry], before, prefix, groups[..k + 1])
    ensures (after + [entry])[|before|..] == after[|before|..] + [entry]
  {
    var a := after + [entry];
    assert a[..|before|] == after[..|before|];
    assert a[|before|..] == after[|before|..] + [entry];
    assert groups[..k + 1] == groups[..k] + [groups[k]];
  }

  lemma TaggedSnoc(es: seq<Models.Record>, entry: Models.Record, patterns: seq<string>)
    requires PatternTagged(es, patterns)
    requires entry.variants.Some? && entry.pattern == PatternOf(entry.variants.value, patterns)
    ensures PatternTagged(es + [entry], patterns)
  {
  }

  lemma PlainSnoc(es: seq<Models.Record>, entry: Models.Record)
    requires Plain(es) && entry.pattern == None
    ensures Plain(es + [entry])
  {
  }

  /** Distinct positions of a category carry distinct identifiers. */
  lemma NumberedIdsDistinct(entries: seq<Models.Record>, prefix: string, groups: seq<seq<string>>)
    requires Numbered(entries, prefix, groups)
    requires '_' !in prefix
    ensures forall j, k :: 0 <= j < k < |entries| ==> entries[j].id != entries[k].id
  {
    forall j, k | 0 <= j < k < |entries|
      ensures entries[j].id != entries[k].id
    {
      IdInjective(prefix, j + 1, prefix, k + 1);
    }
  }

  // ---------------------------------------------------------------- detect_entities

  /** The name groups both classes produce from the collected names. */
  function PersonGroups(fs: seq<Finding>, score: Similarity.Scorer): seq<seq<string>> {
    Variants.NameGroups(Dedup(Texts(fs, {Person})), score, Variants.NameThreshold)
  }

  /** The number groups both classes produce from the collected numbers. */
  function NumberGroups(fs: seq<Finding>, score: Similarity.Scorer): seq<seq<string>> {
    Variants.NumberGroups(Dedup(Texts(fs, NumberLabels)), score, Variants.NumberThreshold)
  }

  /** The counters after grouping `c`. The legacy grouping methods bump
      `names_found` and `numbers_found` once more for every variant they add to
      an existing group. */
  function Regrouped(edition: Edition, counts: Counts, c: Collected, score: Similarity.Scorer): Counts {
    if edition == WithCpr then counts
    else
      counts.(namesFound := counts.namesFound + |Filter(c.names, Normalize.IsValidName)|
                            - |Variants.NameGroups(c.names, score, Variants.NameThreshold)|,
              numbersFound := counts.numbersFound + |c.numbers|
                              - |Variants.NumberGroups(c.numbers, score, Variants.NumberThreshold)|)
  }

  /** The counters after `detect_entities`: the findings loop's bumps, then the
      grouping's. */
  function DetectedCounts(edition: Edition, counts: Counts, fs: seq<Finding>, score: Similarity.Scorer): Counts {
    var c := CollectedOf(edition, fs);
    Regrouped(edition, Bumped(counts, c), c, score)
  }

  /** The grouping calls: `find_name_variants` and `find_number_variants` of
      `src/did/utils.py` for the CPR-aware class, the methods of the legacy
      class otherwise. */
  method Group(edition: Edition, c: Collected, counts: Counts, score: Similarity.Scorer)
    returns (nameGroups: seq<seq<string>>, numberGroups: seq<seq<string>>, counts': Counts)
    requires Distinct(c.names) && Distinct(c.numbers)
    ensures nameGroups == Variants.NameGroups(c.names, score, Variants.NameThreshold)
    ensures numberGroups == Variants.NumberGroups(c.numbers, score, Variants.NumberThreshold)
    ensures counts' == Regrouped(edition, counts, c, score)
  {
    counts' := counts;
    if edition == WithCpr {
      nameGroups := Variants.FindNameVariants(c.names, score, Variants.NameThreshold);
      numberGroups := Variants.FindNumberVariants(c.numbers, score, Variants.NumberThreshold);
    } else {
      var namesFound, numbersFound;
      nameGroups, namesFound := LegacyVariants.FindNameVariants(c.names, score, Variants.NameThreshold, counts.namesFound);
      numberGroups, numbersFound :=
        LegacyVariants.FindNumberVariants(c.numbers, score, Variants.NumberThreshold, counts.numbersFound);
      counts' := counts.(namesFound := namesFound, numbersFound := numbersFound);
      LegacyAgrees(c.names, c.numbers, score);
    }
  }

  /** `detect_entities(texts)` given the recognizer's findings `fs` over all the
      texts, in order. New entries are appended to the entity lists, numbered
      from 1 within this call; the mapping is left alone. */
  method Detect(edition: Edition, s: State, fs: seq<Finding>, score: Similarity.Scorer) returns (s': State)
    ensures s'.mapping == s.mapping
    ensures Appended(s'.entities.names, s.entities.names, "PERSON", PersonGroups(fs, score))
    ensures Appended(s'.entities.emails, s.entities.emails, "EMAIL", Singletons(Dedup(Texts(fs, {Email}))))
    ensures Appended(s'.entities.addresses, s.entities.addresses, "ADDRESS", Singletons(Dedup(Texts(fs, {Address}))))
    ensures Appended(s'.entities.numbers, s.entities.numbers, "NUMBER", NumberGroups(fs, score))
    ensures PatternTagged(s'.entities.numbers[|s.entities.numbers|..], CollectedOf(edition, fs).patterns)
    ensures Plain(s'.entities.names[|s.entities.names|..]) && Plain(s'.entities.emails[|s.entities.emails|..])
    ensures Plain(s'.entities.addresses[|s.entities.addresses|..])
    ensures edition == WithCpr ==>
      Appended(s'.entities.cpr, s.entities.cpr, "CPR", Singletons(Dedup(Texts(fs, {Cpr})))) &&
      Plain(s'.entities.cpr[|s.entities.cpr|..])
    ensures edition == Legacy ==> s'.entities.cpr == s.entities.cpr
    ensures s'.counts == DetectedCounts(edition, s.counts, fs, score)
  {
    var c, counts := Collect(edition, fs, s.counts);
    DedupFromElems(Texts(fs, {Person}), {});
    DedupFromElems(Texts(fs, NumberLabels), {});
    var nameGroups, numberGroups, counts' := Group(edition, c, counts, score);
    var e := s.entities;
    var names := Mint(e.names, "PERSON", nameGroups, false, []);
    var emails := Mint(e.emails, "EMAIL", Singletons(c.emails), false, []);
    var addresses := Mint(e.addresses, "ADDRESS", Singletons(c.addresses), false, []);
    var numbers := Mint(e.numbers, "NUMBER", numberGroups, true, c.patterns);
    var cpr := e.cpr;
    if edition == WithCpr {
      cpr := Mint(e.cpr, "CPR", Singletons(c.cpr), false, []);
    }
    s' := State(s.mapping, counts', Entities(names, emails, addresses, numbers, cpr));
  }
  /** On de-duplicated lists the set-based grouping of the legacy class agrees
      with the position-based one, and its extra bumps count the variants. */
  lemma LegacyAgrees(names: seq<string>, numbers: seq<string>, score: Similarity.Scorer)
    requires Distinct(names) && Distinct(numbers)
    ensures LegacyVariants.DistinctNameGroups(names, score, Variants.NameThreshold) ==
            Variants.NameGroups(names, score, Variants.NameThreshold)
    ensures LegacyVariants.DistinctNumberGroups(numbers, score, Variants.NumberThreshold) ==
            Variants.NumberGroups(numbers, score, Variants.NumberThreshold)
    ensures Dedup(Filter(names, Normalize.IsValidName)) == Filter(names, Normalize.IsValidName)
    ensures Dedup(numbers) == numbers
  {
    LegacyVariants.NameVersionsAgree(names, score, Variants.NameThreshold);
    LegacyVariants.NumberVersionsAgree(numbers, score, Variants.NumberThreshold);
    FilterDistinct(names, Normalize.IsValidName);
    DedupOfDistinct(Filter(names, Normalize.IsValidName), {});
    DedupOfDistinct(numbers, {});
  }

  /** Numbering restarts at 1 on every call: a second detection over a
      non-empty category mints the identifier its first entry already has. */
  lemma NumberingRestarts(after: seq<Models.Record>, before: seq<Models.Record>, prefix: string,
                          groups: seq<seq<string>>, earlier: seq<seq<string>>)
    requires Appended(after, before, prefix, groups)
    requires Numbered(before, prefix, earlier)
    requires |groups| > 0 && |earlier| > 0
    ensures after[|before|].id == after[0].id == Some(Id(prefix, 1))
  {
    assert after[|before|] == after[|before|..][0];
    assert after[0] == before[0];
  }
}
