/** The state an `Anonymizer` keeps between calls (`src/did/anonymizer.py` and
    `src/did/core/anonymizer.py`): the recognizer's labels, the twelve counters,
    the entity lists by category, and the label -> variant -> id mapping. */
module Registry {
  import opened Wrappers
  import opened Models
  import opened Ids

  /** The entity types the recognizer is asked for. */
  datatype Label = Person | Email | Address | Phone | NumberPattern | Cpr

  /** The mapping key of a label. */
  function LabelName(l: Label): string {
    match l
    case Person => "PERSON"
    case Email => "EMAIL_ADDRESS"
    case Address => "ADDRESS"
    case Phone => "PHONE_NUMBER"
    case NumberPattern => "NUMBER_PATTERN"
    case Cpr => "CPR_NUMBER"
  }

  /** Both number labels count as numbers. */
  predicate IsNumber(l: Label) {
    l == Phone || l == NumberPattern
  }

  /** One recognizer result: its label and the text it covers. */
  datatype Finding = Finding(kind: Label, text: string)

  /** The two copies of the class: `src/did/anonymizer.py` (no CPR category,
      set-based grouping) and `src/did/core/anonymizer.py` (with CPR). */
  datatype Edition = Legacy | WithCpr

  /** The counters of `self.counts`. The legacy class has no `cpr_*` keys; the
      model keeps them at zero there. */
  datatype Counts = Counts(
    namesFound: nat, namesReplaced: nat,
    emailsFound: nat, emailsReplaced: nat,
    addressesFound: nat, addressesReplaced: nat,
    numbersFound: nat, numbersReplaced: nat,
    patternsFound: nat, patternsReplaced: nat,
    cprFound: nat, cprReplaced: nat)

  const NoCounts := Counts(0, 0, 0, 0, 0, 0, 0, 0, 0, 0, 0, 0)

  /** `self.entities`: the entries of each category, as the untyped records a
      configuration document may hold. */
  datatype Entities = Entities(names: seq<Record>, emails: seq<Record>, addresses: seq<Record>,
                               numbers: seq<Record>, cpr: seq<Record>)

  const NoEntities := Entities([], [], [], [], [])

  /** `entity_mapping`: label name -> variant -> id. */
  type Mapping = map<string, map<string, string>>

  datatype State = State(mapping: Mapping, counts: Counts, entities: Entities)

  /** A freshly constructed anonymizer. */
  const Fresh := State(map[], NoCounts, NoEntities)

  /** The regular expression attached to number entries found by the
      NUMBER_PATTERN recognizer. */
  const PatternRegex := "\\b\\d{2}\\s+\\d{2}\\s+\\d{2}\\s+\\d{2}\\b"

  /** The entry `detect_entities` writes for the `k`-th group of a category. */
  function MintedEntry(prefix: string, k: nat, variants: seq<string>, pattern: Option<string>): Record {
    Record(Some(Id(prefix, k)), Some(variants), pattern)
  }

  /** `entries` are the groups numbered `<prefix_1>`, `<prefix_2>`, ... in order. */
  predicate Numbered(entries: seq<Record>, prefix: string, groups: seq<seq<string>>) {
    |entries| == |groups| &&
    forall k :: 0 <= k < |groups| ==> entries[k].id == Some(Id(prefix, k + 1)) && entries[k].variants == Some(groups[k])
  }

  /** A truthy `pattern` field: present and non-empty. */
  predicate HasPattern(r: Record) {
    r.pattern.Some? && r.pattern.value != ""
  }
}
