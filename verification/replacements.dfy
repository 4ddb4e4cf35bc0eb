/** `load_replacements` (`src/did/anonymizer.py`, `src/did/core/anonymizer.py`):
    the entity lists are replaced by the configuration's, and every variant of
    every entry is mapped to the entry's identifier under its label. */
module Replacements {
  import opened Wrappers
  import opened Seqs
  import Models
  import opened Registry

  type Record = Models.Record

  /** The `KeyError` a malformed entry raises: the section it sits in, its
      position there, and the key it lacks. */
  datatype LoadError = MissingVariants(section: string, index: nat) | MissingId(section: string, index: nat)

  /** `config.get(key, [])`. */
  function SectionOf(doc: Models.Document, key: string): seq<Record> {
    if key in doc then doc[key] else []
  }

  /** `entity_mapping.get(name, {})`: the variants known under a label. */
  function Inner(m: Mapping, name: string): map<string, string> {
    if name in m then m[name] else map[]
  }

  /** The variants of an entry, none when the key is absent. */
  function VariantsOf(r: Record): seq<string> {
    if r.variants.Some? then r.variants.value else []
  }

  /** An entry the loop gets through: it has `variants`, and an `id` as soon as
      one variant needs it. */
  predicate Loadable(r: Record) {
    r.variants.Some? && (r.variants.value != [] ==> r.id.Some?)
  }

  /** The error an entry that is not loadable raises. */
  function ErrorOf(section: string, r: Record, index: nat): LoadError {
    if r.variants.None? then MissingVariants(section, index) else MissingId(section, index)
  }

  /** `inner[variant] = id` for each variant in turn. */
  function Assign(inner: map<string, string>, vs: seq<string>, id: string): (r: map<string, string>)
    ensures forall v :: v in r <==> v in inner || v in vs
    ensures forall v :: v in r ==> r[v] == if v in vs then id else inner[v]
  {
    if vs == [] then inner else Assign(inner, vs[..|vs| - 1], id)[vs[|vs| - 1] := id]
  }

  /** Where a section's entries go: one label, or for numbers both number
      labels (NUMBER_PATTERN only for entries with a truthy `pattern`). */
  datatype Target = Labelled(name: string) | Numbers

  const PhoneLabel := LabelName(Phone)
  const PatternLabel := LabelName(NumberPattern)

  /** The mapping after one loadable entry: `setdefault` of its labels, then
      its variants. */
  function AddEntry(m: Mapping, t: Target, r: Record): Mapping
    requires Loadable(r)
  {
    var vs, id := r.variants.value, r.id.GetOr("");
    match t
    case Labelled(name) => m[name := Assign(Inner(m, name), vs, id)]
    case Numbers =>
      var phone := Assign(Inner(m, PhoneLabel), vs, id);
      var pattern := if HasPattern(r) then Assign(Inner(m, PatternLabel), vs, id) else Inner(m, PatternLabel);
      m[PhoneLabel := phone][PatternLabel := pattern]
  }

  /** One `for entry in ...` loop: the entries in order, stopping at the first
      one that raises. */
  function AddAll(m: Mapping, section: string, t: Target, rs: seq<Record>): Result<Mapping, LoadError> {
    if rs == [] then Success(m)
    else
      var last := rs[|rs| - 1];
      match AddAll(m, section, t, rs[..|rs| - 1])
      case Failure(e) => Failure(e)
      case Success(m') => if Loadable(last) then Success(AddEntry(m', t, last)) else Failure(ErrorOf(section, last, |rs| - 1))
  }

  /** The configuration sections each class reads, with their targets. */
  function Sections(edition: Edition): seq<(string, Target)> {
    [("names", Labelled(LabelName(Person))), ("emails", Labelled(LabelName(Email))),
     ("addresses", Labelled(LabelName(Address))), ("numbers", Numbers)] +
    (if edition == WithCpr then [("cpr", Labelled(LabelName(Cpr)))] else [])
  }

  /** The section loops in order. */
  function LoadSections(m: Mapping, doc: Models.Document, secs: seq<(string, Target)>): Result<Mapping, LoadError> {
    if secs == [] then Success(m)
    else
      var (key, t) := secs[|secs| - 1];
      match LoadSections(m, doc, secs[..|secs| - 1])
      case Failure(e) => Failure(e)
      case Success(m') => AddAll(m', key, t, SectionOf(doc, key))
  }

  /** `load_replacements(config)`. The entity lists become the configuration's
      (the legacy class has no `cpr` list); the mapping keeps what it had and
      gains the configuration's variants. */
  function Load(edition: Edition, s: State, doc: Models.Document): Result<State, LoadError> {
    var es := Entities(SectionOf(doc, "names"), SectionOf(doc, "emails"), SectionOf(doc, "addresses"),
                       SectionOf(doc, "numbers"), if edition == WithCpr then SectionOf(doc, "cpr") else s.entities.cpr);
    match LoadSections(s.mapping, doc, Sections(edition))
    case Failure(e) => Failure(e)
    case Success(m) => Success(State(m, s.counts, es))
  }

  // ---------------------------------------------------------------- the loops

  /** Once an entry has raised, the later entries are never reached. */
  lemma {:induction false} AddAllStops(m: Mapping, section: string, t: Target, rs: seq<Record>, j: nat)
    requires j <= |rs| && AddAll(m, section, t, rs[..j]).Failure?
    ensures AddAll(m, section, t, rs) == AddAll(m, section, t, rs[..j])
  {
    if j < |rs| {
      assert rs[..|rs| - 1][..j] == rs[..j];
      AddAllStops(m, section, t, rs[..|rs| - 1], j);
    } else {
      assert rs[..j] == rs;
    }
  }

  /** Once a section has raised, the later sections are never reached. */
  lemma {:induction false} LoadSectionsStops(m: Mapping, doc: Models.Document, secs: seq<(string, Target)>, j: nat)
    requires j <= |secs| && LoadSections(m, doc, secs[..j]).Failure?
    ensures LoadSections(m, doc, secs) == LoadSections(m, doc, secs[..j])
  {
    if j < |secs| {
      assert secs[..|secs| - 1][..j] == secs[..j];
      LoadSectionsStops(m, doc, secs[..|secs| - 1], j);
    } else {
      assert secs[..j] == secs;
    }
  }

  /** The innermost loop: one entry's variants. */
  method AssignVariants(inner: map<string, string>, vs: seq<string>, id: string) returns (r: map<string, string>)
    ensures r == Assign(inner, vs, id)
  {
    r := inner;
    for i := 0 to |vs|
      invariant r == Assign(inner, vs[..i], id)
    {
      assert vs[..i + 1][..i] == vs[..i];
      r := r[vs[i] := id];
    }
    assert vs[..|vs|] == vs;
  }

  /** The body of a section loop for an entry that does not raise. */
  method LoadEntry(m: Mapping, t: Target, entry: Record) returns (m': Mapping)
    requires Loadable(entry)
    ensures m' == AddEntry(m, t, entry)
  {
    var vs, id := entry.variants.value, entry.id.GetOr("");
    match t {
      case Labelled(name) =>
        var inner := AssignVariants(Inner(m, name), vs, id);
        m' := m[name := inner];
      case Numbers =>
        var phone := AssignVariants(Inner(m, PhoneLabel), vs, id);
        var pattern := Inner(m, PatternLabel);
        if entry.pattern.Some? && entry.pattern.value != "" {
          pattern := AssignVariants(pattern, vs, id);
        }
        m' := m[PhoneLabel := phone][PatternLabel := pattern];
    }
  }

  /** One section loop, raising at the first malformed entry. */
  method AddSection(m: Mapping, section: string, t: Target, rs: seq<Record>) returns (r: Result<Mapping, LoadError>)
    ensures r == AddAll(m, section, t, rs)
  {
    var m' := m;
    for k := 0 to |rs|
      invariant AddAll(m, section, t, rs[..k]) == Success(m')
    {
      assert rs[..k + 1][..k] == rs[..k];
      var entry := rs[k];
      if entry.variants.None? || (entry.variants.value != [] && entry.id.None?) {
        AddAllStops(m, section, t, rs, k + 1);
        return Failure(ErrorOf(section, entry, k));
      }
      m' := LoadEntry(m', t, entry);
    }
    assert rs[..|rs|] == rs;
    r := Success(m');
  }

  /** `load_replacements(config)` as the loops run it. */
  method LoadReplacements(edition: Edition, s: State, doc: Models.Document) returns (r: Result<State, LoadError>)
    ensures r == Load(edition, s, doc)
  {
    var secs := Sections(edition);
    var m := s.mapping;
    for i := 0 to |secs|
      invariant LoadSections(s.mapping, doc, secs[..i]) == Success(m)
    {
      assert secs[..i + 1][..i] == secs[..i];
      var (key, t) := secs[i];
      var step := AddSection(m, key, t, SectionOf(doc, key));
      if step.Failure? {
        LoadSectionsStops(s.mapping, doc, secs, i + 1);
        return Failure(step.error);
      }
      m := step.value;
    }
    assert secs[..|secs|] == secs;
    var es := Entities(SectionOf(doc, "names"), SectionOf(doc, "emails"), SectionOf(doc, "addresses"),
                       SectionOf(doc, "numbers"), if edition == WithCpr then SectionOf(doc, "cpr") else s.entities.cpr);
    r := Success(State(m, s.counts, es));
  }

  // ---------------------------------------------------------------- properties

  /** The labels a section's loop `setdefault`s. */
  predicate Touches(t: Target, lbl: string) {
    match t
    case Labelled(name) => lbl == name
    case Numbers => lbl == PhoneLabel || lbl == PatternLabel
  }

  /** The entries whose variants a section's loop writes under `lbl`. */
  predicate Feeds(t: Target, lbl: string, r: Record) {
    Touches(t, lbl) && (t.Numbers? && lbl == PatternLabel ==> HasPattern(r))
  }

  /** The position of the last entry that writes `v` under `lbl`. */
  function LastFed(rs: seq<Record>, t: Target, lbl: string, v: string): (k: Option<nat>)
    ensures k.Some? ==>
      k.value < |rs| && Feeds(t, lbl, rs[k.value]) && v in VariantsOf(rs[k.value]) &&
      forall j :: k.value < j < |rs| ==> !(Feeds(t, lbl, rs[j]) && v in VariantsOf(rs[j]))
    ensures k.None? ==> forall j :: 0 <= j < |rs| ==> !(Feeds(t, lbl, rs[j]) && v in VariantsOf(rs[j]))
  {
    if rs == [] then None
    else if Feeds(t, lbl, rs[|rs| - 1]) && v in VariantsOf(rs[|rs| - 1]) then Some(|rs| - 1)
    else LastFed(rs[..|rs| - 1], t, lbl, v)
  }

  /** What one entry does to one label. */
  lemma AddEntryEffect(m: Mapping, t: Target, r: Record, lbl: string)
    requires Loadable(r)
    ensures lbl in AddEntry(m, t, r) <==> lbl in m || Touches(t, lbl)
    ensures Inner(AddEntry(m, t, r), lbl) ==
      if Feeds(t, lbl, r) then Assign(Inner(m, lbl), VariantsOf(r), r.id.GetOr("")) else Inner(m, lbl)
  {
  }

  /** A section loop succeeds exactly when every entry is loadable, and
      otherwise reports the first entry that is not. */
  lemma {:induction false} AddAllOutcome(m: Mapping, section: string, t: Target, rs: seq<Record>)
    ensures AddAll(m, section, t, rs).Success? <==> forall k :: 0 <= k < |rs| ==> Loadable(rs[k])
    ensures AddAll(m, section, t, rs).Failure? ==>
      exists k :: 0 <= k < |rs| && !Loadable(rs[k]) && (forall j :: 0 <= j < k ==> Loadable(rs[j])) &&
        AddAll(m, section, t, rs).error == ErrorOf(section, rs[k], k)
  {
    if rs != [] {
      var init := rs[..|rs| - 1];
      AddAllOutcome(m, section, t, init);
      assert forall k :: 0 <= k < |init| ==> init[k] == rs[k];
    }
  }

  /** How `m'` stands to `m` at `lbl` and `v` after the entries `rs` of a
      section with target `t` were written. */
  predicate Written(m: Mapping, m': Mapping, rs: seq<Record>, t: Target, lbl: string, v: string) {
    var k := LastFed(rs, t, lbl, v);
    (lbl in m' <==> lbl in m || (rs != [] && Touches(t, lbl))) &&
    (v in Inner(m', lbl) <==> v in Inner(m, lbl) || k.Some?) &&
    (k.Some? ==> Inner(m', lbl)[v] == rs[k.value].id.GetOr("")) &&
    (k.None? && v in Inner(m, lbl) ==> Inner(m', lbl)[v] == Inner(m, lbl)[v])
  }

  /** After a section loop, `v` is known under `lbl` when it was before or some
      entry writes it there; the last such entry's identifier wins, and the
      label exists once the loop has run at least once. */
  lemma {:induction false} AddAllLookup(m: Mapping, section: string, t: Target, rs: seq<Record>, lbl: string, v: string)
    requires AddAll(m, section, t, rs).Success?
    ensures Written(m, AddAll(m, section, t, rs).value, rs, t, lbl, v)
  {
    if rs != [] {
      var init, last := rs[..|rs| - 1], rs[|rs| - 1];
      var mid := AddAll(m, section, t, init).value;
      AddAllLookup(m, section, t, init, lbl, v);
      AddEntryEffect(mid, t, last, lbl);
      var k0 := LastFed(init, t, lbl, v);
      assert k0.Some? ==> rs[k0.value] == init[k0.value];
      if Feeds(t, lbl, last) && v in VariantsOf(last) {
        assert LastFed(rs, t, lbl, v) == Some(|rs| - 1);
      } else {
        assert LastFed(rs, t, lbl, v) == k0;
        assert Inner(AddEntry(mid, t, last), lbl) == Inner(mid, lbl) || v !in VariantsOf(last);
      }
    }
  }

  /** A section loop leaves the labels it does not touch as they were. */
  lemma AddAllUntouched(m: Mapping, section: string, t: Target, rs: seq<Record>, lbl: string)
    requires AddAll(m, section, t, rs).Success? && !Touches(t, lbl)
    ensures var m' := AddAll(m, section, t, rs).value;
      (lbl in m' <==> lbl in m) && (lbl in m ==> m'[lbl] == m[lbl])
  {
    var m' := AddAll(m, section, t, rs).value;
    forall v | true
      ensures v in Inner(m', lbl) <==> v in Inner(m, lbl)
      ensures v in Inner(m, lbl) ==> Inner(m', lbl)[v] == Inner(m, lbl)[v]
    {
      AddAllLookup(m, section, t, rs, lbl, v);
    }
    AddAllLookup(m, section, t, rs, lbl, "");
    assert Inner(m', lbl) == Inner(m, lbl);
  }

  /** The section loops leave the labels none of them touches as they were. */
  lemma {:induction false} LoadSectionsUntouched(m: Mapping, doc: Models.Document, secs: seq<(string, Target)>, lbl: string)
    requires LoadSections(m, doc, secs).Success?
    requires forall j :: 0 <= j < |secs| ==> !Touches(secs[j].1, lbl)
    ensures var m' := LoadSections(m, doc, secs).value;
      (lbl in m' <==> lbl in m) && (lbl in m ==> m'[lbl] == m[lbl])
  {
    if secs != [] {
      var init := secs[..|secs| - 1];
      var (key, t) := secs[|secs| - 1];
      LoadSectionsUntouched(m, doc, init, lbl);
      AddAllUntouched(LoadSections(m, doc, init).value, key, t, SectionOf(doc, key), lbl);
    }
  }

  /** When exactly section `i` touches `lbl`, the label ends up as that
      section's loop leaves it. */
  lemma {:induction false} LoadSectionsLookup(m: Mapping, doc: Models.Document, secs: seq<(string, Target)>,
                                              i: nat, lbl: string, v: string)
    requires LoadSections(m, doc, secs).Success?
    requires i < |secs| && forall j :: 0 <= j < |secs| && j != i ==> !Touches(secs[j].1, lbl)
    ensures Written(m, LoadSections(m, doc, secs).value, SectionOf(doc, secs[i].0), secs[i].1, lbl, v)
  {
    var init := secs[..|secs| - 1];
    var (key, t) := secs[|secs| - 1];
    var mid := LoadSections(m, doc, init).value;
    assert LoadSections(m, doc, secs) == AddAll(mid, key, t, SectionOf(doc, key));
    if i == |secs| - 1 {
      LoadSectionsUntouched(m, doc, init, lbl);
      assert Inner(mid, lbl) == Inner(m, lbl);
      AddAllLookup(mid, key, t, SectionOf(doc, key), lbl, v);
    } else {
      assert init[i] == secs[i];
      LoadSectionsLookup(m, doc, init, i, lbl, v);
      AddAllUntouched(mid, key, t, SectionOf(doc, key), lbl);
    }
  }

  /** The section loops all get through exactly when every entry they read is
      loadable. */
  lemma {:induction false} LoadSectionsOutcome(m: Mapping, doc: Models.Document, secs: seq<(string, Target)>)
    ensures LoadSections(m, doc, secs).Success? <==>
      forall i, k :: 0 <= i < |secs| && 0 <= k < |SectionOf(doc, secs[i].0)| ==> Loadable(SectionOf(doc, secs[i].0)[k])
  {
    if secs != [] {
      var init := secs[..|secs| - 1];
      var (key, t) := secs[|secs| - 1];
      LoadSectionsOutcome(m, doc, init);
      assert forall i :: 0 <= i < |init| ==> init[i] == secs[i];
      if LoadSections(m, doc, init).Success? {
        AddAllOutcome(LoadSections(m, doc, init).value, key, t, SectionOf(doc, key));
      }
    }
  }

  /** The section loops read the document only through their own keys. */
  lemma {:induction false} LoadSectionsReads(m: Mapping, doc: Models.Document, doc': Models.Document, secs: seq<(string, Target)>)
    requires forall i :: 0 <= i < |secs| ==> SectionOf(doc, secs[i].0) == SectionOf(doc', secs[i].0)
    ensures LoadSections(m, doc, secs) == LoadSections(m, doc', secs)
  {
    if secs != [] {
      var init := secs[..|secs| - 1];
      assert forall i :: 0 <= i < |init| ==> init[i] == secs[i];
      LoadSectionsReads(m, doc, doc', init);
    }
  }

  // ---------------------------------------------------------------- load_replacements

  /** `load_replacements` gets through exactly when every entry of every section
      the class reads has `variants`, and an `id` whenever it has variants. */
  lemma LoadSucceeds(edition: Edition, s: State, doc: Models.Document)
    ensures var secs := Sections(edition);
      Load(edition, s, doc).Success? <==>
      forall i, k :: 0 <= i < |secs| && 0 <= k < |SectionOf(doc, secs[i].0)| ==> Loadable(SectionOf(doc, secs[i].0)[k])
  {
    LoadSectionsOutcome(s.mapping, doc, Sections(edition));
  }

  /** After a successful load: the entity lists are the configuration's, the
      counters are untouched, and under the label of section `i` a variant is
      mapped to the identifier of the last entry of that section listing it
      (for NUMBER_PATTERN, the last such entry with a truthy pattern), or keeps
      the identifier it had. */
  lemma LoadMaps(edition: Edition, s: State, doc: Models.Document, i: nat, lbl: string, v: string)
    requires Load(edition, s, doc).Success?
    requires i < |Sections(edition)| && Touches(Sections(edition)[i].1, lbl)
    ensures var s' := Load(edition, s, doc).value; var m, m' := s.mapping, s'.mapping;
      s'.counts == s.counts &&
      s'.entities.names == SectionOf(doc, "names") && s'.entities.numbers == SectionOf(doc, "numbers") &&
      Written(m, m', SectionOf(doc, Sections(edition)[i].0), Sections(edition)[i].1, lbl, v)
  {
    var secs := Sections(edition);
    forall j | 0 <= j < |secs| && j != i
      ensures !Touches(secs[j].1, lbl)
    {
    }
    LoadSectionsLookup(s.mapping, doc, secs, i, lbl, v);
    assert Load(edition, s, doc).value.mapping == LoadSections(s.mapping, doc, secs).value;
  }

  /** Labels no section of the class touches (CPR_NUMBER in the legacy class,
      anything the recognizer does not report) are left as they were. */
  lemma LoadKeeps(edition: Edition, s: State, doc: Models.Document, lbl: string)
    requires Load(edition, s, doc).Success?
    requires forall i :: 0 <= i < |Sections(edition)| ==> !Touches(Sections(edition)[i].1, lbl)
    ensures var m, m' := s.mapping, Load(edition, s, doc).value.mapping;
      (lbl in m' <==> lbl in m) && (lbl in m ==> m'[lbl] == m[lbl])
  {
    LoadSectionsUntouched(s.mapping, doc, Sections(edition), lbl);
  }

  /** The legacy class does not read a `cpr` section. */
  lemma LegacyIgnoresCpr(s: State, doc: Models.Document, rs: seq<Record>)
    ensures Load(Legacy, s, doc["cpr" := rs]) == Load(Legacy, s, doc)
  {
    var secs := Sections(Legacy);
    LoadSectionsReads(s.mapping, doc["cpr" := rs], doc, secs);
  }
}
