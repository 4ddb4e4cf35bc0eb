/** The configuration schema of `src/did/core/models.py`: an `Entity` record and a
    `Config` holding one list of entities per category, read from a document
    whose keys are the categories' upper-case aliases. */
module Models {
  import opened Wrappers

  /** One configured entity: its replacement identifier, the surface forms it
      replaces, and an optional pattern (used for numbers). */
  datatype Entity = Entity(id: string, variants: seq<string>, pattern: Option<string>)

  /** An entity as read from a document, before validation: any field may be
      missing. */
  datatype Record = Record(id: Option<string>, variants: Option<seq<string>>, pattern: Option<string>)

  /** Validation of one record: `id` and `variants` are required, `pattern`
      defaults to none. The error lists the missing required fields. */
  function ParseEntity(r: Record): (res: Result<Entity, seq<string>>)
    ensures res.Success? <==> r.id.Some? && r.variants.Some?
    ensures res.Failure? ==> |res.error| > 0
    ensures res.Failure? ==> ("id" in res.error <==> r.id.None?) && ("variants" in res.error <==> r.variants.None?)
  {
    match (r.id, r.variants)
    case (Some(id), Some(vs)) => Success(Entity(id, vs, r.pattern))
    case (None, Some(_)) => Failure(["id"])
    case (Some(_), None) => Failure(["variants"])
    case (None, None) => Failure(["id", "variants"])
  }

  /** The record an entity is written back as. */
  function ToRecord(e: Entity): Record {
    Record(Some(e.id), Some(e.variants), e.pattern)
  }

  /** Writing an entity back and reading it again gives the entity. */
  lemma EntityRoundTrip(e: Entity)
    ensures ParseEntity(ToRecord(e)) == Success(e)
  {
  }

  /** A record that validates is exactly the record of the entity it yields. */
  lemma RecordRoundTrip(r: Record)
    requires ParseEntity(r).Success?
    ensures ToRecord(ParseEntity(r).value) == r
  {
  }

  /** A record without a pattern validates to an entity whose pattern is none. */
  lemma PatternDefaultsToNone(id: string, variants: seq<string>)
    ensures ParseEntity(Record(Some(id), Some(variants), None)) == Success(Entity(id, variants, None))
  {
  }

  // ---------------------------------------------------------------- categories

  /** The eight categories of a configuration. There is no CPR category. */
  datatype Category = Person | EmailAddress | Location | PhoneNumber | DateNumber | IdNumber | CodeNumber | GeneralNumber

  /** All categories, in declaration order. */
  const Categories: seq<Category> := [Person, EmailAddress, Location, PhoneNumber, DateNumber, IdNumber, CodeNumber, GeneralNumber]

  /** The document key a category is read from. */
  function Alias(c: Category): string {
    match c
    case Person => "PERSON"
    case EmailAddress => "EMAIL_ADDRESS"
    case Location => "LOCATION"
    case PhoneNumber => "PHONE_NUMBER"
    case DateNumber => "DATE_NUMBER"
    case IdNumber => "ID_NUMBER"
    case CodeNumber => "CODE_NUMBER"
    case GeneralNumber => "GENERAL_NUMBER"
  }

  /** The attribute name of a category's list. */
  function FieldName(c: Category): string {
    match c
    case Person => "person"
    case EmailAddress => "email_address"
    case Location => "location"
    case PhoneNumber => "phone_number"
    case DateNumber => "date_number"
    case IdNumber => "id_number"
    case CodeNumber => "code_number"
    case GeneralNumber => "general_number"
  }

  /** The category a document key names, if any: the first category whose
      alias it is. */
  function ParseAlias(key: string): Option<Category> {
    FindAlias(key, Categories)
  }

  function FindAlias(key: string, cs: seq<Category>): Option<Category> {
    if cs == [] then None
    else if Alias(cs[0]) == key then Some(cs[0])
    else FindAlias(key, cs[1..])
  }

  /** The position of a category in `Categories`. */
  function CategoryIndex(c: Category): (i: nat)
    ensures i < |Categories| && Categories[i] == c
  {
    match c
    case Person => 0
    case EmailAddress => 1
    case Location => 2
    case PhoneNumber => 3
    case DateNumber => 4
    case IdNumber => 5
    case CodeNumber => 6
    case GeneralNumber => 7
  }

  /** Aliases are upper case and attribute names lower case, and every alias is
      told apart from the others by its length and first letter. */
  lemma AliasShape(c: Category)
    ensures 'A' <= Alias(c)[0] <= 'Z' && 'a' <= FieldName(c)[0] <= 'z'
    ensures |Alias(c)| !in {3, 10}
    ensures Signature(c) == (|Alias(c)|, Alias(c)[0])
  {
  }

  function Signature(c: Category): (nat, char) {
    match c
    case Person => (6, 'P')
    case EmailAddress => (13, 'E')
    case Location => (8, 'L')
    case PhoneNumber => (12, 'P')
    case DateNumber => (11, 'D')
    case IdNumber => (9, 'I')
    case CodeNumber => (11, 'C')
    case GeneralNumber => (14, 'G')
  }

  /** The alias is one-to-one, and so is the attribute name. */
  lemma AliasInjective(c: Category, d: Category)
    ensures Alias(c) == Alias(d) ==> c == d
    ensures FieldName(c) == FieldName(d) ==> c == d
  {
    AliasShape(c);
    AliasShape(d);
  }

  lemma {:induction false} FindAliasSpec(key: string, cs: seq<Category>, c: Category)
    ensures FindAlias(key, cs) == Some(c) ==> c in cs && Alias(c) == key
    ensures c in cs && Alias(c) == key ==> FindAlias(key, cs) == Some(c)
  {
    if cs != [] {
      AliasInjective(c, cs[0]);
      FindAliasSpec(key, cs[1..], c);
    }
  }

  /** Aliases and categories correspond one to one. */
  lemma AliasBijection(c: Category, key: string)
    ensures ParseAlias(Alias(c)) == Some(c)
    ensures ParseAlias(key) == Some(c) <==> key == Alias(c)
  {
    assert c in Categories by { assert Categories[CategoryIndex(c)] == c; }
    FindAliasSpec(Alias(c), Categories, c);
    FindAliasSpec(key, Categories, c);
  }

  /** Only the eight aliases name categories: a key names a category exactly
      when it is that category's alias, and attribute names and CPR keys name
      none. */
  lemma OnlyAliasesAreCategories(c: Category, key: string)
    ensures ParseAlias(key).Some? <==> exists d :: key == Alias(d)
    ensures ParseAlias(FieldName(c)) == None
    ensures ParseAlias("CPR_NUMBER") == None
    ensures ParseAlias("CPR") == None
  {
    if ParseAlias(key).Some? {
      AliasBijection(ParseAlias(key).value, key);
    }
    forall d ensures ParseAlias(Alias(d)) == Some(d) {
      AliasBijection(d, Alias(d));
    }
    forall d ensures Alias(d) != FieldName(c) && Alias(d) != "CPR_NUMBER" && Alias(d) != "CPR" {
      AliasShape(d);
      AliasShape(c);
    }
    NoAliasNoCategory(FieldName(c));
    NoAliasNoCategory("CPR_NUMBER");
    NoAliasNoCategory("CPR");
  }

  lemma NoAliasNoCategory(key: string)
    requires forall d :: Alias(d) != key
    ensures ParseAlias(key) == None
  {
    if ParseAlias(key).Some? {
      AliasBijection(ParseAlias(key).value, key);
    }
  }

  // ---------------------------------------------------------------- configurations

  datatype Config = Config(
    person: seq<Entity>,
    emailAddress: seq<Entity>,
    location: seq<Entity>,
    phoneNumber: seq<Entity>,
    dateNumber: seq<Entity>,
    idNumber: seq<Entity>,
    codeNumber: seq<Entity>,
    generalNumber: seq<Entity>)

  /** The list a configuration holds for a category. */
  function Field(cfg: Config, c: Category): seq<Entity> {
    match c
    case Person => cfg.person
    case EmailAddress => cfg.emailAddress
    case Location => cfg.location
    case PhoneNumber => cfg.phoneNumber
    case DateNumber => cfg.dateNumber
    case IdNumber => cfg.idNumber
    case CodeNumber => cfg.codeNumber
    case GeneralNumber => cfg.generalNumber
  }

  /** A configuration with every list at its default. */
  function DefaultConfig(): (cfg: Config)
    ensures forall c :: Field(cfg, c) == []
  {
    Config([], [], [], [], [], [], [], [])
  }

  /** A document: lists of records under string keys. */
  type Document = map<string, seq<Record>>

  /** Where a validation error sits: the document key, the position in that
      key's list, and the missing field. */
  datatype Loc = Loc(key: string, index: nat, field: string)

  /** The record at `l`'s position in the list `rs` read under `key` lacks
      `l`'s field. */
  predicate Misses(key: string, rs: seq<Record>, l: Loc) {
    l.key == key && l.index < |rs| && ParseEntity(rs[l.index]).Failure? && l.field in ParseEntity(rs[l.index]).error
  }

  /** The errors of one record, located at position `i` under `key`. */
  function RecordErrors(key: string, i: nat, r: Record): seq<Loc> {
    match ParseEntity(r)
    case Success(_) => []
    case Failure(fields) => seq(|fields|, j requires 0 <= j < |fields| => Loc(key, i, fields[j]))
  }

  /** The errors of every record of `rs`, in order: validation does not stop at
      the first bad record. */
  function ListErrors(key: string, rs: seq<Record>): seq<Loc> {
    if rs == [] then [] else ListErrors(key, rs[..|rs| - 1]) + RecordErrors(key, |rs| - 1, rs[|rs| - 1])
  }

  lemma RecordErrorsSpec(key: string, i: nat, r: Record, l: Loc)
    ensures l in RecordErrors(key, i, r) <==>
      l.key == key && l.index == i && ParseEntity(r).Failure? && l.field in ParseEntity(r).error
  {
    if ParseEntity(r).Failure? && l.key == key && l.index == i && l.field in ParseEntity(r).error {
      var fields := ParseEntity(r).error;
      var j :| 0 <= j < |fields| && fields[j] == l.field;
      assert RecordErrors(key, i, r)[j] == l;
    }
  }

  lemma {:induction false} ListErrorsSpec(key: string, rs: seq<Record>)
    ensures forall l :: l in ListErrors(key, rs) <==> Misses(key, rs, l)
    ensures ListErrors(key, rs) == [] <==> forall i :: 0 <= i < |rs| ==> ParseEntity(rs[i]).Success?
  {
    if rs != [] {
      var init, n := rs[..|rs| - 1], |rs| - 1;
      ListErrorsSpec(key, init);
      forall l ensures l in ListErrors(key, rs) <==> Misses(key, rs, l) {
        RecordErrorsSpec(key, n, rs[n], l);
        if l.index < n {
          assert rs[l.index] == init[l.index];
        }
      }
      if ParseEntity(rs[n]).Failure? {
        var l := Loc(key, n, ParseEntity(rs[n]).error[0]);
        RecordErrorsSpec(key, n, rs[n], l);
      } else {
        assert ListErrors(key, rs) == ListErrors(key, init) + [];
        assert forall i :: 0 <= i < n ==> rs[i] == init[i];
      }
    }
  }

  /** Validation of a list of records: it succeeds when every record does, and
      otherwise reports every missing field of every record, located. */
  function ParseEntities(key: string, rs: seq<Record>): (res: Result<seq<Entity>, seq<Loc>>)
    ensures res.Success? <==> forall i :: 0 <= i < |rs| ==> ParseEntity(rs[i]).Success?
    ensures res.Success? ==> |res.value| == |rs| && forall i :: 0 <= i < |rs| ==> res.value[i] == ParseEntity(rs[i]).value
    ensures res.Failure? ==> res.error != [] && forall l :: l in res.error <==> Misses(key, rs, l)
  {
    ListErrorsSpec(key, rs);
    var errors := ListErrors(key, rs);
    if errors == [] then Success(seq(|rs|, i requires 0 <= i < |rs| => ValueOf(rs[i]))) else Failure(errors)
  }

  /** The entity a record validates to, or a placeholder when it does not. */
  function ValueOf(r: Record): Entity {
    match ParseEntity(r)
    case Success(e) => e
    case Failure(_) => Entity([], [], None)
  }

  /** The entities a document gives a category: its alias's list, or the empty
      default when the alias is absent. */
  function Section(doc: Document, c: Category): Result<seq<Entity>, seq<Loc>> {
    if Alias(c) in doc then ParseEntities(Alias(c), doc[Alias(c)]) else Success([])
  }

  function SectionErrors(doc: Document, c: Category): seq<Loc> {
    if Section(doc, c).Failure? then Section(doc, c).error else []
  }

  function SectionValue(doc: Document, c: Category): seq<Entity> {
    if Section(doc, c).Success? then Section(doc, c).value else []
  }

  /** The errors of the sections of `cs`, in order. */
  function Errors(doc: Document, cs: seq<Category>): seq<Loc> {
    if cs == [] then [] else SectionErrors(doc, cs[0]) + Errors(doc, cs[1..])
  }

  /** `l` locates a missing field of a record listed under a category's alias. */
  predicate IsError(doc: Document, l: Loc) {
    ParseAlias(l.key).Some? && l.key in doc && Misses(l.key, doc[l.key], l)
  }

  lemma {:induction false} ErrorsSpec(doc: Document, cs: seq<Category>)
    ensures forall l :: l in Errors(doc, cs) <==> exists i :: 0 <= i < |cs| && l in SectionErrors(doc, cs[i])
    ensures Errors(doc, cs) == [] <==> forall i :: 0 <= i < |cs| ==> Section(doc, cs[i]).Success?
  {
    if cs != [] {
      ErrorsSpec(doc, cs[1..]);
      forall l | l in Errors(doc, cs) ensures exists i :: 0 <= i < |cs| && l in SectionErrors(doc, cs[i]) {
        if l !in SectionErrors(doc, cs[0]) {
          var i :| 0 <= i < |cs[1..]| && l in SectionErrors(doc, cs[1..][i]);
          assert cs[1..][i] == cs[i + 1];
        }
      }
      forall l, i | 0 <= i < |cs| && l in SectionErrors(doc, cs[i]) ensures l in Errors(doc, cs) {
        if i > 0 {
          assert cs[i] == cs[1..][i - 1];
        }
      }
      assert forall i :: 0 < i < |cs| ==> cs[i] == cs[1..][i - 1];
    }
  }

  /** A document's errors are exactly the missing fields of the records under
      the categories' aliases. */
  lemma CategoryErrors(doc: Document)
    ensures Errors(doc, Categories) == [] <==> forall c :: Section(doc, c).Success?
    ensures forall l :: l in Errors(doc, Categories) <==> IsError(doc, l)
  {
    ErrorsSpec(doc, Categories);
    if forall i :: 0 <= i < |Categories| ==> Section(doc, Categories[i]).Success? {
      forall c ensures Section(doc, c).Success? {
        assert Categories[CategoryIndex(c)] == c;
      }
    }
    forall l ensures l in Errors(doc, Categories) <==> IsError(doc, l) {
      if l in Errors(doc, Categories) {
        var i :| 0 <= i < |Categories| && l in SectionErrors(doc, Categories[i]);
        AliasBijection(Categories[i], l.key);
      }
      if IsError(doc, l) {
        var c := ParseAlias(l.key).value;
        AliasBijection(c, l.key);
        assert l in SectionErrors(doc, Categories[CategoryIndex(c)]);
      }
    }
  }

  /** Two configurations with the same lists are the same. */
  lemma ConfigExt(a: Config, b: Config)
    requires forall c :: Field(a, c) == Field(b, c)
    ensures a == b
  {
    assert Field(a, Person) == Field(b, Person);
    assert Field(a, EmailAddress) == Field(b, EmailAddress);
    assert Field(a, Location) == Field(b, Location);
    assert Field(a, PhoneNumber) == Field(b, PhoneNumber);
    assert Field(a, DateNumber) == Field(b, DateNumber);
    assert Field(a, IdNumber) == Field(b, IdNumber);
    assert Field(a, CodeNumber) == Field(b, CodeNumber);
    assert Field(a, GeneralNumber) == Field(b, GeneralNumber);
  }

  /** Validation of a document: each category reads its alias's list; keys that
      are no alias are ignored. It succeeds when every section does, and
      otherwise reports every missing field of every record under an alias. */
  function ParseConfig(doc: Document): (res: Result<Config, seq<Loc>>)
    ensures res.Success? <==> forall c :: Section(doc, c).Success?
    ensures res.Success? ==> forall c :: Field(res.value, c) == Section(doc, c).value
    ensures res.Failure? ==> forall l :: l in res.error <==> IsError(doc, l)
  {
    CategoryErrors(doc);
    var errors := Errors(doc, Categories);
    if errors == [] then Success(FromSections(c => SectionValue(doc, c))) else Failure(errors)
  }

  /** The configuration holding `v(c)` for each category `c`. */
  function FromSections(v: Category -> seq<Entity>): (cfg: Config)
    ensures forall c :: Field(cfg, c) == v(c)
  {
    Config(v(Person), v(EmailAddress), v(Location), v(PhoneNumber), v(DateNumber), v(IdNumber), v(CodeNumber),
           v(GeneralNumber))
  }

  /** The document a configuration is written as, keyed by alias. */
  function ToDocument(cfg: Config): Document {
    Write(cfg, Categories)
  }

  function Write(cfg: Config, cs: seq<Category>): Document {
    if cs == [] then map[] else Write(cfg, cs[1..])[Alias(cs[0]) := ToRecords(Field(cfg, cs[0]))]
  }

  lemma {:induction false} WriteLookup(cfg: Config, cs: seq<Category>, c: Category)
    requires c in cs
    ensures Alias(c) in Write(cfg, cs) && Write(cfg, cs)[Alias(c)] == ToRecords(Field(cfg, c))
  {
    AliasInjective(c, cs[0]);
    if c != cs[0] {
      WriteLookup(cfg, cs[1..], c);
    }
  }

  function ToRecords(es: seq<Entity>): (rs: seq<Record>)
    ensures |rs| == |es| && forall i :: 0 <= i < |es| ==> rs[i] == ToRecord(es[i])
  {
    seq(|es|, i requires 0 <= i < |es| => ToRecord(es[i]))
  }

  /** An empty document validates to the default configuration. */
  lemma EmptyDocumentIsDefault()
    ensures ParseConfig(map[]) == Success(DefaultConfig())
  {
    var r := ParseConfig(map[]);
    assert forall c :: Section(map[], c) == Success([]);
    ConfigExt(r.value, DefaultConfig());
  }

  /** Writing a configuration by alias and reading it back gives it again. */
  lemma ConfigRoundTrip(cfg: Config)
    ensures ParseConfig(ToDocument(cfg)) == Success(cfg)
  {
    var doc := ToDocument(cfg);
    forall c: Category ensures Section(doc, c) == Success(Field(cfg, c)) {
      assert c in Categories by { assert Categories[CategoryIndex(c)] == c; }
      WriteLookup(cfg, Categories, c);
      EntitiesRoundTrip(Alias(c), Field(cfg, c));
    }
    ConfigExt(ParseConfig(doc).value, cfg);
  }

  lemma EntitiesRoundTrip(key: string, es: seq<Entity>)
    ensures ParseEntities(key, ToRecords(es)) == Success(es)
  {
    var r := ParseEntities(key, ToRecords(es));
    assert r.Success?;
    assert r.value == es;
  }

  /** A key that names no category, such as an attribute name or a CPR key,
      does not change what a document validates to. */
  lemma OtherKeysIgnored(doc: Document, key: string, rs: seq<Record>)
    requires ParseAlias(key).None?
    ensures ParseConfig(doc[key := rs]) == ParseConfig(doc)
  {
    forall c: Category ensures Section(doc[key := rs], c) == Section(doc, c) {
      AliasBijection(c, key);
    }
    ErrorsAgree(doc[key := rs], doc, Categories);
  }

  lemma {:induction false} ErrorsAgree(d1: Document, d2: Document, cs: seq<Category>)
    requires forall c :: Section(d1, c) == Section(d2, c)
    ensures Errors(d1, cs) == Errors(d2, cs)
  {
    if cs != [] {
      ErrorsAgree(d1, d2, cs[1..]);
    }
  }
}
