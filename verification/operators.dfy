/** The `entity_counter` operator of `src/did/operators.py`
    (`InstanceCounterAnonymizer`): the engine calls it on each recognized text
    with the text's label and the anonymizer's mapping. */
module Operators {
  import opened Wrappers
  import opened Registry
  import Models
  import Replacements

  /** The operator's parameters; either key may be missing. */
  datatype Params = Params(entityType: Option<string>, entityMapping: Option<Mapping>)

  /** The missing key: `validate` raises `ValueError` for it, `operate` a
      `KeyError`. */
  datatype ParamError = NoMapping | NoType

  /** `validate(params)`: the mapping is checked before the label. */
  function Validate(p: Params): (o: Outcome<ParamError>)
    ensures o.Pass? <==> p.entityMapping.Some? && p.entityType.Some?
    ensures p.entityMapping.None? ==> o == Fail(NoMapping)
  {
    if p.entityMapping.None? then Fail(NoMapping)
    else if p.entityType.None? then Fail(NoType)
    else Pass
  }

  /** The body of `operate` once both parameters are read: the replacement for
      `text`, and the mapping after `setdefault(entity_type, {})`. */
  function Lookup(text: string, typ: string, m: Mapping): (r: (string, Mapping))
    ensures r.1.Keys == m.Keys + {typ}
    ensures forall k :: k in m ==> r.1[k] == m[k]
    ensures typ !in m ==> r.1[typ] == map[]
    ensures text in Replacements.Inner(m, typ) ==> r.0 == Replacements.Inner(m, typ)[text]
    ensures text !in Replacements.Inner(m, typ) ==> r.0 == text
  {
    var inner := if typ in m then m[typ] else map[];
    (if text in inner then inner[text] else text, m[typ := inner])
  }

  /** `operate(text, params)`: `entity_type` is read before `entity_mapping`. */
  function Operate(text: string, p: Params): (r: Result<(string, Mapping), ParamError>)
    ensures r.Success? <==> p.entityType.Some? && p.entityMapping.Some?
    ensures p.entityType.None? ==> r == Failure(NoType)
  {
    if p.entityType.None? then Failure(NoType)
    else if p.entityMapping.None? then Failure(NoMapping)
    else Success(Lookup(text, p.entityType.value, p.entityMapping.value))
  }

  /** The mapping after the engine has called `operate` on each finding of
      `ops` under the finding's label: every label operated on is present,
      those new to the mapping with an empty map, and nothing else changes. */
  function OperateAll(m: Mapping, ops: seq<Finding>): (r: Mapping)
    ensures r.Keys == m.Keys + set f | f in ops :: LabelName(f.kind)
    ensures forall k :: k in m ==> r[k] == m[k]
    ensures forall k :: k in r && k !in m ==> r[k] == map[]
    decreases |ops|
  {
    if ops == [] then m
    else
      var m' := Lookup(ops[0].text, LabelName(ops[0].kind), m).1;
      assert (set f | f in ops :: LabelName(f.kind)) ==
        {LabelName(ops[0].kind)} + set f | f in ops[1..] :: LabelName(f.kind);
      OperateAll(m', ops[1..])
  }

  // ---------------------------------------------------------------- properties

  /** Parameters that pass `validate` never make `operate` raise, and the two
      disagree only on which key they blame when both are missing. */
  lemma ValidateGuardsOperate(text: string, p: Params)
    ensures Validate(p).Pass? <==> Operate(text, p).Success?
    ensures Validate(p).Fail? && (p.entityMapping.Some? || p.entityType.Some?) ==>
      Validate(p).error == Operate(text, p).error
    ensures p == Params(None, None) ==> Validate(p) == Fail(NoMapping) && Operate(text, p) == Failure(NoType)
  {
  }

  /** The `setdefault` never changes what a later lookup returns, and doing it
      twice is doing it once. */
  lemma LookupStable(t: string, typ: string, t': string, typ': string, m: Mapping)
    ensures Lookup(t, typ, Lookup(t', typ', m).1).0 == Lookup(t, typ, m).0
    ensures Lookup(t, typ, Lookup(t', typ, m).1).1 == Lookup(t', typ, m).1
  {
    var m' := Lookup(t', typ', m).1;
    assert Replacements.Inner(m', typ) == Replacements.Inner(m, typ);
  }

  /** After a successful `load_replacements`, the operator replaces a variant
      of section `i` under a label that section writes by the identifier of the
      last entry listing it; a text no entry lists and the mapping did not
      know is returned unchanged. */
  lemma OperateAfterLoad(edition: Edition, s: State, doc: Models.Document, i: nat, lbl: string, v: string)
    requires Replacements.Load(edition, s, doc).Success?
    requires i < |Replacements.Sections(edition)| && Replacements.Touches(Replacements.Sections(edition)[i].1, lbl)
    ensures var m := Replacements.Load(edition, s, doc).value.mapping;
      var (key, t) := Replacements.Sections(edition)[i]; var rs := Replacements.SectionOf(doc, key);
      var k := Replacements.LastFed(rs, t, lbl, v);
      (k.Some? ==> Lookup(v, lbl, m).0 == rs[k.value].id.GetOr("")) &&
      (k.None? && v !in Replacements.Inner(s.mapping, lbl) ==> Lookup(v, lbl, m).0 == v)
  {
    Replacements.LoadMaps(edition, s, doc, i, lbl, v);
  }
}
