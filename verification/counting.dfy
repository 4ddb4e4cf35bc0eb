/** The counters of `anonymize` (`src/did/anonymizer.py`, `src/did/core/anonymizer.py`):
    reset, then one `*_found` per recognizer finding, then one `*_replaced` per
    occurrence of an entry's identifier in the anonymized text. The text the
    engine produces is an input here. */
module Counting {
  import opened Wrappers
  import opened Seqs
  import Models
  import opened Registry
  import Operators

  // ---------------------------------------------------------------- str.count

  /** `t.count(sub)`: occurrences found left to right, each search resuming
      after the previous match, so they never overlap. The empty string occurs
      at every one of the `|t| + 1` positions. */
  function Occurrences(t: string, sub: string): (n: nat)
    ensures sub == [] ==> n == |t| + 1
    ensures sub != [] ==> n * |sub| <= |t|
    decreases |t|
  {
    if sub == [] then |t| + 1
    else if |t| < |sub| then 0
    else if t[..|sub|] == sub then
      var rest := Occurrences(t[|sub|..], sub);
      MulSucc(rest, |sub|);
      1 + rest
    else Occurrences(t[1..], sub)
  }

  /** `sub` written `n` times in a row. */
  function Repeat(sub: string, n: nat): (r: string)
    ensures |r| == n * |sub|
  {
    if n == 0 then [] else sub + Repeat(sub, n - 1)
  }

  /** `sub` occurs in `t` at position `i`. */
  predicate MatchAt(t: string, sub: string, i: nat) {
    i <= |t| - |sub| && t[i..i + |sub|] == sub
  }

  /** `sub` occurs somewhere in `t`. */
  ghost predicate Contains(t: string, sub: string) {
    exists i: nat :: MatchAt(t, sub, i)
  }

  lemma MulSucc(n: nat, m: nat)
    ensures (n + 1) * m == n * m + m
  {
  }

  /** Counting a non-empty string in `n` back-to-back copies of itself gives `n`. */
  lemma {:induction false} OccurrencesRepeat(sub: string, n: nat)
    requires sub != []
    ensures Occurrences(Repeat(sub, n), sub) == n
  {
    if n > 0 {
      var t := Repeat(sub, n);
      assert t[..|sub|] == sub;
      assert t[|sub|..] == Repeat(sub, n - 1);
      OccurrencesRepeat(sub, n - 1);
    }
  }

  /** A non-empty string is counted at least once exactly when it occurs. */
  lemma {:induction false} OccurrencesPositive(t: string, sub: string)
    requires sub != []
    ensures Occurrences(t, sub) > 0 <==> Contains(t, sub)
  {
    if |t| < |sub| {
      assert !Contains(t, sub);
    } else if t[..|sub|] == sub {
      assert MatchAt(t, sub, 0);
    } else {
      var rest := t[1..];
      OccurrencesPositive(rest, sub);
      if Contains(t, sub) {
        var i: nat :| MatchAt(t, sub, i);
        assert i != 0;
        assert rest[i - 1..i - 1 + |sub|] == t[i..i + |sub|];
        assert MatchAt(rest, sub, i - 1);
      }
      if Contains(rest, sub) {
        var i: nat :| MatchAt(rest, sub, i);
        assert t[i + 1..i + 1 + |sub|] == rest[i..i + |sub|];
        assert MatchAt(t, sub, i + 1);
      }
    }
  }

  /** `t.count(sub)` as CPython's search loop runs it. */
  method CountOccurrences(t: string, sub: string) returns (n: nat)
    ensures n == Occurrences(t, sub)
  {
    if sub == [] {
      return |t| + 1;
    }
    n := 0;
    var i := 0;
    while i + |sub| <= |t|
      invariant i <= |t|
      invariant n + Occurrences(t[i..], sub) == Occurrences(t, sub)
      decreases |t| - i
    {
      assert t[i..][..|sub|] == t[i..i + |sub|];
      if t[i..i + |sub|] == sub {
        assert t[i..][|sub|..] == t[i + |sub|..];
        n := n + 1;
        i := i + |sub|;
      } else {
        assert t[i..][1..] == t[i + 1..];
        i := i + 1;
      }
    }
  }

  // ---------------------------------------------------------------- found

  function IsKind(l: Label): Finding -> bool {
    (f: Finding) => f.kind == l
  }

  function IsNumberFinding(f: Finding): bool {
    IsNumber(f.kind)
  }

  /** The `*_found` counters of `anonymize`: each finding in the text counts once
      for its label, repeats included; both number recognizers count as
      numbers, and the legacy class has no CPR counter. */
  function FoundCounts(edition: Edition, fs: seq<Finding>): Counts {
    NoCounts.(namesFound := CountWhere(fs, IsKind(Person)),
              emailsFound := CountWhere(fs, IsKind(Email)),
              addressesFound := CountWhere(fs, IsKind(Address)),
              numbersFound := CountWhere(fs, IsNumberFinding),
              patternsFound := CountWhere(fs, IsKind(NumberPattern)),
              cprFound := if edition == WithCpr then CountWhere(fs, IsKind(Cpr)) else 0)
  }

  /** The counters bumped for one finding. */
  function Ticked(edition: Edition, c: Counts, f: Finding): Counts {
    c.(namesFound := c.namesFound + (if f.kind == Person then 1 else 0),
       emailsFound := c.emailsFound + (if f.kind == Email then 1 else 0),
       addressesFound := c.addressesFound + (if f.kind == Address then 1 else 0),
       numbersFound := c.numbersFound + (if IsNumber(f.kind) then 1 else 0),
       patternsFound := c.patternsFound + (if f.kind == NumberPattern then 1 else 0),
       cprFound := c.cprFound + (if edition == WithCpr && f.kind == Cpr then 1 else 0))
  }

  /** The counters after one more finding. */
  lemma FoundStep(edition: Edition, fs: seq<Finding>, i: nat)
    requires i < |fs|
    ensures FoundCounts(edition, fs[..i + 1]) == Ticked(edition, FoundCounts(edition, fs[..i]), fs[i])
  {
    assert fs[..i + 1] == fs[..i] + [fs[i]];
    CountWhereSnoc(fs[..i], fs[i], IsKind(Person));
    CountWhereSnoc(fs[..i], fs[i], IsKind(Email));
    CountWhereSnoc(fs[..i], fs[i], IsKind(Address));
    CountWhereSnoc(fs[..i], fs[i], IsNumberFinding);
    CountWhereSnoc(fs[..i], fs[i], IsKind(NumberPattern));
    CountWhereSnoc(fs[..i], fs[i], IsKind(Cpr));
  }

  /** The `if`/`elif` chain on one finding's label. */
  method Tick(edition: Edition, c: Counts, f: Finding) returns (c': Counts)
    ensures c' == Ticked(edition, c, f)
  {
    c' := c;
    if f.kind == Person {
      c' := c.(namesFound := c.namesFound + 1);
    } else if f.kind == Email {
      c' := c.(emailsFound := c.emailsFound + 1);
    } else if f.kind == Address {
      c' := c.(addressesFound := c.addressesFound + 1);
    } else if IsNumber(f.kind) {
      c' := c.(numbersFound := c.numbersFound + 1);
      if f.kind == NumberPattern {
        c' := c'.(patternsFound := c.patternsFound + 1);
      }
    } else if edition == WithCpr && f.kind == Cpr {
      c' := c.(cprFound := c.cprFound + 1);
    }
  }

  /** The reset and the `for result in results` loop of `anonymize`. */
  method CountFound(edition: Edition, fs: seq<Finding>) returns (c: Counts)
    ensures c == FoundCounts(edition, fs)
  {
    c := NoCounts;
    for i := 0 to |fs|
      invariant c == FoundCounts(edition, fs[..i])
    {
      FoundStep(edition, fs, i);
      c := Tick(edition, c, fs[i]);
    }
    assert fs[..|fs|] == fs;
  }

  // ---------------------------------------------------------------- replaced

  /** The sum, over the entries with `p`, of the occurrences of their
      identifiers in `out`; `Failure(k)` when entry `k` has no `id` (every
      entry's `id` is read, whether or not it has `p`). */
  function Tally(out: string, rs: seq<Models.Record>, p: Models.Record -> bool): Result<nat, nat> {
    if rs == [] then Success(0)
    else
      var last := rs[|rs| - 1];
      match Tally(out, rs[..|rs| - 1], p)
      case Failure(k) => Failure(k)
      case Success(n) =>
        if last.id.None? then Failure(|rs| - 1)
        else Success(n + if p(last) then Occurrences(out, last.id.value) else 0)
  }

  function Every(r: Models.Record): bool {
    true
  }

  /** One `for entry in ...` loop of the counting part, for the numbers both
      sums at once. */
  method TallyEntries(out: string, rs: seq<Models.Record>) returns (r: Result<(nat, nat), nat>)
    ensures r.Success? <==> Tally(out, rs, Every).Success?
    ensures r.Success? ==>
      Tally(out, rs, HasPattern).Success? &&
      r.value.0 == Tally(out, rs, Every).value && r.value.1 == Tally(out, rs, HasPattern).value
    ensures r.Failure? ==> r.error == Tally(out, rs, Every).error
  {
    var all, patterns := 0, 0;
    for k := 0 to |rs|
      invariant Tally(out, rs[..k], Every) == Success(all)
      invariant Tally(out, rs[..k], HasPattern) == Success(patterns)
    {
      var entry := rs[k];
      if entry.id.None? {
        assert rs[..k + 1][..k] == rs[..k];
        TallyStops(out, rs, Every, k + 1);
        return Failure(k);
      }
      TallySnoc(out, rs, Every, k);
      TallySnoc(out, rs, HasPattern, k);
      var n := CountOccurrences(out, entry.id.value);
      all := all + n;
      if entry.pattern.Some? && entry.pattern.value != "" {
        patterns := patterns + n;
      }
    }
    assert rs[..|rs|] == rs;
    TallyAgree(out, rs, HasPattern, Every);
    r := Success((all, patterns));
  }

  /** The sum over one more entry that has an `id`. */
  lemma TallySnoc(out: string, rs: seq<Models.Record>, p: Models.Record -> bool, k: nat)
    requires k < |rs| && Tally(out, rs[..k], p).Success? && rs[k].id.Some?
    ensures Tally(out, rs[..k + 1], p) ==
      Success(Tally(out, rs[..k], p).value + if p(rs[k]) then Occurrences(out, rs[k].id.value) else 0)
  {
    assert rs[..k + 1][..k] == rs[..k];
  }

  /** Once an entry without `id` is reached, the loop raises there. */
  lemma {:induction false} TallyStops(out: string, rs: seq<Models.Record>, p: Models.Record -> bool, j: nat)
    requires j <= |rs| && Tally(out, rs[..j], p).Failure?
    ensures Tally(out, rs, p) == Tally(out, rs[..j], p)
  {
    if j < |rs| {
      assert rs[..|rs| - 1][..j] == rs[..j];
      TallyStops(out, rs[..|rs| - 1], p, j);
    } else {
      assert rs[..j] == rs;
    }
  }

  /** Every entry has an `id`. */
  predicate AllHaveIds(rs: seq<Models.Record>) {
    forall k :: 0 <= k < |rs| ==> rs[k].id.Some?
  }

  /** Whether the loop raises does not depend on which entries are summed; it
      raises exactly when some entry has no `id`. */
  lemma {:induction false} TallyAgree(out: string, rs: seq<Models.Record>, p: Models.Record -> bool, q: Models.Record -> bool)
    ensures Tally(out, rs, p).Success? <==> Tally(out, rs, q).Success?
    ensures Tally(out, rs, p).Success? <==> AllHaveIds(rs)
    ensures Tally(out, rs, p).Failure? ==> Tally(out, rs, p).error == Tally(out, rs, q).error
  {
    if rs != [] {
      var init := rs[..|rs| - 1];
      TallyAgree(out, init, p, q);
      assert forall k :: 0 <= k < |init| ==> init[k] == rs[k];
    }
  }

  /** Summing over fewer entries gives no more. */
  lemma {:induction false} TallyMono(out: string, rs: seq<Models.Record>, p: Models.Record -> bool, q: Models.Record -> bool)
    requires forall r :: p(r) ==> q(r)
    requires Tally(out, rs, p).Success? && Tally(out, rs, q).Success?
    ensures Tally(out, rs, p).value <= Tally(out, rs, q).value
  {
    if rs != [] {
      var init := rs[..|rs| - 1];
      TallyAgree(out, init, p, q);
      TallyMono(out, init, p, q);
    }
  }

  // ---------------------------------------------------------------- anonymize

  /** The `KeyError` of an entry without `id`: its category and position. */
  datatype CountError = MissingId(section: string, index: nat)

  /** The categories whose entries are counted, in loop order. */
  function Categories(edition: Edition, e: Entities): seq<(string, seq<Models.Record>)> {
    [("names", e.names), ("emails", e.emails), ("addresses", e.addresses), ("numbers", e.numbers)] +
    (if edition == WithCpr then [("cpr", e.cpr)] else [])
  }

  /** The counting loops in order: the `*_replaced` counters on top of `found`,
      or the first entry without an `id`. */
  function Replaced(edition: Edition, e: Entities, out: string, found: Counts): Result<Counts, CountError> {
    match Tally(out, e.names, Every)
    case Failure(k) => Failure(MissingId("names", k))
    case Success(names) =>
      match Tally(out, e.emails, Every)
      case Failure(k) => Failure(MissingId("emails", k))
      case Success(emails) =>
        match Tally(out, e.addresses, Every)
        case Failure(k) => Failure(MissingId("addresses", k))
        case Success(addresses) =>
          match Tally(out, e.numbers, Every)
          case Failure(k) => Failure(MissingId("numbers", k))
          case Success(numbers) =>
            var tagged := Tally(out, e.numbers, HasPattern);
            var patterns := if tagged.Success? then tagged.value else 0;
            var c := found.(namesReplaced := names, emailsReplaced := emails, addressesReplaced := addresses,
                            numbersReplaced := numbers, patternsReplaced := patterns);
            if edition == Legacy then Success(c)
            else
              match Tally(out, e.cpr, Every)
              case Failure(k) => Failure(MissingId("cpr", k))
              case Success(cpr) => Success(c.(cprReplaced := cpr))
  }

  /** `anonymize(text)` given the recognizer's findings `fs` on the text, the
      findings `ops` the engine kept and called the operator on, and the
      engine's output `out`: the output and the anonymizer with its counters
      replaced and its mapping as the operator's `setdefault` left it. */
  function Anonymize(edition: Edition, s: State, fs: seq<Finding>, ops: seq<Finding>, out: string)
    : (r: Result<(string, State), CountError>)
    ensures r.Success? ==> r.value.0 == out && r.value.1.entities == s.entities
    ensures r.Success? ==> r.value.1.mapping.Keys == s.mapping.Keys + set f | f in ops :: LabelName(f.kind)
    ensures r.Success? ==> forall k :: k in s.mapping ==> r.value.1.mapping[k] == s.mapping[k]
    ensures r.Success? ==> forall k :: k in r.value.1.mapping && k !in s.mapping ==> r.value.1.mapping[k] == map[]
  {
    match Replaced(edition, s.entities, out, FoundCounts(edition, fs))
    case Failure(e) => Failure(e)
    case Success(c) => Success((out, s.(counts := c, mapping := Operators.OperateAll(s.mapping, ops))))
  }

  /** The counting part of `anonymize` as its loops run it. */
  method AnonymizeCounts(edition: Edition, s: State, fs: seq<Finding>, ops: seq<Finding>, out: string)
    returns (r: Result<(string, State), CountError>)
    ensures r == Anonymize(edition, s, fs, ops, out)
  {
    var c := CountFound(edition, fs);
    var e := s.entities;
    var names := TallyEntries(out, e.names);
    if names.Failure? {
      return Failure(MissingId("names", names.error));
    }
    var emails := TallyEntries(out, e.emails);
    if emails.Failure? {
      return Failure(MissingId("emails", emails.error));
    }
    var addresses := TallyEntries(out, e.addresses);
    if addresses.Failure? {
      return Failure(MissingId("addresses", addresses.error));
    }
    var numbers := TallyEntries(out, e.numbers);
    if numbers.Failure? {
      return Failure(MissingId("numbers", numbers.error));
    }
    c := c.(namesReplaced := names.value.0, emailsReplaced := emails.value.0, addressesReplaced := addresses.value.0,
            numbersReplaced := numbers.value.0, patternsReplaced := numbers.value.1);
    if edition == WithCpr {
      var cpr := TallyEntries(out, e.cpr);
      if cpr.Failure? {
        return Failure(MissingId("cpr", cpr.error));
      }
      c := c.(cprReplaced := cpr.value.0);
    }
    r := Success((out, s.(counts := c, mapping := Operators.OperateAll(s.mapping, ops))));
  }

  // ---------------------------------------------------------------- properties

  /** The counters are reset first: what `anonymize` reports does not depend on
      the counters it started with. */
  lemma AnonymizeResets(edition: Edition, s: State, before: Counts, fs: seq<Finding>, ops: seq<Finding>, out: string)
    ensures Anonymize(edition, s.(counts := before), fs, ops, out) == Anonymize(edition, s, fs, ops, out)
  {
  }

  /** `anonymize` gets through exactly when every entry of every category it
      counts has an `id`. */
  lemma AnonymizeSucceeds(edition: Edition, s: State, fs: seq<Finding>, ops: seq<Finding>, out: string)
    ensures var e := s.entities;
      Anonymize(edition, s, fs, ops, out).Success? <==>
      AllHaveIds(e.names) && AllHaveIds(e.emails) && AllHaveIds(e.addresses) && AllHaveIds(e.numbers) &&
      (edition == WithCpr ==> AllHaveIds(e.cpr))
  {
    var e := s.entities;
    TallyAgree(out, e.names, Every, Every);
    TallyAgree(out, e.emails, Every, Every);
    TallyAgree(out, e.addresses, Every, Every);
    TallyAgree(out, e.numbers, Every, HasPattern);
    TallyAgree(out, e.cpr, Every, Every);
  }

  /** Pattern matches are numbers: never more of them found, nor replaced. */
  lemma PatternsBounded(edition: Edition, s: State, fs: seq<Finding>, ops: seq<Finding>, out: string)
    requires Anonymize(edition, s, fs, ops, out).Success?
    ensures var c := Anonymize(edition, s, fs, ops, out).value.1.counts;
      c.patternsFound <= c.numbersFound && c.patternsReplaced <= c.numbersReplaced
  {
    CountWhereMono(fs, IsKind(NumberPattern), IsNumberFinding);
    TallyAgree(out, s.entities.numbers, HasPattern, Every);
    TallyMono(out, s.entities.numbers, HasPattern, Every);
  }

  /** Identifiers that do not occur in the output are not counted. */
  lemma {:induction false} TallyAbsent(out: string, rs: seq<Models.Record>, p: Models.Record -> bool)
    requires forall k :: 0 <= k < |rs| ==> rs[k].id.Some? && rs[k].id.value != [] && !Contains(out, rs[k].id.value)
    ensures Tally(out, rs, p) == Success(0)
  {
    if rs != [] {
      var init, last := rs[..|rs| - 1], rs[|rs| - 1];
      assert forall k :: 0 <= k < |init| ==> init[k] == rs[k];
      TallyAbsent(out, init, p);
      OccurrencesPositive(out, last.id.value);
    }
  }
}
