/** Sequence helpers shared by the clustering, registry and recognizer models:
    filtering, flattening, first-seen de-duplication and counting. */
module Seqs {

  /** The set of elements of a sequence. */
  function Elems<T>(s: seq<T>): set<T> {
    set x | x in s
  }

  lemma AppendAssoc<T>(a: seq<T>, b: seq<T>, c: seq<T>)
    ensures (a + b) + c == a + (b + c)
  {
  }

  lemma ElemsSnoc<T>(s: seq<T>, x: T)
    ensures Elems(s + [x]) == Elems(s) + {x}
  {
  }

  /** No element occurs twice. */
  predicate Distinct<T(==)>(s: seq<T>) {
    forall i, j :: 0 <= i < j < |s| ==> s[i] != s[j]
  }

  /** The elements of `s` that satisfy `p`, in their original order. */
  function Filter<T>(s: seq<T>, p: T -> bool): (r: seq<T>)
    ensures |r| <= |s|
    ensures forall x :: x in r ==> x in s && p(x)
    ensures forall x :: x in s && p(x) ==> x in r
  {
    if s == [] then []
    else if p(s[0]) then [s[0]] + Filter(s[1..], p)
    else Filter(s[1..], p)
  }

  /** The concatenation of a sequence of sequences. */
  function Flatten<T>(ss: seq<seq<T>>): seq<T> {
    if ss == [] then [] else ss[0] + Flatten(ss[1..])
  }

  /** `[lo, lo+1, ..., hi-1]`. */
  function Range(lo: nat, hi: nat): (r: seq<nat>)
    ensures |r| == if lo <= hi then hi - lo else 0
    ensures forall k :: 0 <= k < |r| ==> r[k] == lo + k
    decreases hi - lo
  {
    if lo >= hi then [] else [lo] + Range(lo + 1, hi)
  }

  /** Strictly increasing naturals. */
  predicate Increasing(s: seq<nat>) {
    forall i, j :: 0 <= i < j < |s| ==> s[i] < s[j]
  }

  /** The elements of `xs` not in `seen`, each once, in order of first occurrence.
      `DedupFrom(xs, {})` is what a loop `if x not in out: out.append(x)` builds. */
  function DedupFrom<T(==)>(xs: seq<T>, seen: set<T>): seq<T> {
    if xs == [] then []
    else if xs[0] in seen then DedupFrom(xs[1..], seen)
    else [xs[0]] + DedupFrom(xs[1..], seen + {xs[0]})
  }

  function Dedup<T(==)>(xs: seq<T>): seq<T> {
    DedupFrom(xs, {})
  }

  // ---------------------------------------------------------------- Filter

  lemma {:induction false} FilterMultiset<T>(s: seq<T>, p: T -> bool, notP: T -> bool)
    requires forall x :: notP(x) == !p(x)
    ensures multiset(Filter(s, p)) + multiset(Filter(s, notP)) == multiset(s)
  {
    if s != [] {
      var x, r := s[0], s[1..];
      FilterMultiset(r, p, notP);
      assert s == [x] + r;
      var a, b := Filter(r, p), Filter(r, notP);
      assert multiset(s) == multiset{x} + multiset(r);
      if p(x) {
        assert Filter(s, p) == [x] + a && Filter(s, notP) == b;
        assert multiset(Filter(s, p)) == multiset{x} + multiset(a);
      } else {
        assert Filter(s, p) == a && Filter(s, notP) == [x] + b;
        assert multiset(Filter(s, notP)) == multiset{x} + multiset(b);
      }
    }
  }

  lemma {:induction false} FilterAppend<T>(a: seq<T>, b: seq<T>, p: T -> bool)
    ensures Filter(a + b, p) == Filter(a, p) + Filter(b, p)
  {
    if a == [] {
      assert a + b == b;
    } else {
      assert (a + b)[0] == a[0];
      assert (a + b)[1..] == a[1..] + b;
      FilterAppend(a[1..], b, p);
      if p(a[0]) {
        calc {
          Filter(a + b, p);
          [a[0]] + Filter(a[1..] + b, p);
          [a[0]] + (Filter(a[1..], p) + Filter(b, p));
          ([a[0]] + Filter(a[1..], p)) + Filter(b, p);
        }
      }
    }
  }

  /** Filters by predicates that agree on the elements of `s` are equal. */
  lemma {:induction false} FilterExt<T>(s: seq<T>, p: T -> bool, q: T -> bool)
    requires forall x :: x in s ==> p(x) == q(x)
    ensures Filter(s, p) == Filter(s, q)
  {
    if s != [] {
      FilterExt(s[1..], p, q);
    }
  }

  lemma {:induction false} FilterFilter<T>(s: seq<T>, p: T -> bool, q: T -> bool, pq: T -> bool)
    requires forall x :: pq(x) == (p(x) && q(x))
    ensures Filter(Filter(s, p), q) == Filter(s, pq)
  {
    if s != [] {
      FilterFilter(s[1..], p, q, pq);
    }
  }

  /** A property that `f` preserves holds of every element of `Map(s, f)` exactly
      when it holds of every element of `s`. */
  lemma MapPreservesAll<T, U>(s: seq<T>, f: T -> U, P: U -> bool, Q: T -> bool)
    requires forall x :: x in s ==> P(f(x)) == Q(x)
    ensures (forall y :: y in Map(s, f) ==> P(y)) == (forall x :: x in s ==> Q(x))
  {
    var m := Map(s, f);
    if forall x :: x in s ==> Q(x) {
      forall y | y in m ensures P(y) {
        var i :| 0 <= i < |m| && m[i] == y;
        assert s[i] in s;
      }
    }
    if forall y :: y in m ==> P(y) {
      forall x | x in s ensures Q(x) {
        var i :| 0 <= i < |s| && s[i] == x;
        assert m[i] in m;
      }
    }
  }

  lemma {:induction false} FilterAll<T>(s: seq<T>, p: T -> bool)
    requires forall x :: x in s ==> p(x)
    ensures Filter(s, p) == s
  {
    if s != [] {
      FilterAll(s[1..], p);
    }
  }

  lemma {:induction false} FilterNone<T>(s: seq<T>, p: T -> bool)
    requires forall x :: x in s ==> !p(x)
    ensures Filter(s, p) == []
  {
    if s != [] {
      FilterNone(s[1..], p);
    }
  }

  lemma {:induction false} FilterIncreasing(s: seq<nat>, p: nat -> bool)
    requires Increasing(s)
    ensures Increasing(Filter(s, p))
  {
    if s != [] {
      FilterIncreasing(s[1..], p);
      var r := Filter(s[1..], p);
      if p(s[0]) {
        var fr := [s[0]] + r;
        forall i, j | 0 <= i < j < |fr|
          ensures fr[i] < fr[j]
        {
          assert fr[j] == r[j - 1];
          assert r[j - 1] in s[1..];
          if i > 0 {
            assert fr[i] == r[i - 1];
          }
        }
      }
    }
  }

  lemma {:induction false} FilterDistinct<T>(s: seq<T>, p: T -> bool)
    requires Distinct(s)
    ensures Distinct(Filter(s, p))
  {
    if s != [] {
      FilterDistinct(s[1..], p);
      var r := Filter(s[1..], p);
      assert s[0] !in s[1..];
      assert s[0] !in r;
      if p(s[0]) {
        var fr := [s[0]] + r;
        forall i, j | 0 <= i < j < |fr|
          ensures fr[i] != fr[j]
        {
          assert fr[j] == r[j - 1];
          if i > 0 {
            assert fr[i] == r[i - 1];
          }
        }
      }
    }
  }

  /** Filtering commutes with applying `f` to every element. */
  lemma {:induction false} FilterMap<T, U>(s: seq<T>, f: T -> U, p: U -> bool, pf: T -> bool)
    requires forall x :: pf(x) == p(f(x))
    ensures Map(Filter(s, pf), f) == Filter(Map(s, f), p)
  {
    if s != [] {
      var m := Map(s, f);
      FilterMap(s[1..], f, p, pf);
      assert m[1..] == Map(s[1..], f);
      assert Filter(m, p) == (if p(f(s[0])) then [f(s[0])] else []) + Filter(m[1..], p);
      var fs := Filter(s[1..], pf);
      if pf(s[0]) {
        MapCons(s[0], fs, f);
      }
    }
  }

  lemma MapCons<T, U>(x: T, s: seq<T>, f: T -> U)
    ensures Map([x] + s, f) == [f(x)] + Map(s, f)
  {
    assert ([x] + s)[1..] == s;
  }

  lemma MapSnoc<T, U>(s: seq<T>, x: T, f: T -> U)
    ensures Map(s + [x], f) == Map(s, f) + [f(x)]
  {
  }

  lemma MapAppend<T, U>(a: seq<T>, b: seq<T>, f: T -> U)
    ensures Map(a + b, f) == Map(a, f) + Map(b, f)
  {
  }

  function Map<T, U>(s: seq<T>, f: T -> U): (r: seq<U>)
    ensures |r| == |s|
    ensures forall i :: 0 <= i < |s| ==> r[i] == f(s[i])
  {
    seq(|s|, i requires 0 <= i < |s| => f(s[i]))
  }

  // ---------------------------------------------------------------- Flatten

  /** A member of the concatenation is a member of one of the parts. */
  lemma {:induction false} FlattenMember<T>(gs: seq<seq<T>>, y: T)
    requires y in Flatten(gs)
    ensures exists j :: 0 <= j < |gs| && y in gs[j]
  {
    if y !in gs[0] {
      FlattenMember(gs[1..], y);
      var j: nat :| 0 <= j < |gs[1..]| && y in gs[1..][j];
      assert y in gs[j + 1];
    }
  }

  lemma {:induction false} FlattenAppend<T>(a: seq<seq<T>>, b: seq<seq<T>>)
    ensures Flatten(a + b) == Flatten(a) + Flatten(b)
  {
    if a == [] {
      assert a + b == b;
    } else {
      assert (a + b)[0] == a[0];
      assert (a + b)[1..] == a[1..] + b;
      FlattenAppend(a[1..], b);
      calc {
        Flatten(a + b);
        a[0] + Flatten(a[1..] + b);
        a[0] + (Flatten(a[1..]) + Flatten(b));
        (a[0] + Flatten(a[1..])) + Flatten(b);
      }
    }
  }

  // ---------------------------------------------------------------- Dedup

  lemma {:induction false} DedupFromElems<T>(xs: seq<T>, seen: set<T>)
    ensures Elems(DedupFrom(xs, seen)) == Elems(xs) - seen
    ensures Distinct(DedupFrom(xs, seen))
  {
    if xs != [] {
      if xs[0] in seen {
        DedupFromElems(xs[1..], seen);
        assert Elems(xs) == {xs[0]} + Elems(xs[1..]);
      } else {
        DedupFromElems(xs[1..], seen + {xs[0]});
        assert Elems(xs) == {xs[0]} + Elems(xs[1..]);
        var d := DedupFrom(xs[1..], seen + {xs[0]});
        assert xs[0] !in d by {
          assert xs[0] !in Elems(d);
        }
        assert Elems([xs[0]] + d) == {xs[0]} + Elems(d);
      }
    }
  }

  lemma {:induction false} DedupFromAllSeen<T>(xs: seq<T>, seen: set<T>)
    requires forall x :: x in xs ==> x in seen
    ensures DedupFrom(xs, seen) == []
  {
    if xs != [] {
      DedupFromAllSeen(xs[1..], seen);
    }
  }

  /** Adding to `seen` elements that do not occur in `xs` changes nothing. */
  lemma {:induction false} DedupFromIrrelevant<T>(xs: seq<T>, seen: set<T>, extra: set<T>)
    requires forall x :: x in xs ==> x !in extra
    ensures DedupFrom(xs, seen + extra) == DedupFrom(xs, seen)
  {
    if xs != [] {
      if xs[0] in seen {
      } else {
        assert seen + extra + {xs[0]} == seen + {xs[0]} + extra;
        DedupFromIrrelevant(xs[1..], seen + {xs[0]}, extra);
      }
      DedupFromIrrelevant(xs[1..], seen, extra);
    }
  }

  /** Elements already seen in a prefix are skipped in what follows. */
  lemma {:induction false} DedupFromAppend<T>(xs: seq<T>, ys: seq<T>, seen: set<T>)
    ensures DedupFrom(xs + ys, seen) == DedupFrom(xs, seen) + DedupFrom(ys, seen + Elems(xs))
  {
    if xs == [] {
      assert xs + ys == ys;
      assert seen + Elems(xs) == seen;
    } else {
      assert (xs + ys)[1..] == xs[1..] + ys;
      assert Elems(xs) == {xs[0]} + Elems(xs[1..]);
      if xs[0] in seen {
        DedupFromAppend(xs[1..], ys, seen);
        assert seen + Elems(xs[1..]) == seen + Elems(xs);
      } else {
        DedupFromAppend(xs[1..], ys, seen + {xs[0]});
        assert seen + {xs[0]} + Elems(xs[1..]) == seen + Elems(xs);
      }
    }
  }

  /** A prefix whose elements are all seen contributes nothing. */
  lemma DedupFromSeenPrefix<T>(xs: seq<T>, i: nat, seen: set<T>)
    requires i <= |xs|
    requires forall k :: 0 <= k < i ==> xs[k] in seen
    ensures DedupFrom(xs, seen) == DedupFrom(xs[i..], seen)
  {
    assert xs == xs[..i] + xs[i..];
    DedupFromAppend(xs[..i], xs[i..], seen);
    DedupFromElems(xs[..i], seen);
    assert Elems(xs[..i]) <= seen;
    assert seen + Elems(xs[..i]) == seen;
    DedupFromAllSeen(xs[..i], seen);
  }

  /** Removing the element that `q` accepts from what is still to be de-duplicated:
      after marking every element of `Filter(D, q)` as seen, the rest is `Filter(D, !q)`. */
  lemma {:induction false} DedupFromMarkFiltered<T>(xs: seq<T>, seen: set<T>, q: T -> bool, notQ: T -> bool)
    requires forall x :: notQ(x) == !q(x)
    ensures DedupFrom(xs, seen + Elems(Filter(DedupFrom(xs, seen), q)))
         == Filter(DedupFrom(xs, seen), notQ)
  {
    if xs != [] {
      var y := xs[0];
      if y in seen {
        DedupFromMarkFiltered(xs[1..], seen, q, notQ);
      } else {
        var rest := DedupFrom(xs[1..], seen + {y});
        var inner := Elems(Filter(rest, q));
        DedupFromMarkFiltered(xs[1..], seen + {y}, q, notQ);
        if q(y) {
          assert Elems(Filter(DedupFrom(xs, seen), q)) == {y} + inner;
          assert seen + ({y} + inner) == seen + {y} + inner;
        } else {
          assert Elems(Filter(DedupFrom(xs, seen), q)) == inner;
          assert y !in inner;
          assert seen + inner + {y} == seen + {y} + inner;
        }
      }
    }
  }

  /** When `q` rejects `y`, whether `y` counts as seen does not affect the `q`-part. */
  lemma {:induction false} DedupFromFilterIgnores<T>(xs: seq<T>, seen: set<T>, y: T, q: T -> bool)
    requires !q(y)
    ensures Filter(DedupFrom(xs, seen + {y}), q) == Filter(DedupFrom(xs, seen), q)
  {
    if xs != [] {
      var z := xs[0];
      if z in seen {
        DedupFromFilterIgnores(xs[1..], seen, y, q);
      } else if z == y {
        DedupFromFilterIgnores(xs[1..], seen, y, q);
        assert seen + {y} + {y} == seen + {y};
      } else {
        DedupFromFilterIgnores(xs[1..], seen + {z}, y, q);
        assert seen + {y} + {z} == seen + {z} + {y};
      }
    }
  }

  /** De-duplicating a sequence without repeats changes nothing. */
  lemma {:induction false} DedupOfDistinct<T>(xs: seq<T>, seen: set<T>)
    requires Distinct(xs)
    requires forall x :: x in xs ==> x !in seen
    ensures DedupFrom(xs, seen) == xs
  {
    if xs != [] {
      assert xs[0] !in xs[1..];
      DedupOfDistinct(xs[1..], seen + {xs[0]});
    }
  }

  /** In a sequence without repeats every element occurs exactly once. */
  lemma {:induction false} DistinctMultiset<T>(s: seq<T>)
    requires Distinct(s)
    ensures forall x :: multiset(s)[x] == if x in s then 1 else 0
  {
    if s != [] {
      assert Distinct(s[1..]) by {
        forall i, j | 0 <= i < j < |s[1..]| ensures s[1..][i] != s[1..][j] {
          assert s[1..][i] == s[i + 1] && s[1..][j] == s[j + 1];
        }
      }
      DistinctMultiset(s[1..]);
      assert s == [s[0]] + s[1..];
      assert s[0] !in s[1..];
      forall x ensures multiset(s)[x] == if x in s then 1 else 0 {
        assert multiset(s)[x] == multiset([s[0]])[x] + multiset(s[1..])[x];
      }
    }
  }

  /** Removing repeats and filtering commute. */
  lemma {:induction false} DedupFilterCommute<T>(xs: seq<T>, seen: set<T>, p: T -> bool)
    ensures DedupFrom(Filter(xs, p), seen) == Filter(DedupFrom(xs, seen), p)
  {
    if xs != [] {
      var x := xs[0];
      if x in seen {
        DedupFilterCommute(xs[1..], seen, p);
      } else if p(x) {
        DedupFilterCommute(xs[1..], seen + {x}, p);
      } else {
        DedupFilterCommute(xs[1..], seen, p);
        DedupFromFilterIgnores(xs[1..], seen, x, p);
      }
    }
  }

  /** A rearrangement of a sequence without repeats has none either. */
  lemma DistinctPermutation<T>(a: seq<T>, b: seq<T>)
    requires multiset(a) == multiset(b) && Distinct(a)
    ensures Distinct(b)
  {
    DistinctMultiset(a);
    forall i, j | 0 <= i < j < |b| ensures b[i] != b[j] {
      RepeatCounts(b, i, j);
    }
  }

  /** An element found at two positions occurs at least twice. */
  lemma RepeatCounts<T>(b: seq<T>, i: nat, j: nat)
    requires i < j < |b|
    ensures b[i] == b[j] ==> multiset(b)[b[i]] >= 2
  {
    assert b == b[..j] + b[j..];
    assert b[i] in b[..j] && b[j] in b[j..];
    assert multiset(b)[b[i]] == multiset(b[..j])[b[i]] + multiset(b[j..])[b[i]];
  }

  lemma RangeIncreasing(lo: nat, hi: nat)
    ensures Increasing(Range(lo, hi))
    ensures Distinct(Range(lo, hi))
  {
  }

  // ---------------------------------------------------------------- counting

  /** The number of elements of `s` that satisfy `p`. */
  function CountWhere<T>(s: seq<T>, p: T -> bool): (n: nat)
    ensures n <= |s|
  {
    if s == [] then 0 else (if p(s[0]) then 1 else 0) + CountWhere(s[1..], p)
  }

  lemma {:induction false} CountWhereIsFilterLength<T>(s: seq<T>, p: T -> bool)
    ensures CountWhere(s, p) == |Filter(s, p)|
  {
    if s != [] {
      CountWhereIsFilterLength(s[1..], p);
    }
  }

  /** Counting over one more element. */
  lemma {:induction false} CountWhereSnoc<T>(s: seq<T>, x: T, p: T -> bool)
    ensures CountWhere(s + [x], p) == CountWhere(s, p) + (if p(x) then 1 else 0)
  {
    if s == [] {
      assert [x][1..] == [];
    } else {
      assert (s + [x])[1..] == s[1..] + [x];
      CountWhereSnoc(s[1..], x, p);
    }
  }

  /** A weaker predicate holds at least as often. */
  lemma {:induction false} CountWhereMono<T>(s: seq<T>, p: T -> bool, q: T -> bool)
    requires forall x :: p(x) ==> q(x)
    ensures CountWhere(s, p) <= CountWhere(s, q)
  {
    if s != [] {
      CountWhereMono(s[1..], p, q);
    }
  }
}
