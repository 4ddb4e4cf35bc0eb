/** The similarity scorer the clustering consults. `did` calls rapidfuzz's
    `fuzz.ratio`, a foreign floating-point routine; the model takes the scorer as a
    parameter (`Scorer`) and offers, as one instance, the normalised Indel ratio
    that `fuzz.ratio` documents: `200 * LCS(a, b) / (|a| + |b|)`, in exact reals. */
module Similarity {

  /** A similarity score between two normalised strings. */
  type Scorer = (string, string) -> real

  function Max(a: nat, b: nat): nat {
    if a >= b then a else b
  }

  /** Length of a longest common subsequence. */
  function Lcs(a: string, b: string): nat
    decreases |a| + |b|
  {
    if a == [] || b == [] then 0
    else
      var skip := Max(Lcs(a[1..], b), Lcs(a, b[1..]));
      if a[0] == b[0] then Max(1 + Lcs(a[1..], b[1..]), skip) else skip
  }

  /** `200 l / n`, and 100 for two empty strings. */
  function Ratio(l: nat, n: nat): real {
    if n == 0 then 100.0 else 200.0 * (l as real) / (n as real)
  }

  /** `fuzz.ratio` as the normalised Indel similarity: a score in [0, 100] that
      is 100 on identical strings. */
  function IndelRatio(a: string, b: string): (r: real)
    ensures 0.0 <= r <= 100.0
    ensures a == b ==> r == 100.0
  {
    LcsRatioBounds(a, b);
    Ratio(Lcs(a, b), |a| + |b|)
  }

  /** `w` occurs in `s` as a (not necessarily contiguous) subsequence. */
  predicate IsSubsequence(w: string, s: string)
    decreases |s|
  {
    w == [] || (s != [] && if w[0] == s[0] then IsSubsequence(w[1..], s[1..]) else IsSubsequence(w, s[1..]))
  }

  lemma {:induction false} LcsAtMostShorter(a: string, b: string)
    ensures Lcs(a, b) <= |a| && Lcs(a, b) <= |b|
    decreases |a| + |b|
  {
    if a != [] && b != [] {
      LcsAtMostShorter(a[1..], b);
      LcsAtMostShorter(a, b[1..]);
      LcsAtMostShorter(a[1..], b[1..]);
    }
  }

  lemma {:induction false} LcsSelf(a: string)
    ensures Lcs(a, a) == |a|
  {
    if a != [] {
      LcsSelf(a[1..]);
      LcsAtMostShorter(a[1..], a);
      LcsAtMostShorter(a, a[1..]);
    }
  }

  lemma {:induction false} LcsSymmetric(a: string, b: string)
    ensures Lcs(a, b) == Lcs(b, a)
    decreases |a| + |b|
  {
    if a != [] && b != [] {
      LcsSymmetric(a[1..], b);
      LcsSymmetric(a, b[1..]);
      LcsSymmetric(a[1..], b[1..]);
    }
  }

  /** Any common subsequence bounds the LCS from below. */
  lemma {:induction false} LcsAtLeastCommon(w: string, a: string, b: string)
    requires IsSubsequence(w, a) && IsSubsequence(w, b)
    ensures Lcs(a, b) >= |w|
    decreases |a| + |b|
  {
    if w != [] {
      if w[0] != a[0] {
        LcsAtLeastCommon(w, a[1..], b);
      } else if w[0] != b[0] {
        LcsAtLeastCommon(w, a, b[1..]);
      } else {
        LcsAtLeastCommon(w[1..], a[1..], b[1..]);
      }
    }
  }

  lemma DivAtMost(x: real, n: real, t: real)
    requires n > 0.0 && x <= t * n
    ensures x / n <= t
  {
    var q := x / n;
    assert q * n == x;
    if q > t {
      assert q * n > t * n;
    }
  }

  /** `200 m <= t n`: a common length of `m` out of `n` characters cannot lift
      the ratio above `t`. */
  predicate RatioCap(m: nat, n: nat, t: real) {
    200.0 * (m as real) <= t * (n as real)
  }

  /** `200 l / n <= t` once `200 m <= t n` and `l <= m`. */
  lemma RatioAtMost(l: nat, m: nat, n: nat, t: real)
    requires n > 0 && l <= m
    requires RatioCap(m, n, t)
    ensures Ratio(l, n) <= t
  {
    var x := 200.0 * (l as real);
    assert x <= 200.0 * (m as real);
    DivAtMost(x, n as real, t);
  }

  lemma LcsRatioBounds(a: string, b: string)
    ensures 0.0 <= Ratio(Lcs(a, b), |a| + |b|) <= 100.0
    ensures a == b ==> Ratio(Lcs(a, b), |a| + |b|) == 100.0
  {
    LcsAtMostShorter(a, b);
    LcsSelf(a);
    if |a| + |b| > 0 {
      var m := if |a| <= |b| then |a| else |b|;
      RatioAtMost(Lcs(a, b), m, |a| + |b|, 100.0);
    }
    RatioNonNegative(Lcs(a, b), |a| + |b|);
    RatioSelf(|a|);
  }

  /** The Indel ratio does not depend on the order of its arguments. */
  lemma IndelRatioSymmetric(a: string, b: string)
    ensures IndelRatio(a, b) == IndelRatio(b, a)
  {
    LcsSymmetric(a, b);
  }

  lemma RatioSelf(k: nat)
    ensures Ratio(k, k + k) == 100.0
  {
  }

  lemma RatioNonNegative(l: nat, n: nat)
    ensures Ratio(l, n) >= 0.0
  {
  }

  /** Upper bound on the ratio from the length of `a`. */
  lemma IndelRatioBelow(a: string, b: string, t: real)
    requires |a| + |b| > 0
    requires RatioCap(|a|, |a| + |b|, t)
    ensures IndelRatio(a, b) <= t
  {
    LcsAtMostShorter(a, b);
    RatioAtMost(Lcs(a, b), |a|, |a| + |b|, t);
  }
}
