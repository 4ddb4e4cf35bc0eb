/** Python's character predicates and the string operations the core uses, on
    Latin-1 (code points 0 to 255): there `lower`, `isalpha`, `isdigit` and
    `isspace` are reproduced exactly; outside it they are approximated (see README). */
module Chars {
  import opened Seqs

  /** `str.isdigit` on Latin-1: ASCII digits and the superscripts one, two, three. */
  predicate IsDigit(c: char) {
    '0' <= c <= '9' || c == '\U{B2}' || c == '\U{B3}' || c == '\U{B9}'
  }

  /** The regular-expression class `\d` on Latin-1: ASCII digits only. */
  predicate IsDecimal(c: char) {
    '0' <= c <= '9'
  }

  predicate IsAsciiLetter(c: char) {
    'a' <= c <= 'z' || 'A' <= c <= 'Z'
  }

  /** `str.isalpha` on Latin-1. */
  predicate IsAlpha(c: char) {
    || IsAsciiLetter(c)
    || c == '\U{AA}' || c == '\U{B5}' || c == '\U{BA}'
    || ('\U{C0}' <= c <= '\U{FF}' && c != '\U{D7}' && c != '\U{F7}')
  }

  /** The whitespace `str.split()` and `str.strip()` use, on Latin-1. */
  predicate IsSpace(c: char) {
    || c == ' '
    || ('\t' <= c <= '\r')
    || ('\U{1C}' <= c <= '\U{1F}')
    || c == '\U{85}' || c == '\U{A0}'
  }

  /** Upper-case letters of Latin-1: `A`..`Z` and `À`..`Þ` except `×`. */
  predicate IsUpper(c: char) {
    'A' <= c <= 'Z' || ('\U{C0}' <= c <= '\U{DE}' && c != '\U{D7}')
  }

  /** `str.lower` on one character. */
  function LowerChar(c: char): (r: char)
    ensures !IsUpper(r)
    ensures !IsUpper(c) ==> r == c
    ensures IsUpper(c) ==> r as int == c as int + 32
  {
    if IsUpper(c) then (c as int + 32) as char else c
  }

  /** Lower-casing neither makes nor unmakes whitespace. */
  lemma LowerKeepsSpace(c: char)
    ensures IsSpace(LowerChar(c)) == IsSpace(c)
  {
  }

  function Lower(s: string): (r: string)
    ensures |r| == |s|
    ensures forall i :: 0 <= i < |s| ==> r[i] == LowerChar(s[i])
  {
    Map(s, LowerChar)
  }

  /** `s.replace(c, t)` for a single character `c`. */
  function Replace(s: string, c: char, t: string): (r: string)
    ensures c !in t ==> c !in r
    ensures forall d :: d in r ==> d in s || d in t
    ensures forall d :: d in s && d != c ==> d in r
  {
    if s == [] then []
    else (if s[0] == c then t else [s[0]]) + Replace(s[1..], c, t)
  }

  /** `s` holds no upper-case letter and nothing from `bad`. */
  predicate Avoids(s: string, bad: set<char>) {
    forall d :: d in s ==> !IsUpper(d) && d !in bad
  }

  /** Replacing a character that does not occur changes nothing. */
  lemma {:induction false} ReplaceAbsent(s: string, c: char, t: string)
    requires c !in s
    ensures Replace(s, c, t) == s
  {
    if s != [] {
      ReplaceAbsent(s[1..], c, t);
    }
  }

  /** Deleting a character keeps every other character, in order. */
  lemma {:induction false} ReplaceByNothing(s: string, c: char, keep: char -> bool)
    requires forall d :: keep(d) == (d != c)
    ensures Replace(s, c, "") == Filter(s, keep)
  {
    if s != [] {
      ReplaceByNothing(s[1..], c, keep);
    }
  }

  /** The number of characters of `s` that satisfy `str.isdigit`. */
  function DigitCount(s: string): (n: nat)
    ensures n <= |s|
  {
    if s == [] then 0 else (if IsDigit(s[0]) then 1 else 0) + DigitCount(s[1..])
  }

  lemma {:induction false} DigitCountAppend(a: string, b: string)
    ensures DigitCount(a + b) == DigitCount(a) + DigitCount(b)
  {
    if a == [] {
      assert a + b == b;
    } else {
      assert (a + b)[0] == a[0];
      assert (a + b)[1..] == a[1..] + b;
      DigitCountAppend(a[1..], b);
    }
  }

  /** A string without digits has none to count. */
  lemma {:induction false} DigitCountNone(s: string)
    requires forall i :: 0 <= i < |s| ==> !IsDigit(s[i])
    ensures DigitCount(s) == 0
  {
    if s != [] {
      DigitCountNone(s[1..]);
    }
  }

  /** Counting digits over a slice splits at any point inside it. */
  lemma DigitCountSplit(s: string, lo: nat, mid: nat, hi: nat)
    requires lo <= mid <= hi <= |s|
    ensures DigitCount(s[lo..hi]) == DigitCount(s[lo..mid]) + DigitCount(s[mid..hi])
  {
    assert s[lo..hi] == s[lo..mid] + s[mid..hi];
    DigitCountAppend(s[lo..mid], s[mid..hi]);
  }

  /** A slice without digits has none to count. */
  lemma DigitCountNoneIn(s: string, lo: nat, hi: nat)
    requires lo <= hi <= |s|
    requires forall x :: lo <= x < hi ==> !IsDigit(s[x])
    ensures DigitCount(s[lo..hi]) == 0
  {
    var t := s[lo..hi];
    assert forall i :: 0 <= i < |t| ==> t[i] == s[lo + i];
    DigitCountNone(t);
  }

  /** A slice inside another slice has at most as many digits. */
  lemma DigitCountMono(s: string, lo: nat, a: nat, b: nat, hi: nat)
    requires lo <= a <= b <= hi <= |s|
    ensures DigitCount(s[a..b]) <= DigitCount(s[lo..hi])
  {
    assert s[lo..hi] == s[lo..a] + s[a..b] + s[b..hi];
    DigitCountAppend(s[lo..a] + s[a..b], s[b..hi]);
    DigitCountAppend(s[lo..a], s[a..b]);
  }

  /** The length of the run of non-whitespace characters that `s` starts with. */
  function WordLength(s: string): (n: nat)
    ensures n <= |s|
    ensures forall i :: 0 <= i < n ==> !IsSpace(s[i])
    ensures n < |s| ==> IsSpace(s[n])
  {
    if s == [] || IsSpace(s[0]) then 0 else 1 + WordLength(s[1..])
  }

  /** A non-empty run of non-whitespace characters. */
  predicate IsWord(w: string) {
    |w| > 0 && forall i :: 0 <= i < |w| ==> !IsSpace(w[i])
  }

  /** `s.split()`: the maximal runs of non-whitespace characters, in order. */
  function Words(s: string): (ws: seq<string>)
    ensures forall w :: w in ws ==> IsWord(w)
    decreases |s|
  {
    if s == [] then []
    else if IsSpace(s[0]) then Words(s[1..])
    else
      var n := WordLength(s);
      [s[..n]] + Words(s[n..])
  }

  /** Splitting loses exactly the whitespace: the words concatenate to the
      non-whitespace characters of `s`. */
  lemma {:induction false} WordsKeepNonSpace(s: string)
    ensures Flatten(Words(s)) == Filter(s, c => !IsSpace(c))
    decreases |s|
  {
    if s != [] {
      if IsSpace(s[0]) {
        WordsKeepNonSpace(s[1..]);
      } else {
        var n := WordLength(s);
        WordsKeepNonSpace(s[n..]);
        assert s == s[..n] + s[n..];
        FilterAppend(s[..n], s[n..], c => !IsSpace(c));
        FilterAll(s[..n], c => !IsSpace(c));
      }
    }
  }

  /** Whitespace separates words: splitting `a + [c] + b` at a whitespace `c`
      splits `a` and `b` separately. */
  lemma WordsAtSpace(a: string, c: char, b: string)
    requires IsSpace(c)
    ensures Words(a + [c] + b) == Words(a) + Words(b)
  {
    assert a + [c] + b == a + ([c] + b);
    WordsAppend(a, [c] + b);
    WordsSpaceHead(c, b);
  }

  /** Splitting `a + t` where `t` starts at whitespace splits `a` and `t`
      separately. */
  lemma {:induction false} WordsAppend(a: string, t: string)
    requires t == [] || IsSpace(t[0])
    ensures Words(a + t) == Words(a) + Words(t)
    decreases |a|, 1
  {
    if a == [] {
      assert a + t == t && Words(a) == [];
    } else if IsSpace(a[0]) {
      WordsAppendSpace(a, t);
    } else {
      WordsAppendWord(a, t);
    }
  }

  lemma {:induction false} WordsAppendSpace(a: string, t: string)
    requires t == [] || IsSpace(t[0])
    requires a != [] && IsSpace(a[0])
    ensures Words(a + t) == Words(a) + Words(t)
    decreases |a|, 0
  {
    var x, r := a[0], a[1..];
    assert a == [x] + r && a + t == [x] + (r + t);
    WordsSpaceHead(x, r);
    WordsSpaceHead(x, r + t);
    WordsAppend(r, t);
  }

  lemma {:induction false} WordsAppendWord(a: string, t: string)
    requires t == [] || IsSpace(t[0])
    requires a != [] && !IsSpace(a[0])
    ensures Words(a + t) == Words(a) + Words(t)
    decreases |a|, 0
  {
    var n := WordLength(a);
    var w, rest := a[..n], a[n..];
    assert a == w + rest && a + t == w + (rest + t);
    assert rest != [] ==> rest[0] == a[n];
    assert rest + t == [] || IsSpace((rest + t)[0]);
    WordsLead(w, rest);
    WordsLead(w, rest + t);
    WordsAppend(rest, t);
    AppendAssoc([w], Words(rest), Words(t));
  }

  /** Leading whitespace produces no word. */
  lemma WordsSpaceHead(x: char, t: string)
    requires IsSpace(x)
    ensures Words([x] + t) == Words(t)
  {
    assert ([x] + t)[1..] == t;
  }

  /** A word followed by whitespace or nothing is split off whole. */
  lemma WordsLead(w: string, t: string)
    requires IsWord(w)
    requires t == [] || IsSpace(t[0])
    ensures Words(w + t) == [w] + Words(t)
  {
    WordLengthOf(w, t);
    assert (w + t)[..|w|] == w && (w + t)[|w|..] == t;
  }

  lemma {:induction false} WordLengthOf(w: string, t: string)
    requires forall i :: 0 <= i < |w| ==> !IsSpace(w[i])
    requires t == [] || IsSpace(t[0])
    ensures WordLength(w + t) == |w|
  {
    if w == [] {
      assert w + t == t;
    } else {
      assert (w + t)[0] == w[0];
      assert (w + t)[1..] == w[1..] + t;
      WordLengthOf(w[1..], t);
    }
  }

  lemma {:induction false} WordLengthExtend(a: string, t: string)
    requires t != [] && IsSpace(t[0])
    ensures WordLength(a + t) == WordLength(a)
  {
    if a == [] {
      assert a + t == t;
    } else {
      assert (a + t)[0] == a[0];
      if !IsSpace(a[0]) {
        assert (a + t)[1..] == a[1..] + t;
        WordLengthExtend(a[1..], t);
      }
    }
  }
}
