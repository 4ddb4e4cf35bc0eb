/** Worked examples from `tests/test_anonymizer.py`, with the scorer instantiated
    as the normalised Indel ratio. */
module Scenarios {
  import opened Seqs
  import opened Chars
  import opened Similarity
  import opened Normalize
  import opened Linkage
  import Variants

  // ---------------------------------------------------------------- helpers

  lemma TwoWords(a: string, b: string)
    requires a != [] && b != []
    requires forall i :: 0 <= i < |a| ==> !IsSpace(a[i])
    requires forall i :: 0 <= i < |b| ==> !IsSpace(b[i])
    ensures Words(a + " " + b) == [a, b]
  {
    WordsAtSpace(a, ' ', b);
    OneWord(a);
    OneWord(b);
  }

  lemma OneWord(a: string)
    requires a != []
    requires forall i :: 0 <= i < |a| ==> !IsSpace(a[i])
    ensures Words(a) == [a]
  {
    assert WordLength(a) == |a|;
    assert a[..|a|] == a;
    assert a[|a|..] == [];
  }

  /** A two-word name of letters, neither word denylisted, is valid. */
  lemma TwoWordName(a: string, b: string)
    requires |a| > 0 && |b| > 0
    requires forall i :: 0 <= i < |a| ==> IsAsciiLetter(a[i])
    requires forall i :: 0 <= i < |b| ==> IsAsciiLetter(b[i])
    requires Lower(a) !in Denylist && Lower(b) !in Denylist
    ensures IsValidName(a + " " + b)
  {
    var s := a + " " + b;
    assert s[0] == a[0] && s[|s| - 1] == b[|b| - 1];
    StripNoEdge(s);
    TwoWords(a, b);
    assert HasAlpha(a) by { assert a[0] in a; }
    assert HasAlpha(b) by { assert b[0] in b; }
    PairValid(s, a, b);
  }

  /** Stripping a string that neither starts nor ends with whitespace keeps it. */
  lemma StripNoEdge(s: string)
    requires s != [] && !IsSpace(s[0]) && !IsSpace(s[|s| - 1])
    ensures Strip(s) == s
  {
    assert StripLeading(s) == s;
  }

  /** A name whose stripped words are two non-denylisted words with letters. */
  lemma PairValid(s: string, a: string, b: string)
    requires Words(Strip(s)) == [a, b]
    requires HasAlpha(a) && HasAlpha(b) && !Denied(a) && !Denied(b)
    ensures IsValidName(s)
  {
  }

  /** Every denylisted word has at least four letters and only "code" has
      exactly four. */
  lemma NotDenied(w: string)
    requires |w| == 3 || (|w| == 4 && LowerChar(w[0]) != 'c')
    ensures Lower(w) !in Denylist
  {
    var l := Lower(w);
    assert |l| == |w|;
    if |w| == 4 {
      assert l[0] != "code"[0];
    }
  }

  /** On a name without hyphens, newlines or the folded letters, normalising is
      lower-casing. */
  lemma LowerNormal(s: string)
    requires forall i :: 0 <= i < |s| ==> IsAsciiLetter(s[i]) || s[i] == ' '
    ensures NormalizeName(s) == Lower(s)
  {
    var l := Lower(s);
    ReplaceAbsent(l, '\U{E5}', "aa");
    ReplaceAbsent(l, '\U{E6}', "ae");
    ReplaceAbsent(l, '\U{F8}', "oe");
    ReplaceAbsent(l, '-', "");
    ReplaceAbsent(l, '\n', " ");
  }

  lemma {:induction false} SubseqRefl(s: string)
    ensures IsSubsequence(s, s)
  {
    if s != [] {
      SubseqRefl(s[1..]);
    }
  }

  /** Dropping one character leaves a subsequence. */
  lemma {:induction false} SubseqInsert(a: string, c: char, b: string)
    ensures IsSubsequence(a + b, a + [c] + b)
  {
    var w, s := a + b, a + [c] + b;
    if a == [] {
      assert w == b && s == [c] + b;
      SubseqCons(c, b);
    } else {
      assert w[0] == s[0] == a[0];
      assert w[1..] == a[1..] + b && s[1..] == a[1..] + [c] + b;
      SubseqInsert(a[1..], c, b);
    }
  }

  lemma {:induction false} SubseqCons(c: char, s: string)
    ensures IsSubsequence(s, [c] + s)
  {
    var t := [c] + s;
    assert t[1..] == s;
    if s != [] {
      if s[0] == c {
        assert [s[0]] + s[1..] == s;
        SubseqCons(s[0], s[1..]);
      } else {
        SubseqRefl(s);
      }
    }
  }

  /** `200 m > t n`: a common length of `m` out of `n` characters lifts the
      ratio above `t`. */
  predicate RatioFloor(m: nat, n: nat, t: real) {
    200.0 * (m as real) > t * (n as real)
  }

  /** `200 l / n` lies above `t` once `l >= m` and `200 m > t n`. */
  lemma RatioAbove(l: nat, m: nat, n: nat, t: real)
    requires n > 0 && l >= m && RatioFloor(m, n, t)
    ensures Ratio(l, n) > t
  {
    var x, d := 200.0 * (l as real), n as real;
    assert x >= 200.0 * (m as real);
    var q := x / d;
    assert q * d == x;
    if q <= t {
      assert q * d <= t * d;
    }
  }

  /** A common subsequence long enough lifts the Indel ratio above `t`. */
  lemma CommonAbove(w: string, a: string, b: string, t: real)
    requires IsSubsequence(w, a) && IsSubsequence(w, b)
    requires |a| + |b| > 0 && RatioFloor(|w|, |a| + |b|, t)
    ensures IndelRatio(a, b) > t
  {
    LcsAtLeastCommon(w, a, b);
    RatioAbove(Lcs(a, b), |w|, |a| + |b|, t);
  }

  lemma {:induction false} SubseqPrefix(a: string, b: string)
    ensures IsSubsequence(a, a + b)
  {
    if a != [] {
      assert (a + b)[0] == a[0] && (a + b)[1..] == a[1..] + b;
      SubseqPrefix(a[1..], b);
    }
  }

  /** Seed linkage puts everything in the seed's group when the seed is similar
      to every later item. */
  lemma OneGroup<T>(items: seq<T>, sim: (T, T) -> bool)
    requires |items| > 0
    requires forall k :: 0 < k < |items| ==> sim(items[0], items[k])
    ensures Link(items, sim) == [items]
  {
    var rest := items[1..];
    FilterAll(rest, Near(sim, items[0]));
    FilterNone(rest, Far(sim, items[0]));
    assert [items[0]] + rest == items;
  }

  // ---------------------------------------------------------------- names

  /** A two-word name made of two letter-only words. */
  lemma ValidName(n: string, a: string, b: string)
    requires n == a + " " + b
    requires |a| > 0 && |b| > 0
    requires forall i :: 0 <= i < |a| ==> IsAsciiLetter(a[i])
    requires forall i :: 0 <= i < |b| ==> IsAsciiLetter(b[i])
    requires |a| == 3 || (|a| == 4 && LowerChar(a[0]) != 'c')
    requires |b| == 3 || (|b| == 4 && LowerChar(b[0]) != 'c')
    ensures IsValidName(n)
  {
    NotDenied(a);
    NotDenied(b);
    TwoWordName(a, b);
  }

  /** A word followed by a space and a word, all letters, normalises to the
      two words lower-cased. */
  lemma NormTwoWords(a: string, b: string)
    requires forall i :: 0 <= i < |a| ==> IsAsciiLetter(a[i])
    requires forall i :: 0 <= i < |b| ==> IsAsciiLetter(b[i])
    ensures NormalizeName(a + " " + b) == Lower(a) + " " + Lower(b)
  {
    SpacedLetters(a, b);
    LowerNormal(a + " " + b);
    LowerAppend(a + " ", b);
    LowerAppend(a, " ");
  }

  lemma SpacedLetters(a: string, b: string)
    requires forall i :: 0 <= i < |a| ==> IsAsciiLetter(a[i])
    requires forall i :: 0 <= i < |b| ==> IsAsciiLetter(b[i])
    ensures var n := a + " " + b; forall i :: 0 <= i < |n| ==> IsAsciiLetter(n[i]) || n[i] == ' '
  {
    var n := a + " " + b;
    forall i | 0 <= i < |n|
      ensures IsAsciiLetter(n[i]) || n[i] == ' '
    {
      if i > |a| {
        assert n[i] == b[i - |a| - 1];
      }
    }
  }

  /** Lower-casing works piece by piece. */
  lemma LowerAppend(x: string, y: string)
    ensures Lower(x + y) == Lower(x) + Lower(y)
  {
    var l, r := Lower(x + y), Lower(x) + Lower(y);
    assert |l| == |r|;
    forall i | 0 <= i < |l|
      ensures l[i] == r[i]
    {
      if i >= |x| {
        assert (x + y)[i] == y[i - |x|];
      }
    }
  }

  /** Lower-casing a word character by character. */
  lemma LowerWord(w: string, l: string)
    requires |w| == |l| && forall i :: 0 <= i < |w| ==> LowerChar(w[i]) == l[i]
    ensures Lower(w) == l
  {
  }

  /** The words of the three spellings, lower-cased. */
  lemma LowerSpellings()
    ensures Lower("John") == "john" && Lower("Jon") == "jon" && Lower("john") == "john"
    ensures Lower("Doe") == "doe" && Lower("DOE") == "doe"
  {
    LowerWord("John", "john");
    LowerWord("Jon", "jon");
    LowerWord("john", "john");
    LowerWord("Doe", "doe");
    LowerWord("DOE", "doe");
  }

  /** The three spellings are valid names. */
  lemma ValidJohnDoe(n: string)
    requires n == "John" + " " + "Doe" || n == "Jon" + " " + "Doe" || n == "john" + " " + "DOE"
    ensures IsValidName(n)
  {
    if n == "John" + " " + "Doe" {
      ValidName(n, "John", "Doe");
    } else if n == "Jon" + " " + "Doe" {
      ValidName(n, "Jon", "Doe");
    } else {
      ValidName(n, "john", "DOE");
    }
  }

  /** What `normalize_name` makes of the three spellings. */
  lemma NormJohnDoe(n: string)
    requires n == "John" + " " + "Doe"
    ensures NormalizeName(n) == "john" + " " + "doe"
  {
    NormTwoWords("John", "Doe");
    LowerSpellings();
  }

  lemma NormJonDoe(n: string)
    requires n == "Jon" + " " + "Doe"
    ensures NormalizeName(n) == "jon" + " " + "doe"
  {
    NormTwoWords("Jon", "Doe");
    LowerSpellings();
  }

  lemma NormJohnDOE(n: string)
    requires n == "john" + " " + "DOE"
    ensures NormalizeName(n) == "john" + " " + "doe"
  {
    NormTwoWords("john", "DOE");
    LowerSpellings();
  }

  /** "john doe" and "jon doe" share the subsequence "jon doe": a ratio of at
      least 1400/15. */
  lemma JohnJon(a: string, b: string)
    requires a == "john" + " " + "doe" && b == "jon" + " " + "doe"
    ensures IndelRatio(a, b) > Variants.NameThreshold
  {
    var t := "n" + " " + "doe";
    assert a == "jo" + ['h'] + t && b == "jo" + t;
    SubseqInsert("jo", 'h', t);
    SubseqRefl(b);
    CommonAbove(b, a, b, Variants.NameThreshold);
  }

  /** "john doe" is similar to "jon doe" and to itself. */
  lemma NamesSimilar(n0: string, n1: string, n2: string)
    requires NormalizeName(n0) == "john" + " " + "doe" && NormalizeName(n1) == "jon" + " " + "doe"
    requires NormalizeName(n2) == NormalizeName(n0)
    ensures var sim := Variants.Similar(NormalizeName, IndelRatio, Variants.NameThreshold);
      sim(n0, n1) && sim(n0, n2)
  {
    JohnJon(NormalizeName(n0), NormalizeName(n1));
    var k := NormalizeName(n0);
    assert IndelRatio(k, k) == 100.0;
  }

  /** Three items the first of which is similar to the other two form one
      group. */
  lemma LinkOfThree<T>(items: seq<T>, sim: (T, T) -> bool)
    requires |items| == 3 && sim(items[0], items[1]) && sim(items[0], items[2])
    ensures Link(items, sim) == [items]
  {
    forall k | 0 < k < |items|
      ensures sim(items[0], items[k])
    {
      assert k == 1 || k == 2;
    }
    OneGroup(items, sim);
  }

  /** Three items that all pass `keep`, the first similar to the other two,
      form one group. */
  lemma OneGroupOfThree<T>(items: seq<T>, keep: T -> bool, sim: (T, T) -> bool)
    requires |items| == 3 && keep(items[0]) && keep(items[1]) && keep(items[2])
    requires sim(items[0], items[1]) && sim(items[0], items[2])
    ensures Link(Filter(items, keep), sim) == [items]
  {
    forall x | x in items
      ensures keep(x)
    {
      var k :| 0 <= k < 3 && items[k] == x;
      assert k == 0 || k == 1 || k == 2;
    }
    FilterAll(items, keep);
    LinkOfThree(items, sim);
  }

  /** The three spellings of the name test form a single group seeded by the
      first. The names are spelled as first name, space, last name. */
  lemma NameVariantsScenario(names: seq<string>)
    requires |names| == 3
    requires names[0] == "John" + " " + "Doe" && names[1] == "Jon" + " " + "Doe" && names[2] == "john" + " " + "DOE"
    ensures Variants.NameGroups(names, IndelRatio, Variants.NameThreshold) == [names]
  {
    ValidJohnDoe(names[0]);
    ValidJohnDoe(names[1]);
    ValidJohnDoe(names[2]);
    NormJohnDoe(names[0]);
    NormJonDoe(names[1]);
    NormJohnDOE(names[2]);
    NamesSimilar(names[0], names[1], names[2]);
    OneGroupOfThree(names, IsValidName, Variants.Similar(NormalizeName, IndelRatio, Variants.NameThreshold));
  }

  // ---------------------------------------------------------------- numbers

  /** Numbers without spaces or hyphens normalise to themselves. */
  lemma NormPlain(n: string)
    requires n == "1234567" + "890" || n == "1234567"
    ensures NormalizeNumber(n) == n
  {
    assert Kept(n);
    KeptFiltered(n);
  }

  /** "1234567890" against "1234567": 7 common characters out of 17. */
  lemma SevenOfSeventeen(a: string, b: string)
    requires a == b + "890" && b == "1234567"
    ensures IndelRatio(a, b) > Variants.NumberThreshold
  {
    SubseqPrefix(b, "890");
    SubseqRefl(b);
    CommonAbove(b, a, b, Variants.NumberThreshold);
  }

  /** "1234567890" against "12345678": 8 common characters out of 18. */
  lemma EightOfEighteen(a: string, c: string)
    requires a == c + "90" && c == "1234567" + "8"
    ensures IndelRatio(a, c) > Variants.NumberThreshold
  {
    SubseqPrefix(c, "90");
    SubseqRefl(c);
    CommonAbove(c, a, c, Variants.NumberThreshold);
  }

  /** The seed "1234567890" is similar to both other numbers. */
  lemma NumbersSimilar(n0: string, n1: string, n2: string)
    requires NormalizeNumber(n0) == "1234567" + "890" && NormalizeNumber(n1) == "1234567"
    requires NormalizeNumber(n2) == "12345678"
    ensures var sim := Variants.Similar(NormalizeNumber, IndelRatio, Variants.NumberThreshold);
      sim(n0, n1) && sim(n0, n2)
  {
    var a, b, c := NormalizeNumber(n0), NormalizeNumber(n1), NormalizeNumber(n2);
    assert a == b + "890" && c == "1234567" + "8" && a == c + "90";
    SevenOfSeventeen(a, b);
    EightOfEighteen(a, c);
  }

  /** Under the Indel ratio the three numbers of the number test form one group
      at the threshold of 80: "1234567" keeps 7 of 17 characters in common with
      the seed (ratio 1400/17, about 82.4) and "12 34 56 78" normalises to
      "12345678" (ratio 1600/18). The numbers are spelled in the blocks the
      argument uses. */
  lemma NumberVariantsScenario(numbers: seq<string>)
    requires |numbers| == 3
    requires numbers[0] == "1234567" + "890" && numbers[1] == "1234567"
    requires numbers[2] == "12" + " " + "34" + " " + "56" + " " + "78"
    ensures Variants.NumberGroups(numbers, IndelRatio, Variants.NumberThreshold) == [numbers]
  {
    NormPlain(numbers[0]);
    NormPlain(numbers[1]);
    SpacedDigits(numbers[2]);
    NumbersSimilar(numbers[0], numbers[1], numbers[2]);
    LinkOfThree(numbers, Variants.Similar(NormalizeNumber, IndelRatio, Variants.NumberThreshold));
  }

  /** No character of `s` is a space or a hyphen. */
  predicate Kept(s: string) {
    forall i :: 0 <= i < |s| ==> KeptInNumber(s[i])
  }

  /** A space between two strings disappears under the number filter. */
  lemma {:induction false} DropSpace(x: string, y: string)
    ensures Filter(x + [' '] + y, KeptInNumber) == Filter(x, KeptInNumber) + Filter(y, KeptInNumber)
  {
    var s := x + [' '] + y;
    if x == [] {
      assert s[0] == ' ' && s[1..] == y;
    } else {
      assert s[0] == x[0] && s[1..] == x[1..] + [' '] + y;
      DropSpace(x[1..], y);
    }
  }

  /** Normalising four blocks of kept characters separated by single spaces
      joins the blocks. */
  lemma SpacedBlocks(p1: string, p2: string, p3: string, p4: string)
    requires Kept(p1) && Kept(p2) && Kept(p3) && Kept(p4)
    ensures NormalizeNumber(p1 + [' '] + p2 + [' '] + p3 + [' '] + p4) == p1 + p2 + p3 + p4
  {
    var s2 := p1 + [' '] + p2;
    var s3 := s2 + [' '] + p3;
    DropSpace(p1, p2);
    DropSpace(s2, p3);
    DropSpace(s3, p4);
    KeptFiltered(p1);
    KeptFiltered(p2);
    KeptFiltered(p3);
    KeptFiltered(p4);
  }

  lemma KeptFiltered(s: string)
    requires Kept(s)
    ensures Filter(s, KeptInNumber) == s
  {
    FilterAll(s, KeptInNumber);
  }

  /** "12 34 56 78" normalises to "12345678". */
  lemma SpacedDigits(s: string)
    requires s == "12" + " " + "34" + " " + "56" + " " + "78"
    ensures NormalizeNumber(s) == "12345678"
  {
    var p1, p2, p3, p4 := "12", "34", "56", "78";
    assert Kept(p1) && Kept(p2) && Kept(p3) && Kept(p4);
    SpacedBlocks(p1, p2, p3, p4);
  }
}
