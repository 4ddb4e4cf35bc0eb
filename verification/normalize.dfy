/** Name and number normalisation and the name-shape filter of `src/did/utils.py`
    (lines 8-35). `src/did/anonymizer.py` (lines 53-75) carries character-for-character
    copies of the same three functions as methods; the model defines them once. */
module Normalize {
  import opened Seqs
  import opened Chars

  /** The words that disqualify a candidate name, compared after lower-casing. */
  const Denylist: seq<string> := ["multiline", "phone", "account", "code", "street"]

  /** `normalize_name`: lower-case, fold å/æ/ø to aa/ae/oe, drop hyphens, and turn
      each newline into a space. The chain of `str.replace` calls acts on each
      character independently, so the order of the calls does not matter, and
      nothing it folds away is left. */
  function NormalizeName(name: string): (r: string)
    ensures r == NameFoldAll(name)
    ensures Avoids(r, Folded)
  {
    ChainIsCharFold(name);
    NameFoldAllAvoids(name);
    ReplaceChain(name)
  }

  /** The calls of `normalize_name` in the order it makes them. */
  function ReplaceChain(name: string): string {
    var lowered := Lower(name);
    var s1 := Replace(lowered, '\U{E5}', "aa");
    var s2 := Replace(s1, '\U{E6}', "ae");
    var s3 := Replace(s2, '\U{F8}', "oe");
    var s4 := Replace(s3, '-', "");
    Replace(s4, '\n', " ")
  }

  /** The characters `normalize_name` folds away. */
  const Folded: set<char> := {'\U{E5}', '\U{E6}', '\U{F8}', '-', '\n'}

  /** What `normalize_name` makes of one character, decided on that character alone. */
  function NameFold(c: char): string {
    var l := LowerChar(c);
    if l == '\U{E5}' then "aa"
    else if l == '\U{E6}' then "ae"
    else if l == '\U{F8}' then "oe"
    else if l == '-' then ""
    else if l == '\n' then " "
    else [l]
  }

  function NameFoldAll(s: string): string {
    if s == [] then [] else NameFold(s[0]) + NameFoldAll(s[1..])
  }

  lemma {:induction false} ReplaceAppend(a: string, b: string, c: char, t: string)
    ensures Replace(a + b, c, t) == Replace(a, c, t) + Replace(b, c, t)
  {
    if a == [] {
      assert a + b == b;
    } else {
      assert (a + b)[0] == a[0];
      assert (a + b)[1..] == a[1..] + b;
      ReplaceAppend(a[1..], b, c, t);
    }
  }

  lemma ChainAppend(a: string, b: string)
    ensures ReplaceChain(a + b) == ReplaceChain(a) + ReplaceChain(b)
  {
    assert Lower(a + b) == Lower(a) + Lower(b);
    var r1a := Replace(Lower(a), '\U{E5}', "aa");
    var r1b := Replace(Lower(b), '\U{E5}', "aa");
    ReplaceAppend(Lower(a), Lower(b), '\U{E5}', "aa");
    var r2a := Replace(r1a, '\U{E6}', "ae");
    var r2b := Replace(r1b, '\U{E6}', "ae");
    ReplaceAppend(r1a, r1b, '\U{E6}', "ae");
    var r3a := Replace(r2a, '\U{F8}', "oe");
    var r3b := Replace(r2b, '\U{F8}', "oe");
    ReplaceAppend(r2a, r2b, '\U{F8}', "oe");
    var r4a := Replace(r3a, '-', "");
    var r4b := Replace(r3b, '-', "");
    ReplaceAppend(r3a, r3b, '-', "");
    ReplaceAppend(r4a, r4b, '\n', " ");
  }

  lemma ChainChar(c: char)
    ensures ReplaceChain([c]) == NameFold(c)
  {
    var l := LowerChar(c);
    assert Lower([c]) == [l];
    ReplaceSingle(l, '\U{E5}', "aa");
    ReplaceAbsent("aa", '\U{E6}', "ae");
    ReplaceAbsent("aa", '\U{F8}', "oe");
    ReplaceAbsent("aa", '-', "");
    ReplaceAbsent("aa", '\n', " ");
    ReplaceAbsent("ae", '\U{F8}', "oe");
    ReplaceAbsent("ae", '-', "");
    ReplaceAbsent("ae", '\n', " ");
    ReplaceAbsent("oe", '-', "");
    ReplaceAbsent("oe", '\n', " ");
    ReplaceAbsent(" ", '\n', " ");
    ReplaceAbsent("", '\n', " ");
    if l == '\U{E5}' {
    } else {
      ReplaceSingle(l, '\U{E6}', "ae");
      if l != '\U{E6}' {
        ReplaceSingle(l, '\U{F8}', "oe");
        if l != '\U{F8}' {
          ReplaceSingle(l, '-', "");
          if l != '-' {
            ReplaceSingle(l, '\n', " ");
          }
        }
      }
    }
  }

  lemma ReplaceSingle(d: char, c: char, t: string)
    ensures Replace([d], c, t) == if d == c then t else [d]
  {
    assert [d][1..] == [];
  }

  lemma {:induction false} ChainIsCharFold(s: string)
    ensures ReplaceChain(s) == NameFoldAll(s)
  {
    if s != [] {
      assert s == [s[0]] + s[1..];
      ChainAppend([s[0]], s[1..]);
      ChainChar(s[0]);
      ChainIsCharFold(s[1..]);
    }
  }

  lemma NameFoldAvoids(c: char)
    ensures Avoids(NameFold(c), Folded)
  {
  }

  lemma {:induction false} NameFoldAllAvoids(s: string)
    ensures Avoids(NameFoldAll(s), Folded)
  {
    if s != [] {
      NameFoldAvoids(s[0]);
      NameFoldAllAvoids(s[1..]);
    }
  }

  /** Name normalisation distributes over concatenation. */
  lemma NormalizeNameAppend(a: string, b: string)
    ensures NormalizeName(a + b) == NormalizeName(a) + NormalizeName(b)
  {
    ChainAppend(a, b);
  }

  lemma LowerFixed(s: string)
    requires forall c :: c in s ==> !IsUpper(c)
    ensures Lower(s) == s
  {
  }

  /** `normalize_name` is idempotent. */
  lemma NormalizeNameIdempotent(s: string)
    ensures NormalizeName(NormalizeName(s)) == NormalizeName(s)
  {
    var r := NormalizeName(s);
    LowerFixed(r);
    ReplaceAbsent(r, '\U{E5}', "aa");
    ReplaceAbsent(r, '\U{E6}', "ae");
    ReplaceAbsent(r, '\U{F8}', "oe");
    ReplaceAbsent(r, '-', "");
    ReplaceAbsent(r, '\n', " ");
  }

  /** `normalize_number`: delete spaces, then hyphens. The result keeps every other
      character, in order. */
  function NormalizeNumber(number: string): (r: string)
    ensures r == Filter(number, KeptInNumber)
  {
    var noSpaces := Replace(number, ' ', "");
    ReplaceByNothing(number, ' ', c => c != ' ');
    ReplaceByNothing(noSpaces, '-', c => c != '-');
    FilterFilter(number, c => c != ' ', c => c != '-', KeptInNumber);
    Replace(noSpaces, '-', "")
  }

  /** The characters `normalize_number` keeps. */
  predicate KeptInNumber(c: char) {
    c != ' ' && c != '-'
  }

  /** `normalize_number` is idempotent. */
  lemma NormalizeNumberIdempotent(s: string)
    ensures NormalizeNumber(NormalizeNumber(s)) == NormalizeNumber(s)
  {
    var r := NormalizeNumber(s);
    FilterAll(r, KeptInNumber);
  }

  // ---------------------------------------------------------------- is_valid_name

  /** `str.strip()`: drop leading and trailing whitespace. */
  function Strip(s: string): string {
    StripTrailing(StripLeading(s))
  }

  function StripLeading(s: string): string {
    if s != [] && IsSpace(s[0]) then StripLeading(s[1..]) else s
  }

  function StripTrailing(s: string): string {
    if s != [] && IsSpace(s[|s| - 1]) then StripTrailing(s[..|s| - 1]) else s
  }

  predicate HasAlpha(word: string) {
    exists c :: c in word && IsAlpha(c)
  }

  predicate Denied(word: string) {
    Lower(word) in Denylist
  }

  /** One to three words, each containing a letter, none of them a denylisted
      word in any case. */
  predicate GoodWords(words: seq<string>) {
    && 1 <= |words| <= 3
    && (forall w :: w in words ==> HasAlpha(w))
    && !(exists w :: w in words && Denied(w))
  }

  /** `is_valid_name`: the words of the stripped name are good. The strip is
      redundant: the name is valid exactly when `split()` alone yields good words. */
  function IsValidName(name: string): (b: bool)
    ensures b <==> GoodWords(Words(name))
  {
    StripBeforeSplitIsRedundant(name);
    GoodWords(Words(Strip(name)))
  }

  lemma {:induction false} WordsAllSpace(s: string)
    requires forall i :: 0 <= i < |s| ==> IsSpace(s[i])
    ensures Words(s) == []
  {
    if s != [] {
      WordsAllSpace(s[1..]);
    }
  }

  lemma {:induction false} WordsStripLeading(s: string)
    ensures Words(StripLeading(s)) == Words(s)
  {
    if s != [] && IsSpace(s[0]) {
      WordsStripLeading(s[1..]);
    }
  }

  lemma {:induction false} WordsStripTrailing(s: string)
    ensures Words(StripTrailing(s)) == Words(s)
  {
    if s != [] && IsSpace(s[|s| - 1]) {
      var a, c := s[..|s| - 1], s[|s| - 1];
      assert StripTrailing(s) == StripTrailing(a);
      WordsStripTrailing(a);
      assert s == a + [c] + [];
      WordsAtSpace(a, c, []);
      assert Words([]) == [];
      assert Words(s) == Words(a) + [];
    }
  }

  /** The `strip()` before `split()` changes nothing: splitting already ignores
      whitespace at both ends. */
  lemma StripBeforeSplitIsRedundant(s: string)
    ensures Words(Strip(s)) == Words(s)
  {
    WordsStripLeading(s);
    WordsStripTrailing(StripLeading(s));
  }

  lemma {:induction false} WordLengthLower(s: string)
    ensures WordLength(Lower(s)) == WordLength(s)
  {
    if s != [] {
      assert Lower(s)[1..] == Lower(s[1..]);
      WordLengthLower(s[1..]);
    }
  }

  /** Lower-casing a text lower-cases each of its words and keeps the split. */
  lemma {:induction false} WordsLower(s: string)
    ensures Words(Lower(s)) == Map(Words(s), Lower)
    decreases |s|
  {
    if s == [] {
      assert Lower(s) == [];
    } else {
      var l := Lower(s);
      LowerKeepsSpace(s[0]);
      if IsSpace(s[0]) {
        assert l[1..] == Lower(s[1..]);
        WordsLower(s[1..]);
      } else {
        var n := WordLength(s);
        WordLengthLower(s);
        assert Words(l) == [l[..n]] + Words(l[n..]);
        assert l[..n] == Lower(s[..n]);
        assert l[n..] == Lower(s[n..]);
        WordsLower(s[n..]);
        MapAppend([s[..n]], Words(s[n..]), Lower);
        calc {
          Words(l);
          [l[..n]] + Words(l[n..]);
          [Lower(s[..n])] + Map(Words(s[n..]), Lower);
          { assert Map([s[..n]], Lower) == [Lower(s[..n])]; }
          Map([s[..n]], Lower) + Map(Words(s[n..]), Lower);
          Map([s[..n]] + Words(s[n..]), Lower);
          { assert Words(s) == [s[..n]] + Words(s[n..]); }
          Map(Words(s), Lower);
        }
      }
    }
  }

  lemma StripLower(s: string)
    ensures Words(Strip(Lower(s))) == Map(Words(Strip(s)), Lower)
  {
    StripBeforeSplitIsRedundant(s);
    StripBeforeSplitIsRedundant(Lower(s));
    WordsLower(s);
  }

  lemma LowerIdempotent(s: string)
    ensures Lower(Lower(s)) == Lower(s)
  {
  }

  lemma HasAlphaLower(w: string)
    ensures HasAlpha(Lower(w)) == HasAlpha(w)
  {
    if HasAlpha(w) {
      var c :| c in w && IsAlpha(c);
      var i :| 0 <= i < |w| && w[i] == c;
      assert Lower(w)[i] in Lower(w);
    }
    if HasAlpha(Lower(w)) {
      var c :| c in Lower(w) && IsAlpha(c);
      var i :| 0 <= i < |w| && Lower(w)[i] == c;
      assert w[i] in w;
    }
  }

  /** `is_valid_name` does not depend on letter case. */
  lemma {:induction false} IsValidNameIgnoresCase(s: string)
    ensures IsValidName(Lower(s)) == IsValidName(s)
  {
    StripLower(s);
    var ws := Words(Strip(s));
    forall w | w in ws
      ensures HasAlpha(Lower(w)) == HasAlpha(w) && Denied(Lower(w)) == Denied(w)
    {
      HasAlphaLower(w);
      LowerIdempotent(w);
    }
    MapPreservesAll(ws, Lower, HasAlpha, HasAlpha);
    MapPreservesAll(ws, Lower, w => !Denied(w), w => !Denied(w));
  }
}
