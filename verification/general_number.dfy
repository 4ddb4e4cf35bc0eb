/** `GeneralNumberRecognizer.analyze` (`src/did/core/general_number_detector.py`):
    every match of `[+(\d][\d\.\-,/()+ ]*(?:[.,+ ][a-zA-Z]{1,3})?`, scanned left to
    right as `re.finditer` does, that holds at least two digits is a `NUMBER`. */
module GeneralNumber {
  import opened Chars
  import opened DigitDensity

  /** The first character class of the pattern: `[+(\d]`. */
  predicate IsLead(c: char) {
    c == '+' || c == '(' || IsDecimal(c)
  }

  /** The repeated class: `[\d\.\-,/()+ ]`. */
  predicate IsBody(c: char) {
    IsDecimal(c) || c == '.' || c == '-' || c == ',' || c == '/' || c == '(' || c == ')' || c == '+' || c == ' '
  }

  /** The first class of the optional suffix group: `[.,+ ]`. */
  predicate IsSuffixLead(c: char) {
    c == '.' || c == ',' || c == '+' || c == ' '
  }

  /** Every character of `text[a..b]` belongs to the repeated class. */
  ghost predicate AllBody(text: string, a: int, b: int) {
    0 <= a && b <= |text| && forall y :: a <= y < b ==> IsBody(text[y])
  }

  /** Where the greedy `[...]*` starting at `j` stops. */
  function RunEnd(text: string, j: nat): (e: nat)
    requires j <= |text|
    ensures j <= e <= |text|
    ensures forall y :: j <= y < e ==> IsBody(text[y])
    ensures e < |text| ==> !IsBody(text[e])
    decreases |text| - j
  {
    if j < |text| && IsBody(text[j]) then RunEnd(text, j + 1) else j
  }

  /** The optional suffix can never take part in a match: the star has already
      consumed every character the suffix could start with, and the group
      matching nothing lets the match succeed without backtracking. */
  lemma SuffixDead(text: string, j: nat)
    requires j <= |text|
    ensures var e := RunEnd(text, j); e == |text| || !IsSuffixLead(text[e])
  {
  }

  /** The matches `re.finditer` yields from position `i` on: a lead character
      followed by the longest run of the repeated class; the scan resumes where
      the match ends. */
  function Matches(text: string, i: nat): (ms: seq<Span>)
    requires i <= |text|
    ensures forall k :: 0 <= k < |ms| ==>
      i <= ms[k].start < ms[k].end <= |text| && IsLead(text[ms[k].start])
    ensures forall k :: 0 <= k < |ms| - 1 ==> ms[k].end <= ms[k + 1].start
    decreases |text| - i
  {
    if i == |text| then []
    else if IsLead(text[i]) then
      var e := RunEnd(text, i + 1);
      [Span(i, e)] + Matches(text, e)
    else Matches(text, i + 1)
  }

  /** Every span ends where the repeated class starting after its first
      character does. */
  predicate Maximal(text: string, ms: seq<Span>) {
    forall k :: 0 <= k < |ms| ==> ms[k].start < |text| && ms[k].end == RunEnd(text, ms[k].start + 1)
  }

  /** Each match ends where the repeated class does. */
  lemma {:induction false} MatchesMaximal(text: string, i: nat)
    requires i <= |text|
    ensures Maximal(text, Matches(text, i))
    decreases |text| - i
  {
    if i < |text| {
      if IsLead(text[i]) {
        var e := RunEnd(text, i + 1);
        MatchesMaximal(text, e);
        var ms, rest := Matches(text, i), Matches(text, e);
        assert ms == [Span(i, e)] + rest;
        forall k | 0 <= k < |ms|
          ensures ms[k].start < |text| && ms[k].end == RunEnd(text, ms[k].start + 1)
        {
          if k > 0 {
            assert ms[k] == rest[k - 1];
          }
        }
      } else {
        MatchesMaximal(text, i + 1);
        assert Matches(text, i) == Matches(text, i + 1);
      }
    }
  }

  /** Position `x` lies in one of the spans. */
  ghost predicate InSpans(ms: seq<Span>, x: int) {
    exists k :: 0 <= k < |ms| && ms[k].start <= x < ms[k].end
  }

  /** Position `x` is reachable from a lead character at or after `i` through
      characters of the repeated class. */
  ghost predicate Reachable(text: string, i: nat, x: nat) {
    exists j :: i <= j <= x && x < |text| && IsLead(text[j]) && AllBody(text, j + 1, x + 1)
  }

  /** The matches cover exactly the positions a lead character reaches through
      the repeated class: an independent description of what the regex
      matches in the text. */
  lemma {:induction false} MatchesCover(text: string, i: nat, x: nat)
    requires i <= x < |text|
    ensures InSpans(Matches(text, i), x) <==> Reachable(text, i, x)
    decreases |text| - i
  {
    var ms := Matches(text, i);
    if IsLead(text[i]) {
      var e := RunEnd(text, i + 1);
      var rest := Matches(text, e);
      assert ms == [Span(i, e)] + rest;
      if x < e {
        assert ms[0].start <= x < ms[0].end;
        assert AllBody(text, i + 1, x + 1);
      } else {
        MatchesCover(text, e, x);
        InSpansCons(Span(i, e), rest, x);
        if Reachable(text, i, x) {
          var j :| i <= j <= x && x < |text| && IsLead(text[j]) && AllBody(text, j + 1, x + 1);
          if j < e {
            assert false;
          }
        }
      }
    } else if x == i {
      assert ms == Matches(text, i + 1);
    } else {
      MatchesCover(text, i + 1, x);
      if Reachable(text, i, x) {
        var j :| i <= j <= x && x < |text| && IsLead(text[j]) && AllBody(text, j + 1, x + 1);
        assert j != i;
      }
    }
  }

  lemma InSpansCons(sp: Span, ms: seq<Span>, x: int)
    ensures InSpans([sp] + ms, x) <==> sp.start <= x < sp.end || InSpans(ms, x)
  {
    var all := [sp] + ms;
    if sp.start <= x < sp.end {
      assert all[0].start <= x < all[0].end;
    }
    if InSpans(ms, x) {
      var k :| 0 <= k < |ms| && ms[k].start <= x < ms[k].end;
      assert all[k + 1] == ms[k];
      assert all[k + 1].start <= x < all[k + 1].end;
    }
    if InSpans(all, x) {
      var k :| 0 <= k < |all| && all[k].start <= x < all[k].end;
      if k > 0 {
        assert all[k] == ms[k - 1];
      } else {
        assert all[0] == sp;
      }
    }
  }

  /** The matches with at least two `isdigit` characters, as results. */
  function Findings(text: string, i: nat): (fs: seq<Finding>)
    requires i <= |text|
    ensures forall k :: 0 <= k < |fs| ==>
      fs[k].entityType == "NUMBER" && fs[k].score == 0.7 &&
      i <= fs[k].start < fs[k].end <= |text| && IsLead(text[fs[k].start]) &&
      DigitCount(text[fs[k].start..fs[k].end]) >= 2
    ensures forall k :: 0 <= k < |fs| - 1 ==> fs[k].end <= fs[k + 1].start
    decreases |text| - i
  {
    if i == |text| then []
    else if IsLead(text[i]) then
      var e := RunEnd(text, i + 1);
      (if DigitCount(text[i..e]) >= 2 then [Reported(Span(i, e))] else []) + Findings(text, e)
    else Findings(text, i + 1)
  }

  /** `analyze`. */
  function Analyze(text: string): seq<Finding> {
    Findings(text, 0)
  }

  /** The span lies in the text and holds at least two digits. */
  predicate Counted(text: string, sp: Span) {
    sp.start <= sp.end <= |text| && DigitCount(text[sp.start..sp.end]) >= 2
  }

  /** `f` reports one of the spans holding at least two digits. */
  ghost predicate ReportsCounted(text: string, ms: seq<Span>, f: Finding) {
    exists sp :: sp in ms && f == Reported(sp) && Counted(text, sp)
  }

  /** The results are exactly the matches holding at least two digits. */
  lemma {:induction false} FindingsAreDigitMatches(text: string, i: nat, f: Finding)
    requires i <= |text|
    ensures f in Findings(text, i) <==> ReportsCounted(text, Matches(text, i), f)
    decreases |text| - i
  {
    if i < |text| {
      if IsLead(text[i]) {
        var e := RunEnd(text, i + 1);
        var sp := Span(i, e);
        FindingsAreDigitMatches(text, e, f);
        assert Matches(text, i) == [sp] + Matches(text, e);
        assert Findings(text, i) == (if Counted(text, sp) then [Reported(sp)] else []) + Findings(text, e);
        ReportsCountedCons(text, sp, Matches(text, e), f);
      } else {
        FindingsAreDigitMatches(text, i + 1, f);
        assert Matches(text, i) == Matches(text, i + 1);
      }
    }
  }

  lemma ReportsCountedCons(text: string, sp: Span, ms: seq<Span>, f: Finding)
    ensures ReportsCounted(text, [sp] + ms, f) <==>
      (f == Reported(sp) && Counted(text, sp)) || ReportsCounted(text, ms, f)
  {
    if ReportsCounted(text, [sp] + ms, f) {
      var t :| t in [sp] + ms && f == Reported(t) && Counted(text, t);
      if t != sp {
        assert t in ms;
      }
    }
    if ReportsCounted(text, ms, f) {
      var t :| t in ms && f == Reported(t) && Counted(text, t);
      assert t in [sp] + ms;
    }
    if f == Reported(sp) && Counted(text, sp) {
      assert sp in [sp] + ms;
    }
  }

  /** A text with fewer than two digits yields no result. */
  lemma FewDigitsNothing(text: string)
    requires DigitCount(text) < 2
    ensures Analyze(text) == []
  {
    var fs := Analyze(text);
    assert text[0..|text|] == text;
    if fs != [] {
      DigitCountMono(text, 0, fs[0].start, fs[0].end, |text|);
    }
  }

  // ---------------------------------------------------------------- the loop

  /** The greedy star. */
  method ScanRun(text: string, j: nat) returns (e: nat)
    requires j <= |text|
    ensures e == RunEnd(text, j)
  {
    e := j;
    while e < |text| && IsBody(text[e])
      invariant j <= e <= |text|
      invariant RunEnd(text, e) == RunEnd(text, j)
      decreases |text| - e
    {
      e := e + 1;
    }
  }

  /** `analyze` as written: the `finditer` loop with the digit filter. */
  method AnalyzeText(text: string) returns (results: seq<Finding>)
    ensures results == Analyze(text)
  {
    results := [];
    var pos := 0;
    while pos < |text|
      invariant pos <= |text|
      invariant results + Findings(text, pos) == Findings(text, 0)
      decreases |text| - pos
    {
      if IsLead(text[pos]) {
        var e := ScanRun(text, pos + 1);
        var d := CountDigits(text[pos..e]);
        var found := if d >= 2 then [Reported(Span(pos, e))] else [];
        assert Findings(text, pos) == found + Findings(text, e);
        assert results + Findings(text, pos) == (results + found) + Findings(text, e);
        results := results + found;
        pos := e;
      } else {
        pos := pos + 1;
      }
    }
  }
}
