/** `HighDigitDensityRecognizer.analyze` (`src/did/core/number_detector.py`): every
    window of `window_size` characters with at least `min_digits` digits and a
    digit density of at least `density_threshold` is a candidate; overlapping or
    touching candidates are merged, and each merged interval is trimmed to start
    and end on a digit. */
module DigitDensity {
  import opened Wrappers
  import opened Seqs
  import opened Chars

  /** The constructor's parameters. */
  datatype Params = Params(minDigits: nat, windowSize: nat, threshold: real)

  const Defaults := Params(4, 12, 0.4)

  /** A half-open interval `[start, end)` of positions. */
  datatype Span = Span(start: nat, end: nat)

  /** A `RecognizerResult`. */
  datatype Finding = Finding(entityType: string, start: nat, end: nat, score: real)

  /** The `ZeroDivisionError` of a zero window size. */
  datatype DensityError = ZeroWindow

  // ---------------------------------------------------------------- intervals

  /** Position `x` lies in one of the intervals. */
  ghost predicate Covered(ivs: seq<Span>, x: int) {
    exists k :: 0 <= k < |ivs| && ivs[k].start <= x < ivs[k].end
  }

  predicate NonEmpty(ivs: seq<Span>) {
    forall k :: 0 <= k < |ivs| ==> ivs[k].start < ivs[k].end
  }

  /** Starts never decrease. */
  predicate Sorted(ivs: seq<Span>) {
    forall j, k :: 0 <= j < k < |ivs| ==> ivs[j].start <= ivs[k].start
  }

  /** Each interval ends strictly before the next begins. */
  predicate Gapped(ivs: seq<Span>) {
    forall k :: 0 <= k < |ivs| - 1 ==> ivs[k].end < ivs[k + 1].start
  }

  predicate Within(ivs: seq<Span>, n: nat) {
    forall k :: 0 <= k < |ivs| ==> ivs[k].end <= n
  }

  /** Some interval of `ivs` lies inside `sp`. */
  ghost predicate HoldsOne(ivs: seq<Span>, sp: Span) {
    exists j :: 0 <= j < |ivs| && sp.start <= ivs[j].start && ivs[j].end <= sp.end
  }

  // ---------------------------------------------------------------- windows

  /** A window with `d` digits passes both tests; `digit_count / len(window) >=
      density_threshold` is compared without division, exactly. */
  predicate Passes(p: Params, d: nat) {
    d >= p.minDigits && (d as real) >= p.threshold * (p.windowSize as real)
  }

  /** The window at `i` passes both tests. */
  predicate Qualifies(text: string, p: Params, i: nat)
    requires i + p.windowSize <= |text|
  {
    Passes(p, DigitCount(text[i..i + p.windowSize]))
  }

  /** The qualifying windows among the first `n` positions, in order. */
  function WindowsUpTo(text: string, p: Params, n: nat): seq<Span>
    requires n + p.windowSize <= |text| + 1
  {
    if n == 0 then []
    else WindowsUpTo(text, p, n - 1) + if Qualifies(text, p, n - 1) then [Span(n - 1, n - 1 + p.windowSize)] else []
  }

  /** The `intervals` the scan collects: none when the text is shorter than a
      window. */
  function Windows(text: string, p: Params): seq<Span> {
    if |text| < p.windowSize then [] else WindowsUpTo(text, p, |text| - p.windowSize + 1)
  }

  /** Every collected window is a qualifying window of the full size that
      starts before `n`. */
  predicate WindowsOf(text: string, p: Params, ws: seq<Span>, n: nat) {
    forall k :: 0 <= k < |ws| ==>
      ws[k].start < n && ws[k].end == ws[k].start + p.windowSize && ws[k].end <= |text| &&
      Qualifies(text, p, ws[k].start)
  }

  /** The windows come in increasing order, so `intervals.sort()` changes
      nothing, and each is a qualifying window inside the text. */
  lemma {:induction false} WindowsUpToSound(text: string, p: Params, n: nat)
    requires n + p.windowSize <= |text| + 1
    ensures var ws := WindowsUpTo(text, p, n); WindowsOf(text, p, ws, n) && Sorted(ws)
  {
    if n > 0 {
      WindowsUpToSound(text, p, n - 1);
      var ws0 := WindowsUpTo(text, p, n - 1);
      var tail := if Qualifies(text, p, n - 1) then [Span(n - 1, n - 1 + p.windowSize)] else [];
      var ws := ws0 + tail;
      assert WindowsUpTo(text, p, n) == ws;
      forall k | 0 <= k < |ws|
        ensures ws[k].start < n && ws[k].end == ws[k].start + p.windowSize && ws[k].end <= |text| &&
          Qualifies(text, p, ws[k].start)
      {
        if k < |ws0| {
          assert ws[k] == ws0[k];
        } else {
          assert ws[k] == Span(n - 1, n - 1 + p.windowSize);
        }
      }
      forall j, k | 0 <= j < k < |ws|
        ensures ws[j].start <= ws[k].start
      {
        assert ws[j] == ws0[j];
        if k < |ws0| {
          assert ws[k] == ws0[k];
        }
      }
    }
  }

  /** No qualifying window is missed. */
  lemma {:induction false} WindowsUpToComplete(text: string, p: Params, n: nat, i: nat)
    requires n + p.windowSize <= |text| + 1
    requires i < n && Qualifies(text, p, i)
    ensures Span(i, i + p.windowSize) in WindowsUpTo(text, p, n)
  {
    if i < n - 1 {
      WindowsUpToComplete(text, p, n - 1, i);
    }
  }

  /** The scan's intervals are exactly the qualifying windows, in increasing
      order and inside the text. */
  lemma WindowsSpec(text: string, p: Params)
    ensures var ws := Windows(text, p);
      Sorted(ws) && Within(ws, |text|) && (p.windowSize > 0 ==> NonEmpty(ws)) &&
      (forall k :: 0 <= k < |ws| ==> ws[k].end == ws[k].start + p.windowSize && Qualifies(text, p, ws[k].start)) &&
      (forall i: nat :: i + p.windowSize <= |text| && Qualifies(text, p, i) ==> Span(i, i + p.windowSize) in ws)
  {
    if |text| >= p.windowSize {
      var n := |text| - p.windowSize + 1;
      WindowsUpToSound(text, p, n);
      forall i: nat | i + p.windowSize <= |text| && Qualifies(text, p, i)
        ensures Span(i, i + p.windowSize) in Windows(text, p)
      {
        WindowsUpToComplete(text, p, n, i);
      }
    }
  }

  // ---------------------------------------------------------------- merge

  function Max(a: nat, b: nat): nat {
    if a < b then b else a
  }

  /** One pass of the merge loop: start a new interval after a gap, or extend
      the last one. */
  function MergeInto(merged: seq<Span>, iv: Span): seq<Span> {
    if merged == [] || merged[|merged| - 1].end < iv.start then merged + [iv]
    else
      var last := merged[|merged| - 1];
      merged[..|merged| - 1] + [Span(last.start, Max(last.end, iv.end))]
  }

  /** The merge loop over the intervals in order. */
  function Merge(ivs: seq<Span>): seq<Span> {
    if ivs == [] then [] else MergeInto(Merge(ivs[..|ivs| - 1]), ivs[|ivs| - 1])
  }

  /** Merging sorted non-empty intervals gives non-empty intervals separated by
      gaps; the last one starts no later than the last input. */
  lemma {:induction false} MergeShape(ivs: seq<Span>)
    requires Sorted(ivs) && NonEmpty(ivs)
    ensures var m := Merge(ivs);
      NonEmpty(m) && Gapped(m) && (|m| == 0 <==> |ivs| == 0) &&
      (ivs != [] ==> m[|m| - 1].start <= ivs[|ivs| - 1].start)
  {
    if ivs != [] {
      var init, iv := ivs[..|ivs| - 1], ivs[|ivs| - 1];
      InitShape(ivs);
      MergeShape(init);
      MergeIntoShape(Merge(init), iv);
    }
  }

  /** Dropping the last interval keeps the order and the non-emptiness; the
      last interval starts no earlier than the one before it. */
  lemma InitShape(ivs: seq<Span>)
    requires Sorted(ivs) && NonEmpty(ivs) && ivs != []
    ensures var init, iv := ivs[..|ivs| - 1], ivs[|ivs| - 1];
      Sorted(init) && NonEmpty(init) && iv.start < iv.end &&
      (init != [] ==> init[|init| - 1].start <= iv.start)
  {
  }

  /** One merge step keeps the merged intervals non-empty and gapped. */
  lemma MergeIntoShape(m: seq<Span>, iv: Span)
    requires NonEmpty(m) && Gapped(m) && iv.start < iv.end
    requires m != [] ==> m[|m| - 1].start <= iv.start
    ensures var m' := MergeInto(m, iv);
      NonEmpty(m') && Gapped(m') && m' != [] && m'[|m'| - 1].start <= iv.start
  {
    var m' := MergeInto(m, iv);
    if m == [] || m[|m| - 1].end < iv.start {
      assert forall k :: 0 <= k < |m| ==> m'[k] == m[k];
    } else {
      assert forall k :: 0 <= k < |m| - 1 ==> m'[k] == m[k];
    }
  }

  /** Merging keeps the union: a position is covered afterwards exactly when
      some input interval covers it. */
  lemma {:induction false} MergeCovers(ivs: seq<Span>, x: int)
    requires Sorted(ivs) && NonEmpty(ivs)
    ensures Covered(Merge(ivs), x) <==> Covered(ivs, x)
  {
    if ivs != [] {
      var init, iv := ivs[..|ivs| - 1], ivs[|ivs| - 1];
      InitShape(ivs);
      MergeShape(init);
      var m := Merge(init);
      assert Merge(ivs) == MergeInto(m, iv);
      assert m != [] ==> m[|m| - 1].start <= iv.start;
      MergeCovers(init, x);
      MergeIntoCovers(m, iv, x);
      assert ivs == init + [iv];
      CoveredSnoc(init, iv, x);
    }
  }

  /** What one merge step does to the union, when the last interval does not
      start after the new one. */
  lemma MergeIntoCovers(m: seq<Span>, iv: Span, x: int)
    requires m != [] ==> m[|m| - 1].start <= iv.start
    ensures Covered(MergeInto(m, iv), x) <==> Covered(m, x) || iv.start <= x < iv.end
  {
    if m == [] || m[|m| - 1].end < iv.start {
      CoveredSnoc(m, iv, x);
    } else {
      var init, last := m[..|m| - 1], m[|m| - 1];
      var joined := Span(last.start, Max(last.end, iv.end));
      CoveredSnoc(init, joined, x);
      CoveredSnoc(init, last, x);
      assert init + [last] == m;
    }
  }

  lemma CoveredSnoc(ivs: seq<Span>, iv: Span, x: int)
    ensures Covered(ivs + [iv], x) <==> Covered(ivs, x) || iv.start <= x < iv.end
  {
    var all := ivs + [iv];
    if Covered(ivs, x) {
      var k :| 0 <= k < |ivs| && ivs[k].start <= x < ivs[k].end;
      assert all[k] == ivs[k];
    }
    if Covered(all, x) {
      var k :| 0 <= k < |all| && all[k].start <= x < all[k].end;
      if k < |ivs| {
        assert all[k] == ivs[k];
      }
    }
    if iv.start <= x < iv.end {
      assert all[|ivs|] == iv;
    }
  }

  /** Every merged interval contains one of the input intervals, and stays
      within any bound the inputs keep to. */
  lemma {:induction false} MergeHolds(ivs: seq<Span>, n: nat)
    requires Within(ivs, n)
    ensures var m := Merge(ivs);
      Within(m, n) && forall k :: 0 <= k < |m| ==> HoldsOne(ivs, m[k])
  {
    if ivs != [] {
      var init, iv := ivs[..|ivs| - 1], ivs[|ivs| - 1];
      MergeHolds(init, n);
      var m, m' := Merge(init), Merge(ivs);
      forall k | 0 <= k < |m'|
        ensures HoldsOne(ivs, m'[k])
      {
        if k < |m| && (k < |m| - 1 || m'[k] == m[k]) {
          assert m'[k].start == m[k].start && m[k].end <= m'[k].end;
          var j :| 0 <= j < |init| && m[k].start <= init[j].start && init[j].end <= m[k].end;
          assert ivs[j] == init[j];
        } else if k == |m| {
          assert m'[k] == iv;
          assert ivs[|ivs| - 1] == iv;
        } else {
          assert m'[k].start == m[k].start && m[k].end <= m'[k].end;
          var j :| 0 <= j < |init| && m[k].start <= init[j].start && init[j].end <= m[k].end;
          assert ivs[j] == init[j];
        }
      }
    }
  }

  // ---------------------------------------------------------------- trim

  /** Intervals that can be sliced out of a text of length `n`. */
  predicate InText(ms: seq<Span>, n: nat) {
    forall k :: 0 <= k < |ms| ==> ms[k].start <= ms[k].end <= n
  }

  /** The first trim loop: skip non-digits from the left. */
  function TrimStart(text: string, s: nat, e: nat): (a: nat)
    requires s <= e <= |text|
    ensures s <= a <= e
    ensures a < e ==> IsDigit(text[a])
    ensures forall x :: s <= x < a ==> !IsDigit(text[x])
    decreases e - s
  {
    if s < e && !IsDigit(text[s]) then TrimStart(text, s + 1, e) else s
  }

  /** The second trim loop: drop non-digits from the right. */
  function TrimEnd(text: string, s: nat, e: nat): (b: nat)
    requires s <= e <= |text|
    ensures s <= b <= e
    ensures s < b ==> IsDigit(text[b - 1])
    ensures forall x :: b <= x < e ==> !IsDigit(text[x])
    decreases e - s
  {
    if s < e && !IsDigit(text[e - 1]) then TrimEnd(text, s, e - 1) else e
  }

  /** The interval after both trim loops: inside the original, and starting
      and ending on a digit unless nothing is left. */
  function Trimmed(text: string, sp: Span): (t: Span)
    requires sp.start <= sp.end <= |text|
    ensures sp.start <= t.start <= t.end <= sp.end
    ensures t.start < t.end ==> IsDigit(text[t.start]) && IsDigit(text[t.end - 1])
  {
    var a := TrimStart(text, sp.start, sp.end);
    Span(a, TrimEnd(text, a, sp.end))
  }

  /** Trimming loses no digit: every digit of the interval lies in the trimmed
      one. */
  lemma TrimKeepsDigits(text: string, sp: Span)
    requires sp.start <= sp.end <= |text|
    ensures var t := Trimmed(text, sp);
      (forall x :: sp.start <= x < sp.end && IsDigit(text[x]) ==> t.start <= x < t.end) &&
      DigitCount(text[sp.start..sp.end]) == DigitCount(text[t.start..t.end])
  {
    var t := Trimmed(text, sp);
    var s, a, b, e := sp.start, t.start, t.end, sp.end;
    DigitCountSplit(text, s, a, e);
    DigitCountSplit(text, a, b, e);
    DigitCountNoneIn(text, s, a);
    DigitCountNoneIn(text, b, e);
  }

  // ---------------------------------------------------------------- results

  /** The `RecognizerResult` for a trimmed interval. */
  function Reported(t: Span): Finding {
    Finding("NUMBER", t.start, t.end, 0.7)
  }

  /** The result loop over the merged intervals: trim each, keep it when it is
      at least `min_digits` long. */
  function Report(text: string, p: Params, ms: seq<Span>): seq<Finding>
    requires InText(ms, |text|)
  {
    if ms == [] then []
    else
      var t := Trimmed(text, ms[|ms| - 1]);
      Report(text, p, ms[..|ms| - 1]) + if t.end - t.start >= p.minDigits then [Reported(t)] else []
  }

  /** `analyze`: a zero window size divides by zero on the first window. */
  function Analyze(text: string, p: Params): (r: Result<seq<Finding>, DensityError>)
    ensures r.Failure? <==> p.windowSize == 0
    ensures 0 < p.windowSize && |text| < p.windowSize ==> r == Success([])
  {
    if p.windowSize == 0 then Failure(ZeroWindow)
    else
      MergedInText(text, p);
      Success(Report(text, p, Merge(Windows(text, p))))
  }

  /** The merged intervals lie in the text, each holds a qualifying window and
      so at least `min_digits` digits. */
  lemma MergedInText(text: string, p: Params)
    requires p.windowSize > 0
    ensures var ms := Merge(Windows(text, p));
      InText(ms, |text|) && Gapped(ms) && Dense(text, ms, p.minDigits)
  {
    var ws := Windows(text, p);
    WindowsSpec(text, p);
    MergeShape(ws);
    MergeHolds(ws, |text|);
    var ms := Merge(ws);
    forall k | 0 <= k < |ms|
      ensures DigitCount(text[ms[k].start..ms[k].end]) >= p.minDigits
    {
      HeldDense(text, p, ws, ms[k]);
    }
  }

  /** An interval of the text holding a qualifying window holds at least
      `min_digits` digits. */
  lemma HeldDense(text: string, p: Params, ws: seq<Span>, sp: Span)
    requires sp.start <= sp.end <= |text| && HoldsOne(ws, sp)
    requires Within(ws, |text|)
    requires forall k :: 0 <= k < |ws| ==> ws[k].end == ws[k].start + p.windowSize && Qualifies(text, p, ws[k].start)
    ensures DigitCount(text[sp.start..sp.end]) >= p.minDigits
  {
    var j :| 0 <= j < |ws| && sp.start <= ws[j].start && ws[j].end <= sp.end;
    DigitCountMono(text, sp.start, ws[j].start, ws[j].end, sp.end);
  }

  /** An interval with enough digits stays long enough after trimming. */
  lemma TrimmedLong(text: string, sp: Span, m: nat)
    requires sp.start <= sp.end <= |text|
    requires DigitCount(text[sp.start..sp.end]) >= m
    ensures Trimmed(text, sp).start + m <= Trimmed(text, sp).end
  {
    TrimKeepsDigits(text, sp);
    var t := Trimmed(text, sp);
    assert DigitCount(text[t.start..t.end]) <= t.end - t.start;
  }

  /** Every interval of `ms` holds at least `m` digits. */
  predicate Dense(text: string, ms: seq<Span>, m: nat)
    requires InText(ms, |text|)
  {
    forall k :: 0 <= k < |ms| ==> DigitCount(text[ms[k].start..ms[k].end]) >= m
  }

  /** When every interval holds enough digits, the length test never drops
      one: there is exactly one result per interval, its trimmed form. */
  lemma {:induction false} ReportAll(text: string, p: Params, ms: seq<Span>)
    requires InText(ms, |text|) && Dense(text, ms, p.minDigits)
    ensures ReportsTrimmed(text, Report(text, p, ms), ms)
  {
    if ms != [] {
      var init, last := ms[..|ms| - 1], ms[|ms| - 1];
      DenseInit(text, ms, p.minDigits);
      ReportAll(text, p, init);
      TrimmedLong(text, last, p.minDigits);
      var prev := Report(text, p, init);
      assert Report(text, p, ms) == prev + [Reported(Trimmed(text, last))];
      ReportsTrimmedSnoc(text, prev, init, last);
      assert init + [last] == ms;
    }
  }

  /** `fs` holds one result per interval of `ms`, its trimmed form. */
  predicate ReportsTrimmed(text: string, fs: seq<Finding>, ms: seq<Span>) {
    InText(ms, |text|) && |fs| == |ms| &&
    forall k :: 0 <= k < |ms| ==> fs[k] == Reported(Trimmed(text, ms[k]))
  }

  lemma ReportsTrimmedSnoc(text: string, fs: seq<Finding>, ms: seq<Span>, sp: Span)
    requires ReportsTrimmed(text, fs, ms) && sp.start <= sp.end <= |text|
    ensures ReportsTrimmed(text, fs + [Reported(Trimmed(text, sp))], ms + [sp])
  {
    var fs', ms' := fs + [Reported(Trimmed(text, sp))], ms + [sp];
    forall k | 0 <= k < |ms'|
      ensures ms'[k].start <= ms'[k].end <= |text| && fs'[k] == Reported(Trimmed(text, ms'[k]))
    {
      if k < |ms| {
        assert fs'[k] == fs[k] && ms'[k] == ms[k];
      }
    }
  }

  /** Dropping the last interval keeps the intervals in the text and dense;
      the last one is both too. */
  lemma DenseInit(text: string, ms: seq<Span>, m: nat)
    requires ms != [] && InText(ms, |text|) && Dense(text, ms, m)
    ensures var init, last := ms[..|ms| - 1], ms[|ms| - 1];
      InText(init, |text|) && Dense(text, init, m) &&
      last.start <= last.end <= |text| && DigitCount(text[last.start..last.end]) >= m
  {
    var init := ms[..|ms| - 1];
    assert forall k :: 0 <= k < |init| ==> init[k] == ms[k];
  }

  /** Position `x` lies in one of the results. */
  ghost predicate InFindings(fs: seq<Finding>, x: int) {
    exists k :: 0 <= k < |fs| && fs[k].start <= x < fs[k].end
  }

  /** A result as `analyze` reports it: labelled `NUMBER` with score 0.7, at
      least `min_digits` long, inside the text, starting and ending on a
      digit. */
  predicate WellReported(text: string, p: Params, f: Finding) {
    f.entityType == "NUMBER" && f.score == 0.7 &&
    f.start + p.minDigits <= f.end <= |text| &&
    (f.start < f.end ==> IsDigit(text[f.start]) && IsDigit(text[f.end - 1]))
  }

  lemma ReportedWell(text: string, p: Params, sp: Span)
    requires sp.start <= sp.end <= |text|
    requires DigitCount(text[sp.start..sp.end]) >= p.minDigits
    ensures WellReported(text, p, Reported(Trimmed(text, sp)))
  {
    TrimmedLong(text, sp, p.minDigits);
  }

  /** The results of `analyze`: one per merged interval, each well reported,
      strictly apart in increasing order. */
  lemma AnalyzeShape(text: string, p: Params)
    requires p.windowSize > 0
    ensures var fs := Analyze(text, p).value;
      |fs| == |Merge(Windows(text, p))| &&
      (forall k :: 0 <= k < |fs| ==> WellReported(text, p, fs[k])) &&
      (forall k :: 0 <= k < |fs| - 1 ==> fs[k].end < fs[k + 1].start)
  {
    var ms := Merge(Windows(text, p));
    MergedInText(text, p);
    ReportAll(text, p, ms);
    var fs := Analyze(text, p).value;
    assert fs == Report(text, p, ms);
    forall k | 0 <= k < |fs|
      ensures WellReported(text, p, fs[k])
    {
      ReportedWell(text, p, ms[k]);
    }
  }

  /** The digits the results cover are exactly the digits of the qualifying
      windows, and the results cover nothing outside the windows. */
  lemma AnalyzeCovers(text: string, p: Params)
    requires p.windowSize > 0
    ensures var fs := Analyze(text, p).value;
      (forall x :: InFindings(fs, x) ==> Covered(Windows(text, p), x)) &&
      (forall x :: 0 <= x < |text| && IsDigit(text[x]) && Covered(Windows(text, p), x) ==> InFindings(fs, x))
  {
    var ws, fs := Windows(text, p), Analyze(text, p).value;
    forall x | InFindings(fs, x)
      ensures Covered(ws, x)
    {
      FindingCovered(text, p, x);
    }
    forall x | 0 <= x < |text| && IsDigit(text[x]) && Covered(ws, x)
      ensures InFindings(fs, x)
    {
      CoveredFound(text, p, x);
    }
  }

  /** A position inside a result lies in a qualifying window. */
  lemma FindingCovered(text: string, p: Params, x: int)
    requires p.windowSize > 0
    requires InFindings(Analyze(text, p).value, x)
    ensures Covered(Windows(text, p), x)
  {
    var ws := Windows(text, p);
    var ms := Merge(ws);
    WindowsSpec(text, p);
    MergedInText(text, p);
    ReportAll(text, p, ms);
    var fs := Analyze(text, p).value;
    var k :| 0 <= k < |fs| && fs[k].start <= x < fs[k].end;
    TrimKeepsDigits(text, ms[k]);
    assert Covered(ms, x);
    MergeCovers(ws, x);
  }

  /** A digit inside a qualifying window lies inside a result. */
  lemma CoveredFound(text: string, p: Params, x: int)
    requires p.windowSize > 0
    requires 0 <= x < |text| && IsDigit(text[x]) && Covered(Windows(text, p), x)
    ensures InFindings(Analyze(text, p).value, x)
  {
    var ws := Windows(text, p);
    var ms := Merge(ws);
    WindowsSpec(text, p);
    MergedInText(text, p);
    ReportAll(text, p, ms);
    var fs := Analyze(text, p).value;
    MergeCovers(ws, x);
    assert Covered(ms, x);
    var k :| 0 <= k < |ms| && ms[k].start <= x < ms[k].end;
    TrimKeepsDigits(text, ms[k]);
    assert fs[k].start <= x < fs[k].end;
  }

  // ---------------------------------------------------------------- the loops

  /** `sum(1 for c in window if c.isdigit())`. */
  method CountDigits(w: string) returns (n: nat)
    ensures n == DigitCount(w)
  {
    n := 0;
    for i := 0 to |w|
      invariant n == DigitCount(w[..i])
    {
      assert w[..i + 1] == w[..i] + [w[i]];
      DigitCountAppend(w[..i], [w[i]]);
      if IsDigit(w[i]) {
        n := n + 1;
      }
    }
    assert w[..|w|] == w;
  }

  /** The window loop. */
  method ScanWindows(text: string, p: Params) returns (ivs: seq<Span>)
    requires p.windowSize > 0
    ensures ivs == Windows(text, p)
  {
    ivs := [];
    if |text| < p.windowSize {
      return;
    }
    for i := 0 to |text| - p.windowSize + 1
      invariant ivs == WindowsUpTo(text, p, i)
    {
      var d := CountDigits(text[i..i + p.windowSize]);
      if Passes(p, d) {
        ivs := ivs + [Span(i, i + p.windowSize)];
      }
    }
  }

  /** The merge loop. */
  method MergeIntervals(ivs: seq<Span>) returns (merged: seq<Span>)
    ensures merged == Merge(ivs)
  {
    merged := [];
    for i := 0 to |ivs|
      invariant merged == Merge(ivs[..i])
    {
      assert ivs[..i + 1][..i] == ivs[..i];
      var iv := ivs[i];
      if merged == [] || merged[|merged| - 1].end < iv.start {
        merged := merged + [iv];
      } else {
        var last := merged[|merged| - 1];
        merged := merged[..|merged| - 1] + [Span(last.start, Max(last.end, iv.end))];
      }
    }
    assert ivs[..|ivs|] == ivs;
  }

  /** The two trim loops. */
  method TrimSpan(text: string, sp: Span) returns (t: Span)
    requires sp.start <= sp.end <= |text|
    ensures t == Trimmed(text, sp)
  {
    var start, end := sp.start, sp.end;
    while start < end && !IsDigit(text[start])
      invariant sp.start <= start <= end
      invariant TrimStart(text, start, end) == TrimStart(text, sp.start, sp.end)
      decreases end - start
    {
      start := start + 1;
    }
    while end > start && !IsDigit(text[end - 1])
      invariant start <= end <= sp.end
      invariant TrimEnd(text, start, end) == TrimEnd(text, start, sp.end)
      decreases end - start
    {
      end := end - 1;
    }
    t := Span(start, end);
  }

  /** The result loop. */
  method ReportIntervals(text: string, p: Params, merged: seq<Span>) returns (results: seq<Finding>)
    requires InText(merged, |text|)
    ensures results == Report(text, p, merged)
  {
    results := [];
    for k := 0 to |merged|
      invariant results == Report(text, p, merged[..k])
    {
      assert merged[..k + 1][..k] == merged[..k];
      var t := TrimSpan(text, merged[k]);
      if t.end - t.start >= p.minDigits {
        results := results + [Reported(t)];
      }
    }
    assert merged[..|merged|] == merged;
  }

  /** `analyze` as written: scan, merge when anything qualified, trim and
      keep the long enough intervals. */
  method AnalyzeText(text: string, p: Params) returns (r: Result<seq<Finding>, DensityError>)
    ensures r == Analyze(text, p)
  {
    if p.windowSize == 0 {
      return Failure(ZeroWindow);
    }
    var intervals := ScanWindows(text, p);
    var results: seq<Finding> := [];
    if intervals != [] {
      var merged := MergeIntervals(intervals);
      MergedInText(text, p);
      results := ReportIntervals(text, p, merged);
    }
    return Success(results);
  }
}
