/** `find_name_variants` and `find_number_variants` of `src/did/utils.py` (lines
    38-85): seed linkage over the positions of the input, with a `visited` flag per
    position, so equal strings at different positions stay separate items. */
module Variants {
  import opened Seqs
  import opened Similarity
  import opened Normalize
  import opened Linkage

  /** The pairwise test: the scores of the normalised strings exceed the threshold
      (strictly, as `scores[i] > threshold`). */
  function Similar(key: string -> string, score: Scorer, threshold: real): (string, string) -> bool {
    (a, b) => score(key(a), key(b)) > threshold
  }

  /** The item at a position (positions past the end read as the empty string). */
  function At(items: seq<string>): nat -> string {
    (i: nat) => if i < |items| then items[i] else ""
  }

  /** The groups of positions seed linkage forms over `items`. */
  function IndexGroups(items: seq<string>, sim: (string, string) -> bool): seq<seq<nat>> {
    Link(Range(0, |items|), Pull<nat, string>(sim, At(items)))
  }

  /** Positions `i` with `visited[i]` false, in increasing order. */
  function Unvisited(visited: seq<bool>): seq<nat> {
    Filter(Range(0, |visited|), NotVisited(visited))
  }

  function NotVisited(visited: seq<bool>): nat -> bool {
    (k: nat) => k < |visited| && !visited[k]
  }

  /** Positions the seed at `i` takes while `before` are the visited flags. */
  function Taken(before: seq<bool>, isim: (nat, nat) -> bool, i: nat): nat -> bool {
    (k: nat) => k < |before| && !before[k] && isim(i, k)
  }

  lemma ReadBack(items: seq<string>)
    ensures Map(Range(0, |items|), At(items)) == items
  {
  }

  lemma {:induction false} RangeSplit(lo: nat, mid: nat, hi: nat)
    requires lo <= mid <= hi
    ensures Range(lo, hi) == Range(lo, mid) + Range(mid, hi)
  {
  }

  /** Positions `lo..hi` minus those `p` rejects below `mid` filter as `mid..hi`. */
  lemma FilterRangeFrom(lo: nat, mid: nat, hi: nat, p: nat -> bool)
    requires lo <= mid <= hi
    requires forall k :: lo <= k < mid ==> !p(k)
    ensures Filter(Range(lo, hi), p) == Filter(Range(mid, hi), p)
  {
    RangeSplit(lo, mid, hi);
    FilterAppend(Range(lo, mid), Range(mid, hi), p);
    FilterNone(Range(lo, mid), p);
  }

  /** When every position before `i` is visited and `i` is not, the unvisited
      positions are `i` followed by the unvisited positions after it. */
  lemma UnvisitedFrom(visited: seq<bool>, i: nat)
    requires i < |visited| && !visited[i]
    requires forall k :: 0 <= k < i ==> visited[k]
    ensures Unvisited(visited) == [i] + Filter(Range(i + 1, |visited|), NotVisited(visited))
  {
    FilterRangeFrom(0, i, |visited|, NotVisited(visited));
    assert Range(i, |visited|) == [i] + Range(i + 1, |visited|);
  }

  /** One round of the outer loop: the seed at `i` takes the unvisited positions
      after it that are near it, and leaves the far ones unvisited. */
  lemma LinkStep(before: seq<bool>, first: seq<bool>, after: seq<bool>, isim: (nat, nat) -> bool, i: nat)
    requires i < |before| && !before[i]
    requires forall k :: 0 <= k < i ==> before[k]
    requires first == before[i := true]
    requires |after| == |before|
    requires forall k :: 0 <= k < |before| ==> after[k] == (first[k] || isim(i, k))
    ensures Link(Unvisited(before), isim)
         == [[i] + Filter(Range(0, |before|), Taken(first, isim, i))] + Link(Unvisited(after), isim)
  {
    var n := |before|;
    var rest := Filter(Range(i + 1, n), NotVisited(before));
    UnvisitedFrom(before, i);
    assert Unvisited(before)[1..] == rest;
    MembersAreNear(before, first, isim, i);
    RestAreFar(before, first, after, isim, i);
  }

  lemma MembersAreNear(before: seq<bool>, first: seq<bool>, isim: (nat, nat) -> bool, i: nat)
    requires i < |before|
    requires forall k :: 0 <= k < i ==> before[k]
    requires first == before[i := true]
    ensures Filter(Range(0, |before|), Taken(first, isim, i))
         == Filter(Filter(Range(i + 1, |before|), NotVisited(before)), Near(isim, i))
  {
    var n := |before|;
    FilterRangeFrom(0, i + 1, n, Taken(first, isim, i));
    var both := (k: nat) => NotVisited(before)(k) && Near(isim, i)(k);
    FilterFilter(Range(i + 1, n), NotVisited(before), Near(isim, i), both);
    FilterExt(Range(i + 1, n), both, Taken(first, isim, i));
  }

  lemma RestAreFar(before: seq<bool>, first: seq<bool>, after: seq<bool>, isim: (nat, nat) -> bool, i: nat)
    requires i < |before|
    requires forall k :: 0 <= k < i ==> before[k]
    requires first == before[i := true]
    requires |after| == |before|
    requires forall k :: 0 <= k < |before| ==> after[k] == (first[k] || isim(i, k))
    ensures Unvisited(after) == Filter(Filter(Range(i + 1, |before|), NotVisited(before)), Far(isim, i))
  {
    var n := |before|;
    AfterFlags(before, first, after, isim, i);
    FilterRangeFrom(0, i + 1, n, NotVisited(after));
    FarAfter(before, after, isim, i);
    assert Unvisited(after) == Filter(Range(0, n), NotVisited(after));
  }

  /** After the seed's round every position up to the seed is visited, and a
      later position is unvisited exactly when it was and is far from the seed. */
  lemma AfterFlags(before: seq<bool>, first: seq<bool>, after: seq<bool>, isim: (nat, nat) -> bool, i: nat)
    requires i < |before|
    requires forall k :: 0 <= k < i ==> before[k]
    requires first == before[i := true]
    requires |after| == |before|
    requires forall k :: 0 <= k < |before| ==> after[k] == (first[k] || isim(i, k))
    ensures forall k :: 0 <= k < i + 1 ==> !NotVisited(after)(k)
    ensures forall k :: i < k < |before| ==> after[k] == (before[k] || isim(i, k))
  {
  }

  /** Past the seed, the positions left unvisited are the ones unvisited before
      and far from the seed. */
  lemma FarAfter(before: seq<bool>, after: seq<bool>, isim: (nat, nat) -> bool, i: nat)
    requires i < |before| == |after|
    requires forall k :: i < k < |before| ==> after[k] == (before[k] || isim(i, k))
    ensures Filter(Range(i + 1, |before|), NotVisited(after))
         == Filter(Filter(Range(i + 1, |before|), NotVisited(before)), Far(isim, i))
  {
    var n := |before|;
    var both := (k: nat) => NotVisited(before)(k) && Far(isim, i)(k);
    FilterFilter(Range(i + 1, n), NotVisited(before), Far(isim, i), both);
    forall k | k in Range(i + 1, n)
      ensures both(k) == NotVisited(after)(k)
    {
      RangeMember(i + 1, n, k);
    }
    FilterExt(Range(i + 1, n), both, NotVisited(after));
  }

  lemma RangeMember(lo: nat, hi: nat, x: nat)
    requires x in Range(lo, hi)
    ensures lo <= x < hi
  {
  }

  /** The pairwise test lifted to positions of `items`. */
  function PositionSim(items: seq<string>, key: string -> string, score: Scorer, threshold: real): (nat, nat) -> bool {
    Pull<nat, string>(Similar(key, score, threshold), At(items))
  }

  /** The score matrix `cdist(normalized, normalized)`: `scores[i][j]` compares
      the `i`-th normalised item with the `j`-th. */
  function ScoreMatrix(normalized: seq<string>, score: Scorer): (scores: seq<seq<real>>)
    ensures |scores| == |normalized|
    ensures forall i :: 0 <= i < |normalized| ==> |scores[i]| == |normalized|
  {
    seq(|normalized|, i requires 0 <= i < |normalized| =>
      seq(|normalized|, j requires 0 <= j < |normalized| => score(normalized[i], normalized[j])))
  }

  lemma FilterRangeSnoc(j: nat, p: nat -> bool)
    ensures Filter(Range(0, j + 1), p) == Filter(Range(0, j), p) + (if p(j) then [j] else [])
  {
    assert Range(0, j + 1) == Range(0, j) + [j];
    FilterAppend<nat>(Range(0, j), [j], p);
  }

  /** The items at positions `0..j` that `take` accepts, in order. */
  function Gather(items: seq<string>, take: nat -> bool, j: nat): seq<string>
    requires j <= |items|
  {
    if j == 0 then [] else Gather(items, take, j - 1) + (if take(j - 1) then [items[j - 1]] else [])
  }

  lemma {:induction false} GatherIsMapFilter(items: seq<string>, take: nat -> bool, j: nat)
    requires j <= |items|
    ensures Gather(items, take, j) == Map(Filter(Range(0, j), take), At(items))
  {
    if j > 0 {
      var m: nat := j - 1;
      var f, g := Filter(Range(0, m), take), At(items);
      GatherIsMapFilter(items, take, m);
      FilterRangeSnoc(m, take);
      if take(m) {
        calc {
          Map(Filter(Range(0, j), take), g);
          Map(f + [m], g);
          { MapSnoc<nat, string>(f, m, g); }
          Map(f, g) + [g(m)];
          Gather(items, take, m) + [items[m]];
        }
      } else {
        assert Filter(Range(0, j), take) == f;
      }
    }
  }

  /** The inner loop of `find_name_variants`: the seed at `i` takes every
      unvisited position `j` with `row[j] > threshold`, where `row` is the seed's
      row of the score matrix and `isim` the same test stated on positions. */
  method TakeSimilar(items: seq<string>, row: seq<real>, threshold: real, visited: seq<bool>, i: nat,
                     ghost isim: (nat, nat) -> bool)
    returns (after: seq<bool>, variants: seq<string>)
    requires |row| == |items| == |visited| && i < |items|
    requires forall k :: 0 <= k < |items| ==> (row[k] > threshold) == isim(i, k)
    ensures |after| == |visited|
    ensures forall k :: 0 <= k < |visited| ==> after[k] == (visited[k] || isim(i, k))
    ensures variants == [items[i]] + Gather(items, Taken(visited, isim, i), |items|)
  {
    var n := |items|;
    ghost var take: nat -> bool := Taken(visited, isim, i);
    after := visited;
    variants := [items[i]];
    for j := 0 to n
      invariant |after| == n
      invariant forall k :: 0 <= k < n ==> after[k] == (visited[k] || (k < j && isim(i, k)))
      invariant variants == [items[i]] + Gather(items, take, j)
    {
      if row[j] > threshold && !after[j] {
        variants := variants + [items[j]];
        after := after[j := true];
      }
    }
  }

  /** The positions the seed at `i` takes while `first` are the visited flags. */
  function Members(first: seq<bool>, isim: (nat, nat) -> bool, i: nat): seq<nat> {
    Filter(Range(0, |first|), Taken(first, isim, i))
  }

  /** No position visited yet. */
  function Fresh(n: nat): (visited: seq<bool>)
    ensures |visited| == n && forall k :: 0 <= k < n ==> !visited[k]
  {
    seq(n, _ => false)
  }

  /** The visited flags after the seed at `i` has taken its group. */
  function Mark(visited: seq<bool>, isim: (nat, nat) -> bool, i: nat): (after: seq<bool>)
    ensures |after| == |visited|
    ensures forall k :: 0 <= k < |visited| ==> after[k] == (visited[k] || k == i || isim(i, k))
  {
    seq(|visited|, k requires 0 <= k < |visited| => visited[k] || k == i || isim(i, k))
  }

  /** The groups the outer loop appends from position `i` on, given the flags
      `visited`: a step-by-step restatement of the loop, with no linkage in it. */
  function Sweep(items: seq<string>, isim: (nat, nat) -> bool, visited: seq<bool>, i: nat): seq<seq<string>>
    requires |visited| == |items| && i <= |items|
    decreases |items| - i
  {
    if i == |items| then []
    else if visited[i] then Sweep(items, isim, visited, i + 1)
    else [[items[i]] + Gather(items, Taken(visited[i := true], isim, i), |items|)]
         + Sweep(items, isim, Mark(visited, isim, i), i + 1)
  }

  lemma UnvisitedInitially(visited: seq<bool>)
    requires forall k :: 0 <= k < |visited| ==> !visited[k]
    ensures Unvisited(visited) == Range(0, |visited|)
  {
    FilterAll(Range(0, |visited|), NotVisited(visited));
  }

  lemma UnvisitedFinally(visited: seq<bool>)
    requires forall k :: 0 <= k < |visited| ==> visited[k]
    ensures Unvisited(visited) == []
  {
    FilterNone(Range(0, |visited|), NotVisited(visited));
  }

  /** The loop's groups are those seed linkage forms over the unvisited positions. */
  lemma {:induction false} SweepIsLink(items: seq<string>, isim: (nat, nat) -> bool, visited: seq<bool>, i: nat)
    requires |visited| == |items| && i <= |items|
    requires forall k :: 0 <= k < i ==> visited[k]
    ensures Sweep(items, isim, visited, i) == MapGroups(Link(Unvisited(visited), isim), At(items))
    decreases |items| - i
  {
    if i == |items| {
      UnvisitedFinally(visited);
    } else if visited[i] {
      SweepIsLink(items, isim, visited, i + 1);
      assert Sweep(items, isim, visited, i) == Sweep(items, isim, visited, i + 1);
    } else {
      var first := visited[i := true];
      var after := Mark(visited, isim, i);
      MarkFlags(visited, first, after, isim, i);
      SweepIsLink(items, isim, after, i + 1);
      LinkStep(visited, first, after, isim, i);
      SweepStepGroups(items, isim, first, Link(Unvisited(after), isim), i);
      assert Sweep(items, isim, visited, i)
          == [[items[i]] + Gather(items, Taken(first, isim, i), |items|)] + Sweep(items, isim, after, i + 1);
    }
  }

  /** The flags `Mark` leaves, in the form `LinkStep` takes them. */
  lemma MarkFlags(visited: seq<bool>, first: seq<bool>, after: seq<bool>, isim: (nat, nat) -> bool, i: nat)
    requires i < |visited| && forall k :: 0 <= k < i ==> visited[k]
    requires first == visited[i := true] && after == Mark(visited, isim, i)
    ensures |after| == |visited|
    ensures forall k :: 0 <= k < |visited| ==> after[k] == (first[k] || isim(i, k))
    ensures forall k :: 0 <= k < i + 1 ==> after[k]
  {
  }

  lemma SweepStepGroups(items: seq<string>, isim: (nat, nat) -> bool, first: seq<bool>,
                        rest: seq<seq<nat>>, i: nat)
    requires |first| == |items| && i < |items|
    ensures MapGroups([[i] + Members(first, isim, i)] + rest, At(items))
         == [[items[i]] + Gather(items, Taken(first, isim, i), |items|)] + MapGroups(rest, At(items))
  {
    GatherIsMapFilter(items, Taken(first, isim, i), |items|);
    MapCons<nat, string>(i, Members(first, isim, i), At(items));
  }

  /** The outer loop of `find_name_variants` over a precomputed score matrix;
      `isim` is the same test stated on positions. */
  method LinkByScores(items: seq<string>, scores: seq<seq<real>>, threshold: real, ghost isim: (nat, nat) -> bool)
    returns (groups: seq<seq<string>>)
    requires |scores| == |items|
    requires forall i :: 0 <= i < |items| ==> |scores[i]| == |items|
    requires forall i, k :: 0 <= i < |items| && 0 <= k < |items| ==> (scores[i][k] > threshold) == isim(i, k)
    ensures groups == Sweep(items, isim, Fresh(|items|), 0)
  {
    var n := |items|;
    var visited := seq(n, _ => false);
    assert visited == Fresh(n);
    groups := [];
    for i := 0 to n
      invariant |visited| == n
      invariant groups + Sweep(items, isim, visited, i) == Sweep(items, isim, Fresh(n), 0)
    {
      if visited[i] {
        continue;
      }
      ghost var before := visited;
      visited := visited[i := true];
      var variants;
      visited, variants := TakeSimilar(items, scores[i], threshold, visited, i, isim);
      assert visited == Mark(before, isim, i);
      groups := groups + [variants];
    }
  }

  lemma ScoresMatchPositions(items: seq<string>, key: string -> string, score: Scorer, threshold: real)
    ensures var scores := ScoreMatrix(Map(items, key), score);
      forall i, k :: 0 <= i < |items| && 0 <= k < |items| ==>
        (scores[i][k] > threshold) == PositionSim(items, key, score, threshold)(i, k)
  {
  }

  /** The seed-linkage loop of `find_name_variants` / `find_number_variants`:
      `visited` flags per position, and for each unvisited position `i` a new group
      of `i` and every unvisited `j` whose score against `i` exceeds the threshold. */
  method SeedLinkByPosition(items: seq<string>, key: string -> string, score: Scorer, threshold: real)
    returns (groups: seq<seq<string>>)
    ensures groups == MapGroups(IndexGroups(items, Similar(key, score, threshold)), At(items))
    ensures groups == Link(items, Similar(key, score, threshold))
  {
    var normalized := Map(items, key);
    var scores := ScoreMatrix(normalized, score);
    ScoresMatchPositions(items, key, score, threshold);
    groups := LinkByScores(items, scores, threshold, PositionSim(items, key, score, threshold));
    UnvisitedInitially(Fresh(|items|));
    SweepIsLink(items, PositionSim(items, key, score, threshold), Fresh(|items|), 0);
    LinkMap<nat, string>(Range(0, |items|), At(items), Similar(key, score, threshold));
    ReadBack(items);
  }

  // ---------------------------------------------------------------- the two entry points

  /** What `find_name_variants` returns: seed linkage over the valid names, on
      normalised names, with threshold 85 by default. */
  function NameGroups(names: seq<string>, score: Scorer, threshold: real): seq<seq<string>> {
    Link(Filter(names, IsValidName), Similar(NormalizeName, score, threshold))
  }

  /** What `find_number_variants` returns: seed linkage over all numbers, on
      normalised numbers, with threshold 80 by default. */
  function NumberGroups(numbers: seq<string>, score: Scorer, threshold: real): seq<seq<string>> {
    Link(numbers, Similar(NormalizeNumber, score, threshold))
  }

  const NameThreshold: real := 85.0
  const NumberThreshold: real := 80.0

  /** `find_name_variants` (utils.py). */
  method FindNameVariants(names: seq<string>, score: Scorer, threshold: real) returns (groups: seq<seq<string>>)
    ensures groups == NameGroups(names, score, threshold)
    ensures groups == MapGroups(IndexGroups(Filter(names, IsValidName), Similar(NormalizeName, score, threshold)),
                                At(Filter(names, IsValidName)))
  {
    if |names| == 0 {
      return [];
    }
    var valid := Filter(names, IsValidName);
    if |valid| == 0 {
      return [];
    }
    groups := SeedLinkByPosition(valid, NormalizeName, score, threshold);
  }

  /** `find_number_variants` (utils.py). */
  method FindNumberVariants(numbers: seq<string>, score: Scorer, threshold: real) returns (groups: seq<seq<string>>)
    ensures groups == NumberGroups(numbers, score, threshold)
    ensures groups == MapGroups(IndexGroups(numbers, Similar(NormalizeNumber, score, threshold)), At(numbers))
  {
    if |numbers| == 0 {
      return [];
    }
    groups := SeedLinkByPosition(numbers, NormalizeNumber, score, threshold);
  }

  // ---------------------------------------------------------------- positions

  /** Every position lands in exactly one group, once: the groups rearrange
      the positions `Range(0, |items|)` (see `RangeMembers`), no position is in
      two groups and none is repeated within a group. */
  lemma IndexGroupsPartition(items: seq<string>, sim: (string, string) -> bool)
    ensures multiset(Flatten(IndexGroups(items, sim))) == multiset(Range(0, |items|))
    ensures Disjoint(IndexGroups(items, sim))
    ensures EachDistinct(IndexGroups(items, sim))
  {
    var R := Range(0, |items|);
    var isim := Pull<nat, string>(sim, At(items));
    RangeIncreasing(0, |items|);
    LinkDisjoint(R, isim);
    LinkPermutes(R, isim);
  }

  /** The positions are exactly the naturals below `n`. */
  lemma RangeMembers(n: nat)
    ensures forall p: nat :: p in Range(0, n) <==> p < n
  {
    forall p: nat ensures p in Range(0, n) <==> p < n {
      if p < n {
        assert Range(0, n)[p] == p;
      } else if p in Range(0, n) {
        RangeMember(0, n, p);
      }
    }
  }

  /** Each group lists its positions in input order, and its seed is the
      earliest position not taken by an earlier group. */
  lemma IndexGroupsOrder(items: seq<string>, sim: (string, string) -> bool)
    ensures forall k :: 0 <= k < |IndexGroups(items, sim)| ==> Increasing(IndexGroups(items, sim)[k])
    ensures SeedsEarliest(IndexGroups(items, sim))
  {
    var R := Range(0, |items|);
    var isim := Pull<nat, string>(sim, At(items));
    RangeIncreasing(0, |items|);
    LinkGroupsIncreasing(R, isim);
    LinkSeedsEarliest(R, isim);
  }

  // ---------------------------------------------------------------- strings

  /** `find_name_variants` returns no group exactly when no name is valid (in
      particular for no names at all). */
  lemma NameGroupsEmpty(names: seq<string>, score: Scorer, threshold: real)
    ensures NameGroups(names, score, threshold) == [] <==> forall x :: x in names ==> !IsValidName(x)
  {
    var valid := Filter(names, IsValidName);
    if valid != [] {
      assert valid[0] in valid;
    }
  }

  /** The name groups rearrange the valid names, keeping repeats; every member is
      a valid name and no group is empty. */
  lemma NameGroupsPartition(names: seq<string>, score: Scorer, threshold: real)
    ensures multiset(Flatten(NameGroups(names, score, threshold))) == multiset(Filter(names, IsValidName))
    ensures forall k, x ::
      0 <= k < |NameGroups(names, score, threshold)| && x in NameGroups(names, score, threshold)[k] ==> x in names && IsValidName(x)
    ensures forall k :: 0 <= k < |NameGroups(names, score, threshold)| ==> |NameGroups(names, score, threshold)[k]| > 0
  {
    var valid := Filter(names, IsValidName);
    LinkPermutes(valid, Similar(NormalizeName, score, threshold));
    LinkElements(valid, Similar(NormalizeName, score, threshold));
  }

  /** Each non-seed member of a name group scores above the threshold against
      its seed, and no member of a later group does against an earlier seed. */
  lemma NameGroupsSeeded(names: seq<string>, score: Scorer, threshold: real)
    ensures NearSeeds(NameGroups(names, score, threshold), Similar(NormalizeName, score, threshold))
    ensures FarFromEarlierSeeds(NameGroups(names, score, threshold), Similar(NormalizeName, score, threshold))
  {
    LinkSeeded(Filter(names, IsValidName), Similar(NormalizeName, score, threshold));
  }

  /** `find_number_variants` returns no group exactly for no numbers, and its
      groups rearrange all numbers, keeping repeats. */
  lemma NumberGroupsPartition(numbers: seq<string>, score: Scorer, threshold: real)
    ensures NumberGroups(numbers, score, threshold) == [] <==> numbers == []
    ensures multiset(Flatten(NumberGroups(numbers, score, threshold))) == multiset(numbers)
  {
    LinkPermutes(numbers, Similar(NormalizeNumber, score, threshold));
  }

  /** Number groups are seeded the same way, on normalised numbers. */
  lemma NumberGroupsSeeded(numbers: seq<string>, score: Scorer, threshold: real)
    ensures NearSeeds(NumberGroups(numbers, score, threshold), Similar(NormalizeNumber, score, threshold))
    ensures FarFromEarlierSeeds(NumberGroups(numbers, score, threshold), Similar(NormalizeNumber, score, threshold))
  {
    LinkSeeded(numbers, Similar(NormalizeNumber, score, threshold));
  }
}
