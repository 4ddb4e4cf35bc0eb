/** Seed linkage, the grouping rule shared by every `find_*_variants` of `did`:
    the earliest item not yet grouped seeds a new group, which takes every later
    ungrouped item that is similar TO THAT SEED (not to the group's other members);
    the items it does not take wait for the next seed. */
module Linkage {
  import opened Seqs

  /** The items `seed` takes into its group. */
  function Near<T>(sim: (T, T) -> bool, seed: T): T -> bool {
    y => sim(seed, y)
  }

  /** The items `seed` leaves for later groups. */
  function Far<T>(sim: (T, T) -> bool, seed: T): T -> bool {
    y => !sim(seed, y)
  }

  /** The groups seed linkage forms from `rem`, the ungrouped items in input order. */
  function Link<T>(rem: seq<T>, sim: (T, T) -> bool): (groups: seq<seq<T>>)
    ensures |groups| <= |rem|
    ensures |groups| == 0 <==> |rem| == 0
    ensures forall k :: 0 <= k < |groups| ==> |groups[k]| > 0
    decreases |rem|
  {
    if rem == [] then []
    else
      var seed := rem[0];
      [[seed] + Filter(rem[1..], Near(sim, seed))] + Link(Filter(rem[1..], Far(sim, seed)), sim)
  }

  /** `sim` read through `f`: items are similar when their images are. */
  function Pull<T, U>(sim: (U, U) -> bool, f: T -> U): (T, T) -> bool {
    (x, y) => sim(f(x), f(y))
  }

  function MapGroups<T, U>(groups: seq<seq<T>>, f: T -> U): (r: seq<seq<U>>)
    ensures |r| == |groups|
    ensures forall k :: 0 <= k < |groups| ==> r[k] == Map(groups[k], f)
  {
    if groups == [] then [] else [Map(groups[0], f)] + MapGroups(groups[1..], f)
  }

  // ---------------------------------------------------------------- partition

  /** The groups hold exactly the input items, each as often as in the input. */
  lemma MapGroupsSnoc<T, U>(groups: seq<seq<T>>, g: seq<T>, f: T -> U)
    ensures MapGroups(groups + [g], f) == MapGroups(groups, f) + [Map(g, f)]
  {
  }

  lemma {:induction false} LinkPermutes<T>(rem: seq<T>, sim: (T, T) -> bool)
    ensures multiset(Flatten(Link(rem, sim))) == multiset(rem)
    decreases |rem|
  {
    if rem != [] {
      var seed := rem[0];
      var near := Filter(rem[1..], Near(sim, seed));
      var far := Filter(rem[1..], Far(sim, seed));
      LinkPermutes(far, sim);
      FilterMultiset(rem[1..], Near(sim, seed), Far(sim, seed));
      assert rem == [seed] + rem[1..];
      assert Flatten(Link(rem, sim)) == ([seed] + near) + Flatten(Link(far, sim));
    }
  }

  lemma LinkLength<T>(rem: seq<T>, sim: (T, T) -> bool)
    ensures |Flatten(Link(rem, sim))| == |rem|
  {
    LinkPermutes(rem, sim);
    assert |multiset(Flatten(Link(rem, sim)))| == |multiset(rem)|;
  }

  /** An item is grouped exactly when it is an input item. */
  lemma {:induction false} LinkElements<T>(rem: seq<T>, sim: (T, T) -> bool)
    ensures forall k, y :: 0 <= k < |Link(rem, sim)| && y in Link(rem, sim)[k] ==> y in rem
    ensures forall y :: y in rem ==> exists k :: 0 <= k < |Link(rem, sim)| && y in Link(rem, sim)[k]
    decreases |rem|
  {
    if rem != [] {
      var seed := rem[0];
      var far := Filter(rem[1..], Far(sim, seed));
      var L := Link(rem, sim);
      LinkElements(far, sim);
      assert L[0] == [seed] + Filter(rem[1..], Near(sim, seed));
      forall k, y | 0 <= k < |L| && y in L[k] ensures y in rem {
        if k == 0 {
          assert y == seed || y in Filter(rem[1..], Near(sim, seed));
        } else {
          assert L[k] == Link(far, sim)[k - 1];
        }
      }
      forall y | y in rem ensures exists k :: 0 <= k < |L| && y in L[k] {
        if y == seed || sim(seed, y) {
          assert y in L[0];
        } else {
          assert y in rem[1..];
          assert y in far;
          var k :| 0 <= k < |Link(far, sim)| && y in Link(far, sim)[k];
          assert L[k + 1] == Link(far, sim)[k];
        }
      }
    }
  }

  /** Every member after the seed is similar to the seed. */
  lemma {:induction false} LinkMembersNearSeed<T>(rem: seq<T>, sim: (T, T) -> bool)
    ensures forall k, i :: 0 <= k < |Link(rem, sim)| && 0 < i < |Link(rem, sim)[k]| ==>
      sim(Link(rem, sim)[k][0], Link(rem, sim)[k][i])
    decreases |rem|
  {
    if rem != [] {
      var seed := rem[0];
      var far := Filter(rem[1..], Far(sim, seed));
      var L := Link(rem, sim);
      LinkMembersNearSeed(far, sim);
      forall k, i | 0 <= k < |L| && 0 < i < |L[k]| ensures sim(L[k][0], L[k][i]) {
        if k == 0 {
          var near := Filter(rem[1..], Near(sim, seed));
          assert L[0] == [seed] + near;
          assert L[0][i] == near[i - 1];
          assert near[i - 1] in near;
        } else {
          assert L[k] == Link(far, sim)[k - 1];
        }
      }
    }
  }

  /** An item in a later group is not similar to any earlier group's seed: the seed
      would have taken it. */
  lemma {:induction false} LinkLaterFarFromSeed<T>(rem: seq<T>, sim: (T, T) -> bool)
    ensures forall k, k', y :: 0 <= k < k' < |Link(rem, sim)| && y in Link(rem, sim)[k'] ==>
      !sim(Link(rem, sim)[k][0], y)
    decreases |rem|
  {
    if rem != [] {
      var seed := rem[0];
      var far := Filter(rem[1..], Far(sim, seed));
      var L := Link(rem, sim);
      LinkLaterFarFromSeed(far, sim);
      LinkElements(far, sim);
      forall k, k', y | 0 <= k < k' < |L| && y in L[k'] ensures !sim(L[k][0], y) {
        assert L[k'] == Link(far, sim)[k' - 1];
        if k == 0 {
          assert y in far;
        } else {
          assert L[k] == Link(far, sim)[k - 1];
        }
      }
    }
  }

  lemma DistinctCons<T>(x: T, s: seq<T>)
    requires Distinct(s) && x !in s
    ensures Distinct([x] + s)
  {
    var t := [x] + s;
    forall i, j | 0 <= i < j < |t| ensures t[i] != t[j] {
      assert t[j] == s[j - 1];
      if i > 0 {
        assert t[i] == s[i - 1];
      }
    }
  }

  /** No item is in two groups. */
  predicate Disjoint<T(==)>(groups: seq<seq<T>>) {
    forall k, k', y :: 0 <= k < |groups| && 0 <= k' < |groups| && y in groups[k] && y in groups[k'] ==> k == k'
  }

  /** No group repeats an item. */
  predicate EachDistinct<T(==)>(groups: seq<seq<T>>) {
    forall k :: 0 <= k < |groups| ==> Distinct(groups[k])
  }

  lemma DisjointCons<T>(g: seq<T>, rest: seq<seq<T>>)
    requires Disjoint(rest)
    requires forall k, y :: 0 <= k < |rest| && y in rest[k] ==> y !in g
    ensures Disjoint([g] + rest)
  {
    var G := [g] + rest;
    forall k, k', y | 0 <= k < |G| && 0 <= k' < |G| && y in G[k] && y in G[k'] ensures k == k' {
      if k > 0 {
        assert G[k] == rest[k - 1];
      }
      if k' > 0 {
        assert G[k'] == rest[k' - 1];
      }
    }
  }

  lemma EachDistinctCons<T>(g: seq<T>, rest: seq<seq<T>>)
    requires Distinct(g) && EachDistinct(rest)
    ensures EachDistinct([g] + rest)
  {
    var G := [g] + rest;
    forall k | 0 <= k < |G| ensures Distinct(G[k]) {
      if k > 0 {
        assert G[k] == rest[k - 1];
      }
    }
  }

  /** With distinct items, no item is in two groups, and no group repeats an item. */
  lemma {:induction false} LinkDisjoint<T>(rem: seq<T>, sim: (T, T) -> bool)
    requires Distinct(rem)
    ensures Disjoint(Link(rem, sim))
    ensures EachDistinct(Link(rem, sim))
    decreases |rem|
  {
    if rem != [] {
      var seed := rem[0];
      var near := Filter(rem[1..], Near(sim, seed));
      var far := Filter(rem[1..], Far(sim, seed));
      var F := Link(far, sim);
      FilterDistinct(rem[1..], Far(sim, seed));
      FilterDistinct(rem[1..], Near(sim, seed));
      LinkDisjoint(far, sim);
      LinkElements(far, sim);
      assert seed !in rem[1..];
      DistinctCons(seed, near);
      forall k, y | 0 <= k < |F| && y in F[k] ensures y !in [seed] + near {
        assert y in far;
        assert y in rem[1..];
      }
      DisjointCons([seed] + near, F);
      EachDistinctCons([seed] + near, F);
    }
  }

  // ---------------------------------------------------------------- order

  lemma HeadBelowTail(s: seq<nat>)
    requires Increasing(s) && s != []
    ensures forall y :: y in s[1..] ==> s[0] < y
  {
    forall y | y in s[1..] ensures s[0] < y {
      var j :| 0 <= j < |s[1..]| && s[1..][j] == y;
      assert s[j + 1] == y;
    }
  }

  lemma IncreasingCons(x: nat, s: seq<nat>)
    requires Increasing(s)
    requires forall y :: y in s ==> x < y
    ensures Increasing([x] + s)
  {
    var t := [x] + s;
    forall i, j | 0 <= i < j < |t| ensures t[i] < t[j] {
      assert t[j] == s[j - 1];
      assert s[j - 1] in s;
      if i > 0 {
        assert t[i] == s[i - 1];
      }
    }
  }

  /** On increasing positions each group is increasing, so its seed is its
      smallest member. */
  lemma {:induction false} LinkGroupsIncreasing(rem: seq<nat>, sim: (nat, nat) -> bool)
    requires Increasing(rem)
    ensures forall k :: 0 <= k < |Link(rem, sim)| ==> Increasing(Link(rem, sim)[k])
    decreases |rem|
  {
    if rem != [] {
      var seed := rem[0];
      var near := Filter(rem[1..], Near<nat>(sim, seed));
      var far := Filter(rem[1..], Far<nat>(sim, seed));
      var L := Link(rem, sim);
      FilterIncreasing(rem[1..], Far<nat>(sim, seed));
      LinkGroupsIncreasing(far, sim);
      FilterIncreasing(rem[1..], Near<nat>(sim, seed));
      HeadBelowTail(rem);
      IncreasingCons(seed, near);
      assert L[0] == [seed] + near;
      forall k | 0 <= k < |L| ensures Increasing(L[k]) {
        if k > 0 {
          assert L[k] == Link(far, sim)[k - 1];
        }
      }
    }
  }

  /** Every member of a later group comes after the seed of every earlier group. */
  predicate SeedsPrecede(groups: seq<seq<nat>>) {
    forall k, k', y :: 0 <= k < k' < |groups| && y in groups[k'] ==> 0 < |groups[k]| && groups[k][0] < y
  }

  lemma SeedsPrecedeCons(g: seq<nat>, rest: seq<seq<nat>>)
    requires |g| > 0 && SeedsPrecede(rest)
    requires forall k, y :: 0 <= k < |rest| && y in rest[k] ==> g[0] < y
    ensures SeedsPrecede([g] + rest)
  {
    var G := [g] + rest;
    forall k, k', y | 0 <= k < k' < |G| && y in G[k'] ensures 0 < |G[k]| && G[k][0] < y {
      assert G[k'] == rest[k' - 1];
      if k > 0 {
        assert G[k] == rest[k - 1];
      }
    }
  }

  /** On increasing positions every member of a later group comes after the seed
      of every earlier group. */
  lemma {:induction false} LinkSeedsPrecede(rem: seq<nat>, sim: (nat, nat) -> bool)
    requires Increasing(rem)
    ensures SeedsPrecede(Link(rem, sim))
    decreases |rem|
  {
    if rem != [] {
      var seed := rem[0];
      var far := Filter(rem[1..], Far<nat>(sim, seed));
      var F := Link(far, sim);
      FilterIncreasing(rem[1..], Far<nat>(sim, seed));
      LinkSeedsPrecede(far, sim);
      LinkElements(far, sim);
      HeadBelowTail(rem);
      forall k, y | 0 <= k < |F| && y in F[k] ensures seed < y {
        assert y in far;
      }
      SeedsPrecedeCons([seed] + Filter(rem[1..], Near<nat>(sim, seed)), F);
    }
  }

  /** Every member after a group's seed is similar to that seed. */
  predicate NearSeeds<T>(groups: seq<seq<T>>, sim: (T, T) -> bool) {
    forall k, i :: 0 <= k < |groups| && 0 < i < |groups[k]| ==> sim(groups[k][0], groups[k][i])
  }

  /** No member of a later group is similar to the seed of an earlier group. */
  predicate FarFromEarlierSeeds<T(==)>(groups: seq<seq<T>>, sim: (T, T) -> bool) {
    forall k, k', y :: 0 <= k < k' < |groups| && y in groups[k'] ==> 0 < |groups[k]| && !sim(groups[k][0], y)
  }

  /** Seed linkage relates each member to its seed, and to earlier seeds, and
      says nothing about two non-seed members. */
  lemma LinkSeeded<T>(rem: seq<T>, sim: (T, T) -> bool)
    ensures NearSeeds(Link(rem, sim), sim)
    ensures FarFromEarlierSeeds(Link(rem, sim), sim)
  {
    LinkMembersNearSeed(rem, sim);
    LinkLaterFarFromSeed(rem, sim);
  }

  /** The seed of group `k` is the least member of groups `k, k+1, ...`. */
  predicate SeedsEarliest(groups: seq<seq<nat>>) {
    forall k, p :: 0 <= k < |groups| && p in Flatten(groups[k..]) ==> 0 < |groups[k]| && groups[k][0] <= p
  }

  /** On increasing positions each seed is the least position not taken by an
      earlier group. */
  lemma LinkSeedsEarliest(rem: seq<nat>, sim: (nat, nat) -> bool)
    requires Increasing(rem)
    ensures SeedsEarliest(Link(rem, sim))
  {
    var L := Link(rem, sim);
    LinkGroupsIncreasing(rem, sim);
    LinkSeedsPrecede(rem, sim);
    forall k: nat, p: nat | 0 <= k < |L| && p in Flatten(L[k..]) ensures 0 < |L[k]| && L[k][0] <= p {
      var tail := L[k..];
      FlattenMember(tail, p);
      var j: nat :| j < |tail| && p in tail[j];
      assert tail[j] == L[k + j];
      if j == 0 {
        var m :| 0 <= m < |L[k]| && L[k][m] == p;
        assert m == 0 || L[k][0] < L[k][m];
      }
    }
  }

  // ---------------------------------------------------------------- relabelling

  /** Grouping positions by the similarity of the items at those positions, then
      reading off the items, groups the items themselves. */
  lemma {:induction false} LinkMap<T, U>(rem: seq<T>, f: T -> U, sim: (U, U) -> bool)
    ensures MapGroups(Link(rem, Pull(sim, f)), f) == Link(Map(rem, f), sim)
    decreases |rem|
  {
    if rem != [] {
      var seed := rem[0];
      var psim := Pull(sim, f);
      var far := Filter(rem[1..], Far(psim, seed));
      var mrem := Map(rem, f);
      assert mrem[0] == f(seed);
      assert mrem[1..] == Map(rem[1..], f);
      FilterMap(rem[1..], f, Near(sim, f(seed)), Near(psim, seed));
      FilterMap(rem[1..], f, Far(sim, f(seed)), Far(psim, seed));
      LinkMap(far, f, sim);
      var near := Filter(rem[1..], Near(psim, seed));
      MapCons(seed, near, f);
    }
  }
}
