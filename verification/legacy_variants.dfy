/** `find_name_variants` and `find_number_variants` as methods of the
    `Anonymizer` class in `src/did/anonymizer.py` (lines 77-126): the same seed
    linkage, but visited items are tracked as a set of strings, so a repeated
    string is grouped once, and every item added behind a seed bumps a counter. */
module LegacyVariants {
  import opened Seqs
  import opened Similarity
  import opened Normalize
  import opened Linkage
  import opened Variants

  /** What the set-based `find_name_variants` returns: seed linkage over the
      distinct valid names, in first-seen order. */
  function DistinctNameGroups(names: seq<string>, score: Scorer, threshold: real): seq<seq<string>> {
    Link(Dedup(Filter(names, IsValidName)), Similar(NormalizeName, score, threshold))
  }

  /** What the set-based `find_number_variants` returns. */
  function DistinctNumberGroups(numbers: seq<string>, score: Scorer, threshold: real): seq<seq<string>> {
    Link(Dedup(numbers), Similar(NormalizeNumber, score, threshold))
  }

  // ---------------------------------------------------------------- the inner loop

  /** The items the inner loop appends while walking `xs`: each item neither
      processed nor far from the seed, marked processed as it is taken. */
  function Pick(xs: seq<string>, processed: set<string>, q: string -> bool): seq<string> {
    if xs == [] then []
    else if xs[0] !in processed && q(xs[0]) then [xs[0]] + Pick(xs[1..], processed + {xs[0]}, q)
    else Pick(xs[1..], processed, q)
  }

  /** The inner loop takes the first occurrences of the unprocessed items near
      the seed. */
  lemma {:induction false} PickIsFilterDedup(xs: seq<string>, processed: set<string>, q: string -> bool)
    ensures Pick(xs, processed, q) == Filter(DedupFrom(xs, processed), q)
  {
    if xs != [] {
      var x := xs[0];
      if x in processed {
        PickIsFilterDedup(xs[1..], processed, q);
      } else if q(x) {
        PickIsFilterDedup(xs[1..], processed + {x}, q);
      } else {
        PickIsFilterDedup(xs[1..], processed, q);
        DedupFromFilterIgnores(xs[1..], processed, x, q);
      }
    }
  }

  /** The inner loop: every unprocessed item that `near` accepts (its score
      against the seed exceeds the threshold) joins the seed's group, is marked
      processed, and bumps the counter. */
  method TakeUnprocessed(items: seq<string>, near: string -> bool, seed: string, processed: set<string>, found: nat)
    returns (variants: seq<string>, after: set<string>, found': nat)
    ensures variants == [seed] + Pick(items, processed, near)
    ensures after == processed + Elems(variants[1..])
    ensures found' == found + |variants| - 1
  {
    ghost var members: seq<string> := [];
    variants := [seed];
    after := processed;
    found' := found;
    for j := 0 to |items|
      invariant members + Pick(items[j..], after, near) == Pick(items, processed, near)
      invariant after == processed + Elems(members)
      invariant variants == [seed] + members
      invariant found' == found + |members|
    {
      var other := items[j];
      PickStep(items, j, after, near);
      if other !in after && near(other) {
        ElemsSnoc(members, other);
        AppendAssoc(members, [other], Pick(items[j + 1..], after + {other}, near));
        variants := variants + [other];
        after := after + {other};
        found' := found' + 1;
        members := members + [other];
      }
    }
    assert variants[1..] == members;
  }

  /** One step of the inner loop. */
  lemma PickStep(items: seq<string>, j: nat, after: set<string>, q: string -> bool)
    requires j < |items|
    ensures Pick(items[j..], after, q) ==
      if items[j] !in after && q(items[j]) then [items[j]] + Pick(items[j + 1..], after + {items[j]}, q)
      else Pick(items[j + 1..], after, q)
  {
    assert items[j..][1..] == items[j + 1..];
  }

  // ---------------------------------------------------------------- the outer loop

  /** Where the outer loop meets an unprocessed item, that item heads what is
      left to de-duplicate. */
  lemma SeedHeads(items: seq<string>, i: nat, processed: set<string>)
    requires i < |items| && items[i] !in processed
    requires forall k :: 0 <= k < i ==> items[k] in processed
    ensures DedupFrom(items, processed) == [items[i]] + DedupFrom(items, processed + {items[i]})
  {
    var seed, rest := items[i], items[i..];
    DedupFromSeenPrefix(items, i, processed);
    DedupFromSeenPrefix(items, i + 1, processed + {seed});
    assert rest != [] && rest[0] == seed && rest[1..] == items[i + 1..];
    assert DedupFrom(rest, processed) == [seed] + DedupFrom(rest[1..], processed + {seed});
  }

  /** The groups the outer loop appends from position `i` on, given the
      processed set: a step-by-step restatement of the loop. */
  function SetSweep(items: seq<string>, sim: (string, string) -> bool, i: nat, processed: set<string>): seq<seq<string>>
    requires i <= |items|
    decreases |items| - i
  {
    if i == |items| then []
    else if items[i] in processed then SetSweep(items, sim, i + 1, processed)
    else
      var seen := processed + {items[i]};
      var taken := Pick(items, seen, Near(sim, items[i]));
      [[items[i]] + taken] + SetSweep(items, sim, i + 1, seen + Elems(taken))
  }

  /** The outer loop's groups are those of seed linkage over the items still
      unprocessed, de-duplicated. */
  lemma {:induction false} SetSweepIsLink(items: seq<string>, sim: (string, string) -> bool, i: nat, processed: set<string>)
    requires i <= |items|
    requires forall k :: 0 <= k < i ==> items[k] in processed
    ensures SetSweep(items, sim, i, processed) == Link(DedupFrom(items, processed), sim)
    decreases |items| - i
  {
    if i == |items| {
      DedupFromAllSeen(items, processed);
    } else if items[i] in processed {
      SetSweepIsLink(items, sim, i + 1, processed);
    } else {
      var seed := items[i];
      var seen := processed + {seed};
      var taken := Pick(items, seen, Near(sim, seed));
      PickIsFilterDedup(items, seen, Near(sim, seed));
      SeedHeads(items, i, processed);
      assert DedupFrom(items, processed)[1..] == DedupFrom(items, seen);
      DedupFromMarkFiltered(items, seen, Near(sim, seed), Far(sim, seed));
      SetSweepIsLink(items, sim, i + 1, seen + Elems(taken));
    }
  }

  /** The seed-linkage loop of the set-based `find_name_variants` /
      `find_number_variants`, with the counter it bumps. */
  method SeedLinkBySet(items: seq<string>, key: string -> string, score: Scorer, threshold: real, found: nat)
    returns (groups: seq<seq<string>>, found': nat)
    ensures groups == Link(Dedup(items), Similar(key, score, threshold))
    ensures found' == found + |Dedup(items)| - |groups|
  {
    ghost var sim := Similar(key, score, threshold);
    var processed: set<string> := {};
    groups := [];
    found' := found;
    for i := 0 to |items|
      invariant groups + SetSweep(items, sim, i, processed) == SetSweep(items, sim, 0, {})
      invariant found' == found + |Flatten(groups)| - |groups|
    {
      var name := items[i];
      if name in processed {
        assert SetSweep(items, sim, i, processed) == SetSweep(items, sim, i + 1, processed);
        continue;
      }
      ghost var before := processed;
      processed := processed + {name};
      var variants;
      variants, processed, found' := TakeUnprocessed(items, Near(Similar(key, score, threshold), name), name, processed, found');
      assert SetSweep(items, sim, i, before) == [variants] + SetSweep(items, sim, i + 1, processed);
      assert (groups + [variants]) + SetSweep(items, sim, i + 1, processed) == groups + SetSweep(items, sim, i, before);
      FlattenSnoc(groups, variants);
      groups := groups + [variants];
    }
    SetSweepIsLink(items, sim, 0, {});
    LinkLength(Dedup(items), sim);
  }

  lemma FlattenSnoc(groups: seq<seq<string>>, g: seq<string>)
    ensures |Flatten(groups + [g])| == |Flatten(groups)| + |g|
  {
    FlattenAppend(groups, [g]);
    assert Flatten([g]) == g + Flatten([]);
  }

  // ---------------------------------------------------------------- the two entry points

  /** `Anonymizer.find_name_variants`: the groups, and `names_found` after the call. */
  method FindNameVariants(names: seq<string>, score: Scorer, threshold: real, namesFound: nat)
    returns (groups: seq<seq<string>>, namesFound': nat)
    ensures groups == DistinctNameGroups(names, score, threshold)
    ensures namesFound' == namesFound + |Dedup(Filter(names, IsValidName))| - |groups|
  {
    if |names| == 0 {
      return [], namesFound;
    }
    var valid := Filter(names, IsValidName);
    if |valid| == 0 {
      return [], namesFound;
    }
    groups, namesFound' := SeedLinkBySet(valid, NormalizeName, score, threshold, namesFound);
  }

  /** `Anonymizer.find_number_variants`: the groups, and `numbers_found` after the call. */
  method FindNumberVariants(numbers: seq<string>, score: Scorer, threshold: real, numbersFound: nat)
    returns (groups: seq<seq<string>>, numbersFound': nat)
    ensures groups == DistinctNumberGroups(numbers, score, threshold)
    ensures numbersFound' == numbersFound + |Dedup(numbers)| - |groups|
  {
    if |numbers| == 0 {
      return [], numbersFound;
    }
    groups, numbersFound' := SeedLinkBySet(numbers, NormalizeNumber, score, threshold, numbersFound);
  }

  // ---------------------------------------------------------------- properties

  /** The set-based version groups exactly what the index-based version would
      group after repeated names are removed. */
  lemma DistinctNameGroupsDedup(names: seq<string>, score: Scorer, threshold: real)
    ensures DistinctNameGroups(names, score, threshold) == NameGroups(Dedup(names), score, threshold)
  {
    DedupFilterCommute(names, {}, IsValidName);
  }

  /** On names without repeats both versions give the same groups. */
  lemma NameVersionsAgree(names: seq<string>, score: Scorer, threshold: real)
    requires Distinct(names)
    ensures DistinctNameGroups(names, score, threshold) == NameGroups(names, score, threshold)
  {
    DedupOfDistinct(names, {});
    DistinctNameGroupsDedup(names, score, threshold);
  }

  /** On numbers without repeats both versions give the same groups. */
  lemma NumberVersionsAgree(numbers: seq<string>, score: Scorer, threshold: real)
    requires Distinct(numbers)
    ensures DistinctNumberGroups(numbers, score, threshold) == NumberGroups(numbers, score, threshold)
  {
    DedupOfDistinct(numbers, {});
  }

  /** Each distinct valid name appears exactly once across all groups, and
      nothing else does; there is no group exactly when there is no valid name. */
  lemma DistinctNameGroupsPartition(names: seq<string>, score: Scorer, threshold: real)
    ensures Distinct(Flatten(DistinctNameGroups(names, score, threshold)))
    ensures forall x :: x in Flatten(DistinctNameGroups(names, score, threshold)) <==> x in names && IsValidName(x)
    ensures DistinctNameGroups(names, score, threshold) == [] <==> forall x :: x in names ==> !IsValidName(x)
  {
    var valid := Filter(names, IsValidName);
    var D := Dedup(valid);
    var sim := Similar(NormalizeName, score, threshold);
    DedupFromElems(valid, {});
    LinkPermutes(D, sim);
    DistinctPermutation(D, Flatten(Link(D, sim)));
    forall x ensures x in Flatten(Link(D, sim)) <==> x in names && IsValidName(x) {
      assert x in Flatten(Link(D, sim)) <==> x in multiset(D);
      assert x in D <==> x in Elems(D);
    }
    if valid != [] {
      assert valid[0] in Elems(D);
    }
  }

  /** Each distinct number appears exactly once across all groups, and nothing
      else does. */
  lemma DistinctNumberGroupsPartition(numbers: seq<string>, score: Scorer, threshold: real)
    ensures Distinct(Flatten(DistinctNumberGroups(numbers, score, threshold)))
    ensures forall x :: x in Flatten(DistinctNumberGroups(numbers, score, threshold)) <==> x in numbers
  {
    var D := Dedup(numbers);
    var sim := Similar(NormalizeNumber, score, threshold);
    DedupFromElems(numbers, {});
    LinkPermutes(D, sim);
    DistinctPermutation(D, Flatten(Link(D, sim)));
    forall x ensures x in Flatten(Link(D, sim)) <==> x in numbers {
      assert x in Flatten(Link(D, sim)) <==> x in multiset(D);
      assert x in D <==> x in Elems(D);
    }
  }

  /** Every non-first member scores above the threshold against its group's
      first element, and no later member does against an earlier one. */
  lemma DistinctGroupsSeeded(names: seq<string>, numbers: seq<string>, score: Scorer, threshold: real)
    ensures NearSeeds(DistinctNameGroups(names, score, threshold), Similar(NormalizeName, score, threshold))
    ensures FarFromEarlierSeeds(DistinctNameGroups(names, score, threshold), Similar(NormalizeName, score, threshold))
    ensures NearSeeds(DistinctNumberGroups(numbers, score, threshold), Similar(NormalizeNumber, score, threshold))
    ensures FarFromEarlierSeeds(DistinctNumberGroups(numbers, score, threshold), Similar(NormalizeNumber, score, threshold))
  {
    LinkSeeded(Dedup(Filter(names, IsValidName)), Similar(NormalizeName, score, threshold));
    LinkSeeded(Dedup(numbers), Similar(NormalizeNumber, score, threshold));
  }
}
