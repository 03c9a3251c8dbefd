/** The iterator over all subsets of one size, on words of machine arithmetic.  Its step adds the
    lowest set bit, which flips the lowest run of bits and the bit after it, and then switches on
    as many bits at the bottom as were lost, counting the flipped bits. */
module SizedSubsets {
  import opened SmallBitset

  /** How a build counts the flipped bits: by an instruction that extracts them, or by the portable
      population count, which takes a word of 32 bits. */
  datatype Build = BitExtract | PopulationCount

  // --------------------------------------------------------------------- one step on sets

  /** `s` after adding its lowest set bit: the carry clears the lowest run and sets the index
      after it. */
  function Carried(s: Subproblem): (r: Subproblem)
    requires s != {}
    ensures forall x: nat :: x in r <==> x == RunEnd(s, Min(s)) || (x > RunEnd(s, Min(s)) && x in s)
  {
    var e := RunEnd(s, Min(s));
    {e} + set x | x in s && x > e
  }

  function Flipped(s: Subproblem): (m: Subproblem)
    requires s != {}
    ensures forall x: nat :: x in m <==> Min(s) <= x <= RunEnd(s, Min(s))
  {
    (Carried(s) - s) + (s - Carried(s))
  }

  /** The number of bits of the word `m` that the build sees. */
  function Counted(build: Build, m: Subproblem): nat {
    match build
    case BitExtract => |m|
    case PopulationCount => |LowWord(m)|
  }

  function LowWord(m: Subproblem): Subproblem {
    set x | x in m && x < 32
  }

  function LessTwo(p: nat): nat {
    if p < 2 then 0 else p - 2
  }

  /** The set that a step goes to. */
  function Following(build: Build, s: Subproblem): Subproblem {
    if s == {} then {} else Carried(s) + Below(LessTwo(Counted(build, Flipped(s))))
  }

  lemma IntervalSize(s: Subproblem, c: nat, e: nat)
    requires c <= e && forall x: nat :: x in s <==> c <= x < e
    ensures |s| == e - c
  {
    if c < e {
      IntervalSize(s - {e - 1}, c, e - 1);
    }
  }

  /** All flipped bits are seen if they lie below bit 32 or are extracted. */
  lemma CountedBits(build: Build, s: Subproblem)
    requires s != {}
    ensures var c, e := Min(s), RunEnd(s, Min(s));
            && c < e
            && Counted(build, Flipped(s)) <= e - c + 1
            && (Counted(build, Flipped(s)) == e - c + 1 <==> build.BitExtract? || e < 32)
  {
    var c, e := Min(s), RunEnd(s, Min(s));
    assert e - 1 in s;
    hide RunEnd, Min, Below, Carried, Flipped;
    IntervalSize(Flipped(s), c, e + 1);
    if build.PopulationCount? {
      LowPart(Flipped(s), c, e + 1);
    }
  }

  lemma LowPart(m: Subproblem, c: nat, e: nat)
    requires c < e && forall x: nat :: x in m <==> c <= x < e
    ensures |LowWord(m)| <= e - c && (|LowWord(m)| == e - c <==> e <= 32)
  {
    var low := LowWord(m);
    if e <= 32 {
      IntervalSize(low, c, e);
    } else if c < 32 {
      IntervalSize(low, c, 32);
    } else {
      assert low == {};
    }
  }

  lemma NextInParts(s: Subproblem)
    requires s != {}
    ensures var c, e := Min(s), RunEnd(s, Min(s));
            c < e && NextOfSize(s) == Carried(s) + Below(e - c - 1)
  {
    var c, e := Min(s), RunEnd(s, Min(s));
    assert e - 1 in s;
    NextOfSizeMembers(s, c, e);
  }

  /** A build goes to the next set of the same size exactly when it sees all flipped bits or there
      are only two; otherwise it goes to a part of that set. */
  lemma FollowingIsNextIff(build: Build, s: Subproblem)
    requires s != {}
    ensures var c, e := Min(s), RunEnd(s, Min(s));
            Following(build, s) == NextOfSize(s) <==> build.BitExtract? || e < 32 || e == c + 1
    ensures Following(build, s) <= NextOfSize(s)
  {
    hide NextOfSize, RunEnd, Min, Below, Carried, Flipped, Counted;
    var c, e := Min(s), RunEnd(s, Min(s));
    CountedBits(build, s);
    NextInParts(s);
    PartOfNext(Carried(s), LessTwo(Counted(build, Flipped(s))), e - c - 1);
  }

  lemma PartOfNext(high: Subproblem, seen: nat, all: nat)
    requires seen <= all && forall x | x in high :: all < x
    ensures high + Below(seen) <= high + Below(all)
    ensures high + Below(seen) == high + Below(all) <==> seen == all
  {
    hide Below;
    if seen < all {
      assert all - 1 in high + Below(all) && all - 1 !in high + Below(seen);
    }
  }

  /** The portable step behind the relations 30 and 31 loses an element. */
  lemma PortableLosesElement()
    ensures NextOfSize({30, 31}) == {0, 32}
    ensures Following(PopulationCount, {30, 31}) == {32}
    ensures Following(BitExtract, {30, 31}) == {0, 32}
  {
    var s: Subproblem := {30, 31};
    RunOf(s, 30, 32);
    FollowingIsNextIff(PopulationCount, s);
    FollowingIsNextIff(BitExtract, s);
    FollowingGrows(PopulationCount, s, 32);
    NextOfSizeMembers(s, 30, 32);
    hide *;
    OneElement(NextOfSize(s), Following(PopulationCount, s));
  }

  lemma OneElement(next: Subproblem, part: Subproblem)
    requires forall x: nat :: x in next <==> x == 32 || (x > 32 && x in {30, 31}) || x < 1
    requires part <= next && 32 in part && part != next
    ensures next == {0, 32} && part == {32}
  {
    assert next == {0, 32};
  }

  lemma RunOf(s: Subproblem, c: nat, e: nat)
    requires c < e && forall x: nat :: x in s <==> c <= x < e
    ensures s != {} && Min(s) == c && RunEnd(s, c) == e && |s| == e - c
  {
    IntervalSize(s, c, e);
    assert c in s;
    assert Min(s) == c;
    var r := RunEnd(s, c);
    assert r > e ==> e in s;
  }

  /** A step never grows the set, and moves to a greater number. */
  lemma FollowingStep(build: Build, s: Subproblem, n: nat)
    requires {} < s <= Below(n)
    ensures {} < Following(build, s) <= Below(n + 1) && |Following(build, s)| <= |s|
    ensures |Following(build, s)| == |s| <==> Following(build, s) == NextOfSize(s)
    ensures Value(s, n + 1) < Value(Following(build, s), n + 1)
  {
    var r, next := Following(build, s), NextOfSize(s);
    FollowingGrows(build, s, n);
    FollowingIsNextIff(build, s);
    NextOfSizeIsNext(s, s, n);
    hide *;
    SubsetSize(r, next);
  }

  lemma FollowingGrows(build: Build, s: Subproblem, n: nat)
    requires {} < s <= Below(n)
    ensures RunEnd(s, Min(s)) in Following(build, s) && Following(build, s) != {}
    ensures Value(s, n + 1) < Value(Following(build, s), n + 1)
  {
    hide *;
    RunEndWithin(s, n);
    GosperCarry(s, Carried(s), n + 1);
    CarriedPart(build, s);
    ValueSubset(Carried(s), Following(build, s), n + 1);
  }

  lemma CarriedPart(build: Build, s: Subproblem)
    requires s != {}
    ensures Carried(s) <= Following(build, s)
  {
    hide Carried, Counted, Flipped, Below;
  }

  lemma SubsetSize(a: Subproblem, b: Subproblem)
    requires a <= b
    ensures |a| <= |b| && (|a| == |b| <==> a == b)
  {
    assert b == a + (b - a);
    assert |b| == |a| + |b - a|;
    assert |b - a| == 0 ==> b - a == {};
  }

  lemma RunEndWithin(s: Subproblem, n: nat)
    requires {} < s <= Below(n)
    ensures Min(s) < RunEnd(s, Min(s)) <= n
  {
    var e := RunEnd(s, Min(s));
    assert e - 1 in s;
    assert e - 1 in Below(n);
  }

  lemma {:induction false} GosperCarry(s: Subproblem, high: Subproblem, k: nat)
    requires s != {} && RunEnd(s, Min(s)) < k
    requires forall x: nat | x < k :: x in high <==>
                                      x == RunEnd(s, Min(s)) || (x > RunEnd(s, Min(s)) && x in s)
    ensures Value(high, k) == Value(s, k) + Pow2(Min(s))
  {
    var c := Min(s);
    var e := RunEnd(s, c);
    if k == e + 1 {
      RunValue(s, c, e);
      ValueIgnoresAbove(high, {}, e);
      ValueZero(e);
    } else {
      GosperCarry(s, high, k - 1);
    }
  }

  // ------------------------------------------------------------- the walk over sets of one size

  /** The sets visited from `s` on, until the number of a set reaches `2^n`. */
  function Walk(build: Build, n: nat, s: Subproblem): seq<Subproblem>
    requires {} < s <= Below(n + 1)
    decreases Pow2(n + 1) - Value(s, n + 1)
  {
    StepFacts(build, s, n);
    if Value(s, n + 1) < Pow2(n) then [s] + Walk(build, n, Following(build, s)) else []
  }

  lemma WithinLimit(s: Subproblem, n: nat)
    requires s <= Below(n + 1)
    ensures Value(s, n + 1) < Pow2(n) <==> s <= Below(n)
  {
    ValueBound(s, n);
  }

  lemma StepFacts(build: Build, s: Subproblem, n: nat)
    requires {} < s <= Below(n + 1)
    ensures Value(s, n + 1) < Pow2(n) <==> s <= Below(n)
    ensures s <= Below(n) ==>
              var next := Following(build, s);
              && {} < next <= Below(n + 1) && |next| <= |s| && (|next| == |s| <==> next == NextOfSize(s))
              && Value(s, n + 1) < Value(next, n + 1) < Pow2(n + 1)
              && (n in next <==> n in NextOfSize(s))
  {
    hide *;
    WithinLimit(s, n);
    if s <= Below(n) {
      FollowingStep(build, s, n);
      ValueBound(Following(build, s), n + 1);
      BothLeave(build, s, n);
    }
  }

  lemma BothLeave(build: Build, s: Subproblem, n: nat)
    requires {} < s <= Below(n)
    ensures n in Following(build, s) <==> n in NextOfSize(s)
  {
    FollowingIsNextIff(build, s);
    FollowingGrows(build, s, n);
    NextInParts(s);
    RunEndWithin(s, n);
    hide *;
    assert n !in Below(n);
  }

  lemma WalkUnfolds(build: Build, n: nat, s: Subproblem)
    requires {} < s <= Below(n + 1)
    ensures s <= Below(n) ==>
              {} < Following(build, s) <= Below(n + 1) && Walk(build, n, s) == [s] + Walk(build, n, Following(build, s))
    ensures !(s <= Below(n)) ==> Walk(build, n, s) == []
  {
    StepFacts(build, s, n);
    hide Value, Pow2, Below, Following, NextOfSize;
  }

  /** All subsets of size `k` of the first `n` indices, each once, by ascending number. */
  ghost predicate Enumerates(visited: seq<Subproblem>, k: nat, n: nat) {
    (forall t: Subproblem :: t in visited <==> t <= Below(n) && |t| == k) && Ascending(visited, n)
  }

  ghost predicate Ascending(visited: seq<Subproblem>, n: nat) {
    forall i, j :: 0 <= i < j < |visited| ==> Value(visited[i], n + 1) < Value(visited[j], n + 1)
  }

  lemma {:induction false} WalkAscends(build: Build, n: nat, s: Subproblem)
    requires {} < s <= Below(n + 1)
    ensures Ascending(Walk(build, n, s), n)
    ensures forall t :: t in Walk(build, n, s) ==> t <= Below(n) && Value(s, n + 1) <= Value(t, n + 1) && |t| <= |s|
    decreases Pow2(n + 1) - Value(s, n + 1)
  {
    hide *;
    StepFacts(build, s, n);
    WalkUnfolds(build, n, s);
    if s <= Below(n) {
      WalkAscends(build, n, Following(build, s));
      AscendingFrom(s, Walk(build, n, Following(build, s)), n);
    } else {
      AscendingEmpty(n);
    }
  }

  lemma AscendingEmpty(n: nat)
    ensures Ascending([], n)
  {}

  lemma AscendingFrom(s: Subproblem, rest: seq<Subproblem>, n: nat)
    requires Ascending(rest, n) && forall t :: t in rest ==> Value(s, n + 1) < Value(t, n + 1)
    ensures Ascending([s] + rest, n)
  {
    hide Value;
    var all := [s] + rest;
    forall i, j | 0 <= i < j < |all| ensures Value(all[i], n + 1) < Value(all[j], n + 1) {
      assert all[j] == rest[j - 1] && rest[j - 1] in rest;
      assert i > 0 ==> all[i] == rest[i - 1];
    }
  }

  /** The sets of the size of `s` inside the first `n` indices that have a successor there are all
      stepped from correctly. */
  ghost predicate StepsRight(build: Build, k: nat, n: nat) {
    forall s: Subproblem :: {} < s <= Below(n) && |s| == k && NextOfSize(s) <= Below(n)
      ==> Following(build, s) == NextOfSize(s)
  }

  lemma {:induction false} WalkVisits(build: Build, k: nat, n: nat, s: Subproblem, t: Subproblem)
    requires {} < s <= Below(n + 1) && |s| == k && StepsRight(build, k, n)
    requires t <= Below(n) && |t| == k && Value(s, n + 1) <= Value(t, n + 1)
    ensures t in Walk(build, n, s)
    decreases Pow2(n + 1) - Value(s, n + 1)
  {
    SmallerIsWithin(s, t, n);
    StepFacts(build, s, n);
    WalkUnfolds(build, n, s);
    if s != t {
      NotEqualNumber(s, t, n);
      NextOfSizeIsNext(s, t, n);
      SmallerIsWithin(NextOfSize(s), t, n);
      hide Value, Pow2, Below, Following, NextOfSize, Walk;
      WalkVisits(build, k, n, Following(build, s), t);
    }
  }

  lemma SmallerIsWithin(s: Subproblem, t: Subproblem, n: nat)
    requires s <= Below(n + 1) && t <= Below(n) && Value(s, n + 1) <= Value(t, n + 1)
    ensures s <= Below(n)
  {
    WithinLimit(s, n);
    WithinLimit(t, n);
  }

  lemma NotEqualNumber(s: Subproblem, t: Subproblem, n: nat)
    requires s <= Below(n + 1) && t <= Below(n + 1) && s != t
    ensures Value(s, n + 1) != Value(t, n + 1)
  {
    if Value(s, n + 1) == Value(t, n + 1) {
      ValueInjective(s, t, n + 1);
    }
  }

  /** After one wrong step no set of the size is visited any more. */
  lemma {:induction false} WalkMisses(build: Build, n: nat, s: Subproblem, wrong: Subproblem)
    requires {} < s <= Below(n + 1) && {} < wrong <= Below(n)
    requires |s| == |wrong| && Value(s, n + 1) <= Value(wrong, n + 1)
    requires Following(build, wrong) != NextOfSize(wrong)
    ensures NextOfSize(wrong) !in Walk(build, n, s)
    decreases Pow2(n + 1) - Value(s, n + 1)
  {
    SmallerIsWithin(s, wrong, n);
    StepFacts(build, s, n);
    WalkUnfolds(build, n, s);
    NextOfSizeIsNext(wrong, wrong, n);
    NextOfSizeIsNext(s, wrong, n);
    WalkAscends(build, n, Following(build, s));
    NotLater(s, wrong, n);
    hide *;
    if |Following(build, s)| == |s| {
      WalkMisses(build, n, Following(build, s), wrong);
    }
  }

  lemma NotLater(s: Subproblem, t: Subproblem, n: nat)
    requires s <= Below(n + 1) && t <= Below(n + 1) && Value(s, n + 1) <= Value(t, n + 1)
    ensures s == t || Value(s, n + 1) < Value(t, n + 1)
  {
    if s != t {
      NotEqualNumber(s, t, n);
    }
  }

  /** The builds and numbers of relations for which all walks are right. */
  predicate Exact(build: Build, n: nat) {
    build.BitExtract? || n <= 32
  }

  /** The step of an exact build, as far as the walks go. */
  lemma ExactStep(build: Build, s: Subproblem, n: nat)
    requires {} < s <= Below(n) && Exact(build, n)
    ensures Following(build, s) == NextOfSize(s) || (n in Following(build, s) && n in NextOfSize(s))
  {
    hide Value, Pow2, Below;
    RunEndWithin(s, n);
    FollowingIsNextIff(build, s);
    assert RunEnd(s, Min(s)) in Following(build, s);
  }

  lemma SizeOne(s: Subproblem)
    requires |s| == 1
    ensures RunEnd(s, Min(s)) == Min(s) + 1
  {
    var c := Min(s);
    if c + 1 in s {
      SubsetSize({c, c + 1}, s);
    }
  }

  lemma FullSetIsLast(s: Subproblem, n: nat)
    requires {} < s <= Below(n) && |s| == n
    ensures !(NextOfSize(s) <= Below(n))
  {
    BelowSize(n);
    SubsetSize(s, Below(n));
    NextInParts(s);
    assert RunEnd(s, Min(s)) in NextOfSize(s);
  }

  lemma RightCases(build: Build, k: nat, n: nat)
    requires 1 <= k <= n && (Exact(build, n) || k == 1 || k == n)
    ensures StepsRight(build, k, n)
  {
    hide Value, Pow2;
    forall s: Subproblem | {} < s <= Below(n) && |s| == k && NextOfSize(s) <= Below(n)
      ensures Following(build, s) == NextOfSize(s)
    {
      if Exact(build, n) {
        ExactStep(build, s, n);
        assert n !in NextOfSize(s);
      } else if k == 1 {
        SizeOne(s);
        FollowingIsNextIff(build, s);
      } else {
        FullSetIsLast(s, n);
      }
    }
  }

  /** A set of size `k` whose lowest run ends at bit 32 or later. */
  function LongRun(k: nat): Subproblem {
    if k >= 32 then Below(k) else Below(32) - Below(32 - k)
  }

  lemma WrongCase(k: nat, n: nat)
    requires 2 <= k < n && n > 32
    ensures {} < LongRun(k) <= Below(n) && |LongRun(k)| == k
    ensures Following(PopulationCount, LongRun(k)) != NextOfSize(LongRun(k)) <= Below(n)
  {
    var s := LongRun(k);
    var c := if k >= 32 then 0 else 32 - k;
    assert forall x: nat :: x in s <==> c <= x < c + k;
    hide LongRun;
    RunOf(s, c, c + k);
    FollowingIsNextIff(PopulationCount, s);
    NextOfSizeMembers(s, c, c + k);
    hide NextOfSize, Following;
  }

  /** Walking from the first `k` indices visits exactly the sets of size `k`, each once, if and only
      if the build extracts bits, there are at most 32 indices, or the size is trivial. */
  lemma EnumeratesIff(build: Build, k: nat, n: nat)
    requires 1 <= k <= n
    ensures {} < Below(k) <= Below(n + 1)
    ensures Enumerates(Walk(build, n, Below(k)), k, n) <==> Exact(build, n) || k == 1 || k == n
  {
    var first := Below(k);
    assert 0 in first;
    BelowSize(k);
    WalkAscends(build, n, first);
    if Exact(build, n) || k == 1 || k == n {
      RightCases(build, k, n);
      AllVisited(build, k, n);
    } else {
      WrongCase(k, n);
      var wrong := LongRun(k);
      FirstOfSizeIsLeast(wrong, k, n + 1);
      WalkMisses(build, n, first, wrong);
      NextOfSizeIsNext(wrong, wrong, n);
    }
  }

  /** What is left for a portable walk over more than 32 indices: of the sets with at most one index
      missing it visits only the one without the last index, and the one with all. */
  ghost predicate Visitable(n: nat, s: Subproblem) {
    s <= Below(n) && |s| + 1 >= n ==> s == Below(n) || s + {n - 1} == Below(n)
  }

  lemma FirstIsVisitable(n: nat, k: nat)
    requires 1 <= k <= n
    ensures Visitable(n, Below(k))
  {
    BelowSize(k);
    if k + 1 == n {
      assert Below(k) + {n - 1} == Below(n);
    }
  }

  /** The walk from the set without the last index loses an element in its first step, as the run of
      that set ends behind bit 31; from then on all sets are too small. */
  lemma StepIsVisitable(build: Build, s: Subproblem, n: nat)
    requires {} < s <= Below(n) && !Exact(build, n) && Visitable(n, s)
    ensures Visitable(n, Following(build, s))
  {
    if |s| + 1 >= n {
      NearlyAll(s, n);
    }
    FollowingStep(build, s, n);
    FollowingIsNextIff(build, s);
    FollowingGrows(build, s, n);
    hide Following, NextOfSize, RunEnd, Min, Value;
    assert n !in Below(n);
  }

  lemma NearlyAll(s: Subproblem, n: nat)
    requires s <= Below(n) && n >= 2 && Visitable(n, s) && |s| + 1 >= n
    ensures s != {} && Min(s) == 0 && |s| <= n && RunEnd(s, 0) == |s| && (|s| == n <==> s == Below(n))
  {
    if s != Below(n) {
      MissesLast(s, n);
      RunOf(s, 0, n - 1);
    } else {
      RunOf(s, 0, n);
    }
  }

  lemma MissesLast(s: Subproblem, n: nat)
    requires s <= Below(n) && s != Below(n) && s + {n - 1} == Below(n) && n >= 1
    ensures forall x: nat :: x in s <==> 0 <= x < n - 1
  {
    assert n - 1 !in s;
    forall x: nat ensures x in s <==> 0 <= x < n - 1 {
      assert x in s + {n - 1} <==> x in Below(n);
    }
  }

  lemma {:induction false} PortableWalkVisits(n: nat, s: Subproblem)
    requires n > 32 && {} < s <= Below(n + 1) && Visitable(n, s)
    ensures forall t :: t in Walk(PopulationCount, n, s) ==> Visitable(n, t)
    decreases Pow2(n + 1) - Value(s, n + 1)
  {
    hide Value, Pow2, Below, Following, Visitable, Walk;
    StepFacts(PopulationCount, s, n);
    WalkUnfolds(PopulationCount, n, s);
    if s <= Below(n) {
      StepIsVisitable(PopulationCount, s, n);
      PortableWalkVisits(n, Following(PopulationCount, s));
    }
  }

  lemma AllVisited(build: Build, k: nat, n: nat)
    requires 1 <= k <= n && StepsRight(build, k, n) && {} < Below(k) <= Below(n + 1)
    ensures Enumerates(Walk(build, n, Below(k)), k, n)
  {
    BelowSize(k);
    WalkAscends(build, n, Below(k));
    forall t: Subproblem ensures t in Walk(build, n, Below(k)) <==> t <= Below(n) && |t| == k {
      VisitedIff(build, k, n, t);
    }
  }

  lemma VisitedIff(build: Build, k: nat, n: nat, t: Subproblem)
    requires 1 <= k <= n && StepsRight(build, k, n) && {} < Below(k) <= Below(n + 1)
    ensures t in Walk(build, n, Below(k)) <==> t <= Below(n) && |t| == k
  {
    hide *;
    BelowSize(k);
    WalkAscends(build, n, Below(k));
    BelowWider(n, n + 1);
    if t <= Below(n) && |t| == k {
      FirstOfSizeIsLeast(t, k, n + 1);
      WalkVisits(build, k, n, Below(k), t);
    } else if t in Walk(build, n, Below(k)) {
      VisitedSize(build, k, n, Below(k), t);
    }
  }

  lemma {:induction false} VisitedSize(build: Build, k: nat, n: nat, s: Subproblem, t: Subproblem)
    requires {} < s <= Below(n + 1) && |s| == k && StepsRight(build, k, n)
    requires t in Walk(build, n, s)
    ensures |t| == k
    decreases Pow2(n + 1) - Value(s, n + 1)
  {
    hide *;
    StepFacts(build, s, n);
    WalkUnfolds(build, n, s);
    if t != s {
      WalkUnfolds(build, n, Following(build, s));
      RightStep(build, k, n, s);
      VisitedSize(build, k, n, Following(build, s), t);
    }
  }

  lemma RightStep(build: Build, k: nat, n: nat, s: Subproblem)
    requires {} < s <= Below(n) && |s| == k && StepsRight(build, k, n)
    ensures Following(build, s) <= Below(n) ==> |Following(build, s)| == k
  {
    NextOfSizeIsNext(s, s, n);
    StepFacts(build, s, n);
    LastIndex(NextOfSize(s), n);
    hide Value, Pow2, Below, Following, NextOfSize;
  }

  lemma LastIndex(s: Subproblem, n: nat)
    requires s <= Below(n + 1)
    ensures n in s <==> !(s <= Below(n))
  {}

  // ------------------------------------------------------------ the arithmetic on machine words

  function BitXor(x: nat, y: nat, w: nat): (r: nat)
    requires x < Pow2(w) && y < Pow2(w)
    ensures r < Pow2(w)
  {
    var a, b := FromBits(x, w), FromBits(y, w);
    ValueBound((a - b) + (b - a), w);
    Value((a - b) + (b - a), w)
  }

  function BitOr(x: nat, y: nat, w: nat): (r: nat)
    requires x < Pow2(w) && y < Pow2(w)
    ensures r < Pow2(w)
  {
    ValueBound(FromBits(x, w) + FromBits(y, w), w);
    Value(FromBits(x, w) + FromBits(y, w), w)
  }

  function PopCount(x: nat, w: nat): (p: nat)
    requires x < Pow2(w)
    ensures p <= w
  {
    BelowSize(w);
    SubsetSize(FromBits(x, w), Below(w));
    |FromBits(x, w)|
  }

  /** As many low bits as the build counts in `m`. */
  function Ones(build: Build, m: nat, w: nat): (r: nat)
    requires 32 <= w && m < Pow2(w)
    ensures r < Pow2(w)
  {
    var p := match build
             case BitExtract => PopCount(m, w)
             case PopulationCount => PopCount(m % Pow2(32), 32);
    Pow2Monotone(p, w);
    Pow2(p) - 1
  }

  /** The step on words of `w` bits: `r = s + (s & -s)`, `m = r ^ s`, and `r | (ones >> 2)`. */
  function Increment(build: Build, s: nat, w: nat): (next: nat)
    requires 32 <= w && s < Pow2(w)
    ensures next < Pow2(w)
  {
    var r := (s + BitAnd(s, Negate(s, w), w)) % Pow2(w);
    BitOr(Ones(build, BitXor(r, s, w), w) / 4, r, w)
  }

  lemma {:induction false} LowBits(m: Subproblem, w: nat, k: nat)
    requires k <= w
    ensures Value(m, w) % Pow2(k) == Value(m, k)
    decreases w
  {
    ValueBound(m, k);
    if k == w {
      SmallRemainder(Value(m, k), Pow2(k));
    } else {
      LowBits(m, w - 1, k);
      BitAbove(m, w - 1, k);
    }
    hide *;
  }

  lemma BitAbove(m: Subproblem, w: nat, k: nat)
    requires k <= w
    ensures Value(m, w + 1) % Pow2(k) == Value(m, w) % Pow2(k)
  {
    PowerSplit(k, w);
    hide Pow2;
    assert Value(m, w + 1) == Value(m, w) + if w in m then Pow2(w) else 0;
    hide Value;
    MultipleRemainder(Value(m, w), Pow2(k), Pow2(w - k));
  }

  lemma PowerSplit(k: nat, w: nat)
    requires k <= w
    ensures Pow2(w) == Pow2(k) * Pow2(w - k)
  {
    if k < w {
      PowerSplit(k, w - 1);
      assert Pow2(w - k) == 2 * Pow2(w - k - 1);
    }
  }

  lemma MultipleRemainder(x: nat, a: nat, b: nat)
    requires a > 0
    ensures (x + a * b) % a == x % a
  {
    var q := x / a;
    assert x + a * b == a * (q + b) + x % a;
    RemainderUnique(x + a * b, a, q + b, x % a);
  }

  lemma RemainderUnique(x: nat, a: nat, q: nat, r: nat)
    requires r < a && x == a * q + r
    ensures x % a == r
  {
    var d := x / a - q;
    assert x == a * (x / a) + x % a;
    assert a * (x / a) == a * q + a * d;
    assert d >= 1 ==> a * d >= a;
    assert d <= -1 ==> a * d + a <= 0;
  }

  lemma CountedOnWords(build: Build, m: Subproblem, w: nat)
    requires 32 <= w && m <= Below(w)
    ensures Value(m, w) < Pow2(w) && Ones(build, Value(m, w), w) == Pow2(Counted(build, m)) - 1
    ensures Counted(build, m) <= w
  {
    FromBitsOfValue(m, w);
    LowBits(m, w, 32);
    LowWordBits(m, 32);
    hide Pow2, Below, Value, FromBits, LowWord;
  }

  lemma LowWordBits(m: Subproblem, k: nat)
    requires k == 32
    ensures Value(m, k) < Pow2(k) && FromBits(Value(m, k), k) == LowWord(m)
  {
    hide Pow2, Below;
    ValueIgnoresAbove(m, LowWord(m), k);
    assert LowWord(m) <= Below(k);
    FromBitsOfValue(LowWord(m), k);
  }

  lemma ShiftedOnes(p: nat, w: nat)
    requires p <= w
    ensures (Pow2(p) - 1) / 4 == Value(Below(LessTwo(p)), w)
  {
    ValueBelow(LessTwo(p), w);
    hide Value, Below;
    assert p >= 2 ==> Pow2(p) == 4 * Pow2(p - 2);
  }

  lemma OrOnWords(a: Subproblem, b: Subproblem, w: nat)
    requires a <= Below(w) && b <= Below(w)
    ensures Value(a, w) < Pow2(w) && Value(b, w) < Pow2(w) && BitOr(Value(a, w), Value(b, w), w) == Value(a + b, w)
  {
    FromBitsOfValue(a, w);
    FromBitsOfValue(b, w);
    hide Value, Pow2, FromBits, Below;
  }

  lemma XorOnWords(a: Subproblem, b: Subproblem, w: nat)
    requires a <= Below(w) && b <= Below(w)
    ensures Value(a, w) < Pow2(w) && Value(b, w) < Pow2(w)
    ensures BitXor(Value(a, w), Value(b, w), w) == Value((a - b) + (b - a), w)
  {
    FromBitsOfValue(a, w);
    FromBitsOfValue(b, w);
    hide Value, Pow2, FromBits, Below;
  }

  lemma CarryOnWords(s: Subproblem, w: nat)
    requires {} < s && RunEnd(s, Min(s)) < w && s <= Below(w)
    ensures Value(s, w) < Pow2(w) && Carried(s) <= Below(w)
    ensures (Value(s, w) + BitAnd(Value(s, w), Negate(Value(s, w), w), w)) % Pow2(w) == Value(Carried(s), w)
  {
    LeastSubsetOnWords(s, w);
    LeastNumber(s, w);
    GosperCarry(s, Carried(s), w);
    ValueBound(Carried(s), w);
    hide *;
    SmallRemainder(Value(Carried(s), w), Pow2(w));
  }

  lemma SmallRemainder(x: nat, a: nat)
    requires x < a
    ensures x % a == x
  {}

  lemma LeastNumber(s: Subproblem, w: nat)
    requires {} < s <= Below(w)
    ensures Value(LeastSubset(s), w) == Pow2(Min(s))
  {
    ValueSingleton(Min(s), w);
    assert Min(s) in Below(w);
  }

  /** The words of both builds spell the set that the step goes to, as long as the carry stays
      within the word. */
  lemma IncrementOnWords(build: Build, s: Subproblem, w: nat)
    requires 32 <= w && s <= Below(w) && (s != {} ==> RunEnd(s, Min(s)) < w)
    ensures Value(s, w) < Pow2(w) && Following(build, s) <= Below(w)
    ensures Increment(build, Value(s, w), w) == Value(Following(build, s), w)
  {
    FromBitsOfValue(s, w);
    if s == {} {
      IncrementNothing(build, w);
    } else {
      IncrementSome(build, s, w);
    }
  }

  lemma IncrementParts(build: Build, s: nat, r: nat, m: nat, w: nat)
    requires 32 <= w && s < Pow2(w) && r == (s + BitAnd(s, Negate(s, w), w)) % Pow2(w) && m == BitXor(r, s, w)
    ensures Increment(build, s, w) == BitOr(Ones(build, m, w) / 4, r, w)
  {
    hide Value, Pow2, FromBits, BitOr, BitXor, Ones, BitAnd, Negate;
  }

  lemma IncrementNothing(build: Build, w: nat)
    requires 32 <= w
    ensures Value({}, w) == 0 && Increment(build, 0, w) == 0
  {
    hide *;
    ZeroWord(w);
    SmallRemainder(0, Pow2(w));
    XorOnWords({}, {}, w);
    var none: Subproblem := {};
    assert (none - none) + (none - none) == none;
    IncrementParts(build, 0, 0, 0, w);
    NothingCounted(build, w);
    OrOnWords({}, {}, w);
    assert none + none == none;
  }

  lemma ZeroWord(w: nat)
    ensures Value({}, w) == 0 && BitAnd(0, Negate(0, w), w) == 0
  {
    ValueZero(w);
    FromBitsOfValue({}, w);
  }

  lemma NothingCounted(build: Build, w: nat)
    requires 32 <= w
    ensures Ones(build, 0, w) / 4 == 0
  {
    ValueZero(w);
    CountedOnWords(build, {}, w);
    ShiftedOnes(0, w);
    hide Value, Ones;
  }

  lemma IncrementSome(build: Build, s: Subproblem, w: nat)
    requires 32 <= w && {} < s <= Below(w) && RunEnd(s, Min(s)) < w
    ensures Value(s, w) < Pow2(w) && Following(build, s) <= Below(w)
    ensures Increment(build, Value(s, w), w) == Value(Following(build, s), w)
  {
    hide *;
    FollowingMeans(build, s);
    CarryOnWords(s, w);
    XorOnWords(Carried(s), s, w);
    OnesOfStep(build, s, w);
    IncrementParts(build, Value(s, w), Value(Carried(s), w), Value(Flipped(s), w), w);
    OrOnWords(Below(LessTwo(Counted(build, Flipped(s)))), Carried(s), w);
    UnionWithin(Carried(s), Below(LessTwo(Counted(build, Flipped(s)))), Below(w));
  }

  lemma UnionWithin(a: Subproblem, b: Subproblem, all: Subproblem)
    requires a <= all && b <= all
    ensures a + b == b + a <= all
  {}

  lemma OnesOfStep(build: Build, s: Subproblem, w: nat)
    requires 32 <= w && {} < s <= Below(w) && Carried(s) <= Below(w)
    ensures var low := Below(LessTwo(Counted(build, Flipped(s))));
            && low <= Below(w) && Value(Flipped(s), w) < Pow2(w)
            && Ones(build, Value(Flipped(s), w), w) / 4 == Value(low, w)
  {
    hide *;
    FlippedWithin(s, w);
    CountedOnWords(build, Flipped(s), w);
    ShiftedOnes(Counted(build, Flipped(s)), w);
    LessTwoBound(Counted(build, Flipped(s)), w);
    BelowWider(LessTwo(Counted(build, Flipped(s))), w);
  }

  lemma FollowingMeans(build: Build, s: Subproblem)
    requires s != {}
    ensures Following(build, s) == Carried(s) + Below(LessTwo(Counted(build, Flipped(s))))
    ensures Flipped(s) == (Carried(s) - s) + (s - Carried(s))
  {}

  lemma FlippedWithin(s: Subproblem, w: nat)
    requires {} < s <= Below(w) && Carried(s) <= Below(w)
    ensures Flipped(s) <= Below(w)
  {
    hide RunEnd, Carried, Min, Below;
  }

  lemma LessTwoBound(p: nat, w: nat)
    requires p <= w
    ensures LessTwo(p) <= w
  {}

  lemma BelowWider(k: nat, n: nat)
    requires k <= n
    ensures Below(k) <= Below(n)
  {}

  // ------------------------------------------------------------------------------ the iterator

  /** The iterator with its two words: the current set and the number that ends the enumeration. */
  class GospersHack {
    const build: Build
    const n: nat
    const limit: nat
    var word: nat

    ghost predicate Valid()
      reads this
    {
      n < 64 && limit == Pow2(n) && word < Pow2(64)
    }

    function Current(): Subproblem
      requires Valid()
      reads this
    {
      FromBits(word, 64)
    }

    /** Enumerates the subsets of size `k` of `n` elements. */
    constructor EnumerateAll(build: Build, k: nat, n: nat)
      requires k <= n < 64
      ensures Valid() && Current() == Below(k) && this.build == build && this.n == n
    {
      this.build, this.n := build, n;
      word, limit := Pow2(k) - 1, Pow2(n);
      new;
      hide Pow2, Value, FromBits;
      FirstWord(k, 64);
    }

    /** Enumerates the remaining sets of the same size from `s` on. */
    constructor EnumerateFrom(build: Build, s: Subproblem, n: nat)
      requires n < 64 && s <= Below(64) && Value(s, 64) <= Pow2(n)
      ensures Valid() && Current() == s && this.build == build && this.n == n
    {
      this.build, this.n := build, n;
      word, limit := Value(s, 64), Pow2(n);
      new;
      hide Pow2, Value, FromBits;
      FromBitsOfValue(s, 64);
    }

    /** Whether the current set is one to visit. */
    predicate HasSet()
      requires Valid()
      reads this
      ensures HasSet() <==> Current() <= Below(n)
    {
      WordWithin(word, n, 64);
      word < limit
    }

    /** Advances to the next subset. */
    method Advance()
      requires Valid() && HasSet()
      modifies `word
      ensures Valid() && Current() == Following(build, old(Current()))
    {
      hide Pow2, Value, FromBits, Below, Following, Increment;
      ghost var s := Current();
      CarryFits(s, n, 64);
      IncrementOnWords(build, s, 64);
      FromBitsOfValue(Following(build, s), 64);
      word := Increment(build, word, 64);
    }
  }

  lemma FirstWord(k: nat, w: nat)
    requires k <= w
    ensures Pow2(k) - 1 < Pow2(w) && FromBits(Pow2(k) - 1, w) == Below(k)
  {
    ValueBelow(k, w);
    BelowWider(k, w);
    FromBitsOfValue(Below(k), w);
  }

  lemma WordWithin(x: nat, n: nat, w: nat)
    requires n < w && x < Pow2(w)
    ensures x < Pow2(n) <==> FromBits(x, w) <= Below(n)
    decreases w
  {
    hide Below;
    if n + 1 < w {
      Pow2Monotone(n, w - 1);
      if x < Pow2(w - 1) {
        WordWithin(x, n, w - 1);
      } else {
        assert w - 1 in FromBits(x, w);
      }
    } else if x < Pow2(n) {
      assert FromBits(x, w) == FromBits(x, n);
    } else {
      assert n in FromBits(x, w);
    }
  }

  lemma CarryFits(s: Subproblem, n: nat, w: nat)
    requires s <= Below(n) && n < w
    ensures s <= Below(w) && (s != {} ==> RunEnd(s, Min(s)) < w)
  {
    BelowWider(n, w);
    if s != {} {
      RunEndWithin(s, n);
    }
  }

  /** The loop over the iterator, as in the enumerators. */
  method SubsetsOfSize(build: Build, k: nat, n: nat) returns (visited: seq<Subproblem>)
    requires 1 <= k <= n < 64
    ensures {} < Below(k) <= Below(n + 1) && visited == Walk(build, n, Below(k))
    ensures Enumerates(visited, k, n) <==> Exact(build, n) || k == 1 || k == n
  {
    hide *;
    EnumeratesIff(build, k, n);
    var next := new GospersHack.EnumerateAll(build, k, n);
    visited := [];
    var s := next.Current();
    while next.HasSet()
      invariant next.Valid() && fresh(next) && next.build == build && next.n == n && s == next.Current()
      invariant {} < s <= Below(n + 1)
      invariant visited + Walk(build, n, s) == Walk(build, n, Below(k))
      decreases Pow2(n + 1) - Value(s, n + 1)
    {
      VisitStep(build, n, s, visited);
      visited := visited + [s];
      next.Advance();
      s := next.Current();
    }
    WalkUnfolds(build, n, s);
  }

  lemma VisitStep(build: Build, n: nat, s: Subproblem, visited: seq<Subproblem>)
    requires {} < s <= Below(n)
    ensures var next := Following(build, s);
            && {} < next <= Below(n + 1) && Value(s, n + 1) < Value(next, n + 1) < Pow2(n + 1)
            && {} < s <= Below(n + 1)
            && (visited + [s]) + Walk(build, n, next) == visited + Walk(build, n, s)
  {
    hide *;
    BelowWider(n, n + 1);
    StepFacts(build, s, n);
    WalkUnfolds(build, n, s);
    assert visited + ([s] + Walk(build, n, Following(build, s)))
           == (visited + [s]) + Walk(build, n, Following(build, s));
  }
}
