/** The subset-driven enumerators `DPsub`, `DPsubOpt` and `PEall`: all subproblems in the order
    of their numbers, and for each one the numeric walk over its proper subsets. */
module SubsetEnumerators {
  import opened SmallBitset
  import opened AdjacencyMatrix
  import opened PlanTables
  import opened EnumerationFacts

  /** With `half` set only the splits whose left side lacks the highest relation are walked. */
  ghost predicate Walked(half: bool, a: Subproblem, b: Subproblem)
    requires a + b != {}
  {
    half ==> Max(a + b) !in a
  }

  /** A split that the walk has passed: it joins to a subproblem with a number below `i`, or it
      splits `s` and its left side has a number below `cur`. */
  ghost predicate Passed(space: SearchSpace, half: bool, a: Subproblem, b: Subproblem, i: nat, s: Subproblem,
                         cur: nat) {
    var n := space.NumSources();
    && Pair(space, a, b) && a + b != {} && Walked(half, a, b)
    && (Value(a + b, n) < i || (a + b == s && Value(a, n) < cur))
  }

  /** The calls made so far are the passed pairs, each once. */
  ghost predicate Progress(space: SearchSpace, half: bool, log: Calls, i: nat, s: Subproblem, cur: nat) {
    && WellOrdered(space, log)
    && NoDuplicates(log)
    && forall a, b :: (a, b) in log <==> Passed(space, half, a, b, i, s, cur)
  }

  lemma StartProgress(space: SearchSpace, half: bool)
    requires space.Valid()
    ensures Progress(space, half, [], 1, {}, 0)
  {
    forall a, b | Pair(space, a, b) ensures Value(a + b, space.NumSources()) >= 1 {
      PairFacts(space, a, b);
      ValuePositive(a + b, space.NumSources());
    }
  }

  /** Splits of smaller subproblems are settled. */
  lemma SmallerIsSettled(space: SearchSpace, half: bool, log: Calls, i: nat, s: Subproblem, cur: nat, t: Subproblem)
    requires space.Valid() && Progress(space, half, log, i, s, cur)
    requires t <= Below(space.NumSources()) && Value(t, space.NumSources()) < i
    ensures Settled(space, log, t)
  {
    forall a, b | a + b == t && Pair(space, a, b) ensures PairIn(log, a, b) {
      PairFacts(space, a, b);
      assert b + a == t;
      if Max(t) in a {
        assert Walked(half, b, a);
      } else {
        assert Walked(half, a, b);
      }
    }
  }

  /** Entering the subset walk of `s`, and skipping it when `s` has no split. */
  lemma EnterWalk(space: SearchSpace, half: bool, log: Calls, s: Subproblem)
    requires space.Valid() && {} < s <= Below(space.NumSources())
    requires Progress(space, half, log, Value(s, space.NumSources()), {}, 0)
    ensures Progress(space, half, log, Value(s, space.NumSources()), s, Value(LeastSubset(s), space.NumSources()))
  {
    var n := space.NumSources();
    forall a, b | Pair(space, a, b) && a + b == s
      ensures Value(LeastSubset(s), n) <= Value(a, n)
    {
      PairFacts(space, a, b);
      LeastSubsetIsLeast(s, a, n);
    }
  }

  /** Leaving the walk when all left sides up to `limit` were visited. */
  lemma LeaveWalk(space: SearchSpace, half: bool, log: Calls, s: Subproblem, walked: Subproblem, cur: nat)
    requires space.Valid() && {} < s <= Below(space.NumSources())
    requires Progress(space, half, log, Value(s, space.NumSources()), walked, cur) && (walked == s || cur == 0)
    requires forall a, b :: Pair(space, a, b) && a + b == s && Walked(half, a, b)
               ==> walked == s && Value(a, space.NumSources()) < cur
    ensures Progress(space, half, log, Value(s, space.NumSources()) + 1, {}, 0)
  {
    hide Passed, Pair, Walked, Value;
    var i := Value(s, space.NumSources());
    forall a, b
      ensures Passed(space, half, a, b, i, walked, cur) <==> Passed(space, half, a, b, i + 1, {}, 0)
    {
      LeavePair(space, half, s, walked, cur, a, b);
    }
  }

  lemma LeavePair(space: SearchSpace, half: bool, s: Subproblem, walked: Subproblem, cur: nat, a: Subproblem,
                  b: Subproblem)
    requires space.Valid() && {} < s <= Below(space.NumSources()) && (walked == s || cur == 0)
    requires Pair(space, a, b) && a + b == s && Walked(half, a, b) ==> walked == s && Value(a, space.NumSources()) < cur
    ensures var i := Value(s, space.NumSources());
            Passed(space, half, a, b, i, walked, cur) <==> Passed(space, half, a, b, i + 1, {}, 0)
  {
    var n := space.NumSources();
    if Pair(space, a, b) && Value(a + b, n) == Value(s, n) {
      PairFacts(space, a, b);
      ValueInjective(a + b, s, n);
    }
  }

  /** The walk step: `l` was skipped because it and its complement are no pair ... */
  lemma SkipSplit(space: SearchSpace, half: bool, log: Calls, s: Subproblem, l: Subproblem)
    requires space.Valid() && {} < l < s <= Below(space.NumSources())
    requires Progress(space, half, log, Value(s, space.NumSources()), s, Value(l, space.NumSources()))
    requires !Pair(space, l, s - l) && l + (s - l) == s
    ensures Progress(space, half, log, Value(s, space.NumSources()), s, Value(NextSubset(l, s), space.NumSources()))
  {
    hide Passed;
    var n := space.NumSources();
    forall a, b
      ensures Passed(space, half, a, b, Value(s, n), s, Value(NextSubset(l, s), n))
              <==> Passed(space, half, a, b, Value(s, n), s, Value(l, n))
    {
      PassedStep(space, half, s, l, a, b);
    }
  }

  /** ... or was joined with its complement. */
  lemma TakeSplit(space: SearchSpace, half: bool, log: Calls, s: Subproblem, l: Subproblem)
    requires space.Valid() && {} < l < s <= Below(space.NumSources())
    requires Progress(space, half, log, Value(s, space.NumSources()), s, Value(l, space.NumSources()))
    requires Pair(space, l, s - l) && Walked(half, l, s - l)
    ensures Progress(space, half, log + [(l, s - l)], Value(s, space.NumSources()), s,
                     Value(NextSubset(l, s), space.NumSources()))
  {
    var n := space.NumSources();
    var i, cur, next := Value(s, n), Value(l, n), Value(NextSubset(l, s), n);
    TakeIsWellOrdered(space, half, log, s, l, i, cur);
    assert l + (s - l) == s;
    assert !Passed(space, half, l, s - l, i, s, cur);
    AppendOnce(log, l, s - l);
    forall a, b
      ensures (a, b) in log + [(l, s - l)] <==> Passed(space, half, a, b, i, s, next)
    {
      assert (a, b) in log + [(l, s - l)] <==> (a, b) in log || (a == l && b == s - l);
      PassedStep(space, half, s, l, a, b);
    }
  }

  lemma TakeIsWellOrdered(space: SearchSpace, half: bool, log: Calls, s: Subproblem, l: Subproblem, i: nat, cur: nat)
    requires space.Valid() && {} < l < s <= Below(space.NumSources()) && i == Value(s, space.NumSources())
    requires Progress(space, half, log, i, s, cur) && Pair(space, l, s - l)
    ensures WellOrdered(space, log + [(l, s - l)])
  {
    var n := space.NumSources();
    PairFacts(space, l, s - l);
    ValueProperSubset(l, s, n);
    ValueProperSubset(s - l, s, n);
    SmallerIsSettled(space, half, log, i, s, cur, l);
    SmallerIsSettled(space, half, log, i, s, cur, s - l);
    WellOrderedAppend(space, log, l, s - l);
  }

  lemma PassedStep(space: SearchSpace, half: bool, s: Subproblem, l: Subproblem, a: Subproblem, b: Subproblem)
    requires space.Valid() && {} < l < s <= Below(space.NumSources()) && l + (s - l) == s
    requires Pair(space, l, s - l) ==> Walked(half, l, s - l)
    ensures var n := space.NumSources();
            Passed(space, half, a, b, Value(s, n), s, Value(NextSubset(l, s), n))
            <==> Passed(space, half, a, b, Value(s, n), s, Value(l, n))
                 || (a == l && b == s - l && Pair(space, l, s - l))
  {
    if Pair(space, a, b) && a + b == s {
      StepValue(space, s, l, a, b);
    }
    hide Pair, Value, NextSubset, Walked;
  }

  /** Between `l` and the next subset lies no left side of a split. */
  lemma StepValue(space: SearchSpace, s: Subproblem, l: Subproblem, a: Subproblem, b: Subproblem)
    requires space.Valid() && {} < l < s <= Below(space.NumSources())
    requires Pair(space, a, b) && a + b == s
    ensures Value(a, space.NumSources()) < Value(NextSubset(l, s), space.NumSources())
            <==> Value(a, space.NumSources()) < Value(l, space.NumSources()) || (a == l && b == s - l)
  {
    hide Value, NextSubset;
    var n := space.NumSources();
    PairFacts(space, a, b);
    NextSubsetIsNext(l, s, a, n);
    assert b == s - a;
    if Value(a, n) == Value(l, n) {
      ValueInjective(a, l, n);
    }
  }

  lemma PairsOfRun(space: SearchSpace, log: Calls)
    requires space.Valid() && WellOrdered(space, log)
    ensures forall a, b :: PairIn(log, a, b) ==> Pair(space, a, b)
  {
    forall a, b | PairIn(log, a, b) ensures Pair(space, a, b) {
      if (b, a) in log {
        PairFacts(space, b, a);
      }
    }
  }

  /** A finished run has solved the space and considered every pair once. */
  lemma FinishedRun(space: SearchSpace, half: bool, cm: CostModel, log: Calls)
    requires space.Valid() && cm.Monotone()
    requires Progress(space, half, log, Pow2(space.NumSources()), {}, 0)
    ensures WellOrdered(space, log) && NoDuplicates(log)
    ensures forall a, b :: PairIn(log, a, b) ==> Pair(space, a, b)
    ensures Solved(space, cm, Replay(cm, space.NumSources(), log))
    ensures half ==> NoSymmetricDuplicates(log)
    ensures forall a, b :: Pair(space, a, b) ==> PairIn(log, a, b) && (!half ==> (a, b) in log)
  {
    hide Pair, Settled, Replay, WellOrdered, Solved, Value, Pow2;
    forall a, b | Pair(space, a, b) ensures PairIn(log, a, b) && (!half ==> (a, b) in log) {
      PairWasPassed(space, half, log, a, b);
    }
    forall a, b | half && (a, b) in log && a != b ensures (b, a) !in log {
      assert a + b == b + a;
      assert Max(a + b) in a + b;
    }
    PairsOfRun(space, log);
    CompleteCallsSolve(space, cm, log);
  }

  lemma PairWasPassed(space: SearchSpace, half: bool, log: Calls, a: Subproblem, b: Subproblem)
    requires space.Valid() && Progress(space, half, log, Pow2(space.NumSources()), {}, 0) && Pair(space, a, b)
    ensures PairIn(log, a, b) && (!half ==> (a, b) in log)
  {
    var n := space.NumSources();
    PairFacts(space, a, b);
    ValueBound(a + b, n);
    SmallerIsSettled(space, half, log, Pow2(n), {}, 0, a + b);
  }

  /** Both sides of a split of `s` have the plans they can have when the walk reaches it. */
  lemma SplitHasPlans(space: SearchSpace, half: bool, cm: CostModel, log: Calls, s: Subproblem, l: Subproblem, cur: nat)
    requires space.Valid() && cm.Monotone() && {} < l < s <= Below(space.NumSources())
    requires Progress(space, half, log, Value(s, space.NumSources()), s, cur)
    ensures var e := Replay(cm, space.NumSources(), log);
            && (l in e <==> space.HasTree(l)) && (s - l in e <==> space.HasTree(s - l))
            && (|l| == 1 ==> l in e) && (|s - l| == 1 ==> s - l in e)
    ensures {} < s - l < s
  {
    var n := space.NumSources();
    var x, y :| x in l && y in s && y !in l;
    assert s == l + (s - l) && y in s - l && x !in s - l && x in s;
    ValueProperSubset(l, s, n);
    ValueProperSubset(s - l, s, n);
    SmallerIsSettled(space, half, log, Value(s, n), s, cur, l);
    SmallerIsSettled(space, half, log, Value(s, n), s, cur, s - l);
    HasPlanMeansTree(space, cm, log, l);
    HasPlanMeansTree(space, cm, log, s - l);
  }

  lemma SingletonHasNoSplit(space: SearchSpace, s: Subproblem)
    requires space.Valid() && |s| == 1
    ensures forall a, b :: Pair(space, a, b) ==> a + b != s
  {
    forall a, b | Pair(space, a, b) ensures a + b != s {
      PairFacts(space, a, b);
    }
  }

  lemma UnconnectedHasNoSplit(m: Matrix, s: Subproblem)
    requires m.Valid() && !m.Connected(s)
    ensures forall a, b :: Pair(NoCrossProducts(m), a, b) ==> a + b != s
  {
    forall a, b | Pair(NoCrossProducts(m), a, b) ensures a + b != s {
      PairFacts(NoCrossProducts(m), a, b);
      HasTreeIffConnected(m, a + b);
    }
  }

  /** At the end of the full walk, and of the walk up to the highest relation, no split of `s`
      is left. */
  lemma WalkIsComplete(space: SearchSpace, half: bool, s: Subproblem, last: Subproblem)
    requires space.Valid() && {} < s <= Below(space.NumSources())
    requires last == if half then {Max(s)} else s
    ensures forall a, b :: Pair(space, a, b) && a + b == s && Walked(half, a, b)
              ==> Value(a, space.NumSources()) < Value(last, space.NumSources())
  {
    forall a, b | Pair(space, a, b) && a + b == s && Walked(half, a, b)
      ensures Value(a, space.NumSources()) < Value(last, space.NumSources())
    {
      WalkedBefore(space, half, a, b);
    }
  }

  lemma WalkedBefore(space: SearchSpace, half: bool, a: Subproblem, b: Subproblem)
    requires space.Valid() && Pair(space, a, b) && Walked(half, a, b)
    ensures a + b != {}
    ensures Value(a, space.NumSources()) < Value(if half then {Max(a + b)} else a + b, space.NumSources())
  {
    hide *;
    PairFacts(space, a, b);
    if half {
      LeftOfHighest(a, b, space.NumSources());
      BelowHighest(a, Max(a + b), space.NumSources());
    } else {
      ValueProperSubset(a, a + b, space.NumSources());
    }
  }

  lemma LeftOfHighest(a: Subproblem, b: Subproblem, n: nat)
    requires a + b != {} && a !! b && a + b <= Below(n) && Walked(true, a, b)
    ensures Max(a + b) < n && forall x | x in a :: x < Max(a + b)
  {
    var top := Max(a + b);
    assert top in Below(n);
  }

  lemma BelowHighest(a: Subproblem, top: nat, n: nat)
    requires top < n && forall x | x in a :: x < top
    ensures Value(a, n) < Value({top}, n) == Pow2(top)
  {
    ValueSingleton(top, n);
    ValueBound(a, top);
    ValueFlat(a, top, n);
  }

  lemma ValueFlat(a: Subproblem, k: nat, n: nat)
    requires k <= n && forall x | x in a :: x < k
    ensures Value(a, n) == Value(a, k)
  {
    if k < n {
      ValueFlat(a, k, n - 1);
    }
  }

  /** In the half walk the highest relation stays on the right side. */
  lemma HalfWalkLeft(s: Subproblem, l: Subproblem, n: nat)
    requires {} < s <= Below(n) && l <= s
    ensures Max(s) in l <==> Value({Max(s)}, n) <= Value(l, n)
    ensures {Max(s)} <= s
  {
    var top := Max(s);
    assert top in Below(n);
    if top in l {
      ValueSubset({top}, l, n);
    } else {
      BelowHighest(l, top, n);
    }
  }

  // -------------------------------------------------------------------------- the enumerators

  /** Computes the join order using subset-based dynamic programming. */
  method DPsub(pt: PlanTable, m: Matrix)
    requires m.Valid() && pt.n == |m.rows| && pt.Valid() && pt.log == [] && pt.model.Monotone()
    modifies pt
    ensures Solved(NoCrossProducts(m), pt.model, pt.entries)
    ensures pt.Valid() && WellOrdered(NoCrossProducts(m), pt.log) && NoDuplicates(pt.log)
    ensures forall a, b :: (a, b) in pt.log <==> Pair(NoCrossProducts(m), a, b)
  {
    hide Progress, Pair, Value, NextSubset, FromBits, Replay, SearchSpace.HasTree, Matrix.Connected, Matrix.Valid;
    ghost var space := NoCrossProducts(m);
    var n := pt.n;
    var i, end := 1, Pow2(n);
    StartProgress(space, false);
    while i < end
      invariant 1 <= i <= end && pt.Valid()
      invariant Progress(space, false, pt.log, i, {}, 0)
    {
      var s := FromBits(i, n);
      ValueZero(n);
      var connected := m.IsConnected(s);
      if |s| == 1 || !connected {
        if |s| == 1 {
          SingletonHasNoSplit(space, s);
        } else {
          UnconnectedHasNoSplit(m, s);
        }
        LeaveWalk(space, false, pt.log, s, {}, 0);
        i := i + 1;
        continue;
      }
      EnterWalk(space, false, pt.log, s);
      var s1 := LeastSubset(s);
      while s1 != s
        invariant {} < s1 <= s && pt.Valid()
        invariant Progress(space, false, pt.log, i, s, Value(s1, n))
        decreases Value(s, n) - Value(s1, n)
      {
        var s2 := s - s1;
        ValueProperSubset(s1, s, n);
        NextSubsetIsNext(s1, s, {}, n);
        ValueSubset(NextSubset(s1, s), s, n);
        SplitHasPlans(space, false, pt.model, pt.log, s, s1, Value(s1, n));
        m.ConnectedHasNoEmptyCut(s, s1);
        assert m.Adjacent(s1, s2);
        PairWithoutCrossProducts(m, s1, s2);
        HasTreeIffConnected(m, s1);
        HasTreeIffConnected(m, s2);
        if pt.HasPlan(s1) && pt.HasPlan(s2) {
          TakeSplit(space, false, pt.log, s, s1);
          pt.Update(s1, s2);
        } else {
          SkipSplit(space, false, pt.log, s, s1);
        }
        s1 := NextSubset(s1, s);
      }
      WalkIsComplete(space, false, s, s);
      LeaveWalk(space, false, pt.log, s, s, Value(s, n));
      i := i + 1;
    }
    FinishedRun(space, false, pt.model, pt.log);
  }

  /** Like `DPsub`, but does not enumerate symmetric splits. */
  method DPsubOpt(pt: PlanTable, m: Matrix)
    requires m.Valid() && pt.n == |m.rows| && pt.Valid() && pt.log == [] && pt.model.Monotone()
    modifies pt
    ensures Solved(NoCrossProducts(m), pt.model, pt.entries)
    ensures pt.Valid() && WellOrdered(NoCrossProducts(m), pt.log) && NoSymmetricDuplicates(pt.log)
    ensures forall a, b :: Pair(NoCrossProducts(m), a, b) <==> PairIn(pt.log, a, b)
  {
    hide Progress, Pair, Value, NextSubset, FromBits, Replay, SearchSpace.HasTree, Matrix.Connected, Matrix.Valid;
    ghost var space := NoCrossProducts(m);
    var n := pt.n;
    var i, end := 1, Pow2(n);
    StartProgress(space, true);
    while i < end
      invariant 1 <= i <= end && pt.Valid()
      invariant Progress(space, true, pt.log, i, {}, 0)
    {
      var s := FromBits(i, n);
      ValueZero(n);
      var connected := m.IsConnected(s);
      if |s| == 1 || !connected {
        if |s| == 1 {
          SingletonHasNoSplit(space, s);
        } else {
          UnconnectedHasNoSplit(m, s);
        }
        LeaveWalk(space, true, pt.log, s, {}, 0);
        i := i + 1;
        continue;
      }
      EnterWalk(space, true, pt.log, s);
      var limit := {Max(s)};
      var s1 := LeastSubset(s);
      LimitIsReached(s, LeastSubset(s), n);
      while s1 != limit
        invariant {} < s1 <= s && pt.Valid() && Value(s1, n) <= Value(limit, n)
        invariant Progress(space, true, pt.log, i, s, Value(s1, n))
        decreases Value(limit, n) - Value(s1, n)
      {
        var s2 := s - s1;
        HalfWalkStep(s, s1, n);
        SplitHasPlans(space, true, pt.model, pt.log, s, s1, Value(s1, n));
        m.ConnectedHasNoEmptyCut(s, s1);
        assert m.Adjacent(s1, s2);
        PairWithoutCrossProducts(m, s1, s2);
        HasTreeIffConnected(m, s1);
        HasTreeIffConnected(m, s2);
        if pt.HasPlan(s1) && pt.HasPlan(s2) {
          TakeSplit(space, true, pt.log, s, s1);
          pt.Update(s1, s2);
        } else {
          SkipSplit(space, true, pt.log, s, s1);
        }
        s1 := NextSubset(s1, s);
      }
      WalkIsComplete(space, true, s, limit);
      LeaveWalk(space, true, pt.log, s, s, Value(limit, n));
      i := i + 1;
    }
    FinishedRun(space, true, pt.model, pt.log);
  }

  /** The half walk starts no later than at the highest relation ... */
  lemma LimitIsReached(s: Subproblem, l: Subproblem, n: nat)
    requires {} < s <= Below(n) && l == LeastSubset(s)
    ensures Value(l, n) <= Value({Max(s)}, n)
  {
    LeastSubsetIsLeast(s, {Max(s)}, n);
  }

  /** ... and its next step does not jump over it. */
  lemma HalfWalkStep(s: Subproblem, l: Subproblem, n: nat)
    requires {} < l <= s <= Below(n) && l != {Max(s)} && Value(l, n) <= Value({Max(s)}, n)
    ensures l < s && Max(s) !in l && Walked(true, l, s - l)
    ensures Value(l, n) < Value(NextSubset(l, s), n) <= Value({Max(s)}, n)
  {
    var top := {Max(s)};
    HalfWalkLeft(s, l, n);
    if Value(l, n) == Value(top, n) {
      ValueInjective(l, top, n);
    }
    assert l + (s - l) == s;
    NextSubsetIsNext(l, s, top, n);
  }

  lemma AllJoinsPair(n: nat, l: Subproblem, r: Subproblem)
    requires {} < l <= Below(n) && {} < r <= Below(n) && l !! r
    ensures AllJoins(n).HasTree(l) && AllJoins(n).HasTree(r) && Pair(AllJoins(n), l, r)
  {
    AllJoinsHasTree(n, l);
    AllJoinsHasTree(n, r);
  }

  /** Computes the join order by enumerating all join orders, including Cartesian products. */
  method PEall(pt: PlanTable)
    requires pt.Valid() && pt.log == [] && pt.model.Monotone()
    modifies pt
    ensures Solved(AllJoins(pt.n), pt.model, pt.entries)
    ensures pt.Valid() && WellOrdered(AllJoins(pt.n), pt.log) && NoSymmetricDuplicates(pt.log)
    ensures forall a, b :: Pair(AllJoins(pt.n), a, b) <==> PairIn(pt.log, a, b)
  {
    hide Progress, Pair, Value, NextSubset, FromBits, Replay, SearchSpace.HasTree, Solved;
    var n := pt.n;
    ghost var space := AllJoins(n);
    var i, end := 1, Pow2(n);
    StartProgress(space, true);
    while i < end
      invariant 1 <= i <= end && pt.Valid()
      invariant Progress(space, true, pt.log, i, {}, 0)
    {
      var s := FromBits(i, n);
      ValueZero(n);
      if |s| == 1 {
        SingletonHasNoSplit(space, s);
        LeaveWalk(space, true, pt.log, s, {}, 0);
        i := i + 1;
        continue;
      }
      EnterWalk(space, true, pt.log, s);
      var limit := {Max(s)};
      var s1 := LeastSubset(s);
      LimitIsReached(s, LeastSubset(s), n);
      while s1 != limit
        invariant {} < s1 <= s && pt.Valid() && Value(s1, n) <= Value(limit, n)
        invariant Progress(space, true, pt.log, i, s, Value(s1, n))
        decreases Value(limit, n) - Value(s1, n)
      {
        var s2 := s - s1;
        HalfWalkStep(s, s1, n);
        SplitHasPlans(space, true, pt.model, pt.log, s, s1, Value(s1, n));
        AllJoinsPair(n, s1, s2);
        assert pt.HasPlan(s1) && pt.HasPlan(s2);
        TakeSplit(space, true, pt.log, s, s1);
        pt.Update(s1, s2);
        s1 := NextSubset(s1, s);
      }
      WalkIsComplete(space, true, s, limit);
      LeaveWalk(space, true, pt.log, s, s, Value(limit, n));
      i := i + 1;
    }
    FinishedRun(space, true, pt.model, pt.log);
  }
}
