/** The enumerator `DPsizeSub`: all connected subproblems by size and, within one size, by
    number; for each one the walk over all its proper subsets. */
module SizeSubEnumerator {
  import opened SmallBitset
  import opened SizedSubsets
  import opened AdjacencyMatrix
  import opened PlanTables
  import opened EnumerationFacts
  import Subsets = SubsetEnumerators
  import Sizes = SizeEnumerators

  /** A position: the size and the number of the current subproblem, and the current left side. */
  datatype Position = Position(size: nat, whole: nat, s: Subproblem, cur: nat)

  ghost predicate Passed(space: SearchSpace, a: Subproblem, b: Subproblem, p: Position) {
    && Pair(space, a, b)
    && (|a| + |b| < p.size || (|a| + |b| == p.size
        && (Sizes.Number(space, a + b) < p.whole || (a + b == p.s && Value(a, space.NumSources()) < p.cur))))
  }

  /** All calls are for pairs.  Where the walks are exact these are the ones before `p`; elsewhere
      their unions are sets that a portable walk can visit. */
  ghost predicate Progress(space: SearchSpace, build: Build, log: Calls, p: Position) {
    && OnlyPairs(space, log)
    && (if Exact(build, space.NumSources()) then Reached(space, log, p) else Spared(space, log))
  }

  ghost predicate Spared(space: SearchSpace, log: Calls) {
    forall p :: p in log ==> Visitable(space.NumSources(), p.0 + p.1)
  }

  ghost predicate Reached(space: SearchSpace, log: Calls, p: Position) {
    && WellOrdered(space, log)
    && NoDuplicates(log)
    && forall a, b :: (a, b) in log <==> Passed(space, a, b, p)
  }

  lemma Advance(space: SearchSpace, build: Build, log: Calls, p: Position, q: Position)
    requires Progress(space, build, log, p)
    requires Exact(build, space.NumSources()) ==> forall a, b :: Passed(space, a, b, p) <==> Passed(space, a, b, q)
    ensures Progress(space, build, log, q)
  {}

  lemma SizesAdd(space: SearchSpace, a: Subproblem, b: Subproblem)
    requires space.Valid() && Pair(space, a, b)
    ensures |a| + |b| == |a + b| && |a| >= 1 && |b| >= 1
    ensures a + b <= Below(space.NumSources())
  {
    PairFacts(space, a, b);
  }

  lemma StartProgress(space: SearchSpace, build: Build)
    requires space.Valid()
    ensures Progress(space, build, [], Position(2, 0, {}, 0))
  {
    forall a, b | Pair(space, a, b) ensures !Passed(space, a, b, Position(2, 0, {}, 0)) {
      Sizes.Sides(space, a, b);
    }
  }

  lemma SmallerIsSettled(space: SearchSpace, build: Build, log: Calls, p: Position, t: Subproblem)
    requires space.Valid() && Progress(space, build, log, p) && |t| < p.size && Exact(build, space.NumSources())
    ensures Settled(space, log, t)
  {
    forall a, b | a + b == t && Pair(space, a, b) ensures PairIn(log, a, b) {
      PairFacts(space, a, b);
    }
  }

  // ------------------------------------------------------------------- moves of the position

  lemma NextSize(space: SearchSpace, build: Build, log: Calls, p: Position)
    requires space.Valid() && Progress(space, build, log, p) && p.whole >= Pow2(space.NumSources()) && p.cur == 0
    ensures Progress(space, build, log, Position(p.size + 1, 0, {}, 0))
  {
    hide Progress, Passed;
    var q := Position(p.size + 1, 0, {}, 0);
    if Exact(build, space.NumSources()) {
      forall a, b ensures Passed(space, a, b, p) <==> Passed(space, a, b, q) {
        NextSizePair(space, p, a, b);
      }
    }
    Advance(space, build, log, p, q);
  }

  lemma NextSizePair(space: SearchSpace, p: Position, a: Subproblem, b: Subproblem)
    requires space.Valid() && p.whole >= Pow2(space.NumSources()) && p.cur == 0
    ensures Passed(space, a, b, p) <==> Passed(space, a, b, Position(p.size + 1, 0, {}, 0))
  {
    if Pair(space, a, b) {
      PairFacts(space, a, b);
      Sizes.WithinSources(space, a + b);
    }
  }

  lemma FirstWhole(space: SearchSpace, build: Build, log: Calls, size: nat)
    requires space.Valid() && size <= space.NumSources() && Progress(space, build, log, Position(size, 0, {}, 0))
    ensures Progress(space, build, log, Position(size, Sizes.Number(space, Below(size)), {}, 0))
  {
    var p, q := Position(size, 0, {}, 0), Position(size, Sizes.Number(space, Below(size)), {}, 0);
    hide Progress, Passed;
    if Exact(build, space.NumSources()) {
      forall a, b ensures Passed(space, a, b, p) <==> Passed(space, a, b, q) {
        FirstWholePair(space, size, a, b);
      }
    }
    Advance(space, build, log, p, q);
  }

  lemma FirstWholePair(space: SearchSpace, size: nat, a: Subproblem, b: Subproblem)
    requires space.Valid() && size <= space.NumSources()
    ensures Passed(space, a, b, Position(size, 0, {}, 0))
            <==> Passed(space, a, b, Position(size, Sizes.Number(space, Below(size)), {}, 0))
  {
    hide Pair, Value, Below;
    if Pair(space, a, b) && |a| + |b| == size {
      SizesAdd(space, a, b);
      FirstOfSizeIsLeast(a + b, size, space.NumSources() + 1);
    }
  }

  /** Leaving `s` for the next subproblem of the size once none of its splits is left. */
  lemma NextWhole(space: SearchSpace, build: Build, log: Calls, p: Position, s: Subproblem)
    requires space.Valid() && {} < s <= Below(space.NumSources()) && Progress(space, build, log, p)
    requires p.whole == Sizes.Number(space, s) && (p.s == s || p.cur == 0)
    requires Exact(build, space.NumSources()) ==> p.size == |s|
    requires forall a, b :: Pair(space, a, b) && a + b == s ==> p.s == s && Value(a, space.NumSources()) < p.cur
    ensures Progress(space, build, log, Position(p.size, Sizes.Number(space, Following(build, s)), {}, 0))
  {
    var q := Position(p.size, Sizes.Number(space, Following(build, s)), {}, 0);
    hide Progress, Passed, Pair;
    if Exact(build, space.NumSources()) {
      forall a, b ensures Passed(space, a, b, p) <==> Passed(space, a, b, q) {
        NextWholePair(space, build, p, s, a, b);
      }
    }
    Advance(space, build, log, p, q);
  }

  lemma NextWholePair(space: SearchSpace, build: Build, p: Position, s: Subproblem, a: Subproblem, b: Subproblem)
    requires space.Valid() && {} < s <= Below(space.NumSources()) && Exact(build, space.NumSources())
    requires p.size == |s| && p.whole == Sizes.Number(space, s) && (p.s == s || p.cur == 0)
    requires Pair(space, a, b) && a + b == s ==> p.s == s && Value(a, space.NumSources()) < p.cur
    ensures Passed(space, a, b, p)
            <==> Passed(space, a, b, Position(p.size, Sizes.Number(space, Following(build, s)), {}, 0))
  {
    if Pair(space, a, b) && |a| + |b| == p.size {
      SizesAdd(space, a, b);
      hide Pair, Value, Below, Following;
      Sizes.StepIsNext(space, build, s, a + b);
      if Sizes.Number(space, a + b) == Sizes.Number(space, s) {
        Sizes.NumberInjective(space, a + b, s);
      }
    }
  }

  /** Entering the subset walk of `s`. */
  lemma EnterWalk(space: SearchSpace, build: Build, log: Calls, s: Subproblem)
    requires space.Valid() && {} < s <= Below(space.NumSources())
    requires Progress(space, build, log, Position(|s|, Sizes.Number(space, s), {}, 0))
    ensures Progress(space, build, log, At(space, s, LeastSubset(s)))
  {
    var p, q := Position(|s|, Sizes.Number(space, s), {}, 0), At(space, s, LeastSubset(s));
    hide Progress, Passed;
    if Exact(build, space.NumSources()) {
      forall a, b ensures Passed(space, a, b, p) <==> Passed(space, a, b, q) {
        EnterWalkPair(space, s, a, b);
      }
    }
    Advance(space, build, log, p, q);
  }

  /** The position of the walk over the subsets of `s` at the left side `l`. */
  function At(space: SearchSpace, s: Subproblem, l: Subproblem): Position {
    Position(|s|, Sizes.Number(space, s), s, Value(l, space.NumSources()))
  }

  lemma EnterWalkPair(space: SearchSpace, s: Subproblem, a: Subproblem, b: Subproblem)
    requires space.Valid() && {} < s <= Below(space.NumSources())
    ensures Passed(space, a, b, Position(|s|, Sizes.Number(space, s), {}, 0))
            <==> Passed(space, a, b, At(space, s, LeastSubset(s)))
  {
    if Pair(space, a, b) && a + b == s {
      PairFacts(space, a, b);
      LeastSubsetIsLeast(s, a, space.NumSources());
    }
  }

  lemma StepPair(space: SearchSpace, s: Subproblem, l: Subproblem, a: Subproblem, b: Subproblem)
    requires space.Valid() && {} < l < s <= Below(space.NumSources())
    ensures Passed(space, a, b, At(space, s, NextSubset(l, s)))
            <==> Passed(space, a, b, At(space, s, l)) || (a == l && b == s - l && Pair(space, a, b))
  {
    hide Pair, Value, NextSubset;
    if a == l && b == s - l {
      assert a + b == s;
    }
    if Pair(space, a, b) && a + b == s {
      SizesAdd(space, a, b);
      Subsets.StepValue(space, s, l, a, b);
      assert |a| + |b| == |s|;
    }
  }

  lemma SkipSplit(space: SearchSpace, build: Build, log: Calls, s: Subproblem, l: Subproblem)
    requires space.Valid() && {} < l < s <= Below(space.NumSources())
    requires Progress(space, build, log, At(space, s, l))
             && (Exact(build, space.NumSources()) ==> !Pair(space, l, s - l))
    ensures Progress(space, build, log, At(space, s, NextSubset(l, s)))
  {
    hide Progress, Passed, Pair;
    if Exact(build, space.NumSources()) {
      forall a, b ensures Passed(space, a, b, At(space, s, l))
        <==> Passed(space, a, b, At(space, s, NextSubset(l, s))) {
        StepPair(space, s, l, a, b);
      }
    }
    Advance(space, build, log, At(space, s, l), At(space, s, NextSubset(l, s)));
  }

  lemma TakeSplit(space: SearchSpace, build: Build, log: Calls, s: Subproblem, l: Subproblem)
    requires space.Valid() && {} < l < s <= Below(space.NumSources())
    requires Progress(space, build, log, At(space, s, l)) && Pair(space, l, s - l)
    requires !Exact(build, space.NumSources()) ==> Visitable(space.NumSources(), s)
    ensures Progress(space, build, log + [(l, s - l)], At(space, s, NextSubset(l, s)))
  {
    ProgressOf(space, build, log, At(space, s, l));
    if Exact(build, space.NumSources()) {
      TakeReaches(space, build, log, s, l);
    } else {
      assert l + (s - l) == s;
      SparedAppend(space, log, l, s - l);
    }
    hide *;
    Sizes.OnlyPairsAppend(space, log, l, s - l);
    ProgressFrom(space, build, log + [(l, s - l)], At(space, s, NextSubset(l, s)));
  }

  lemma ProgressOf(space: SearchSpace, build: Build, log: Calls, p: Position)
    requires Progress(space, build, log, p)
    ensures OnlyPairs(space, log) && (Exact(build, space.NumSources()) ==> Reached(space, log, p))
    ensures !Exact(build, space.NumSources()) ==> Spared(space, log)
  {}

  lemma ProgressFrom(space: SearchSpace, build: Build, log: Calls, p: Position)
    requires OnlyPairs(space, log) && (Exact(build, space.NumSources()) ==> Reached(space, log, p))
    requires !Exact(build, space.NumSources()) ==> Spared(space, log)
    ensures Progress(space, build, log, p)
  {}

  lemma SparedAppend(space: SearchSpace, log: Calls, l: Subproblem, r: Subproblem)
    requires Spared(space, log) && Visitable(space.NumSources(), l + r)
    ensures Spared(space, log + [(l, r)])
  {
    hide Visitable;
  }

  lemma TakePasses(space: SearchSpace, log: Calls, s: Subproblem, l: Subproblem)
    requires space.Valid() && {} < l < s <= Below(space.NumSources()) && Pair(space, l, s - l)
    requires Reached(space, log, At(space, s, l)) && !Passed(space, l, s - l, At(space, s, l))
    requires WellOrdered(space, log + [(l, s - l)])
    ensures Reached(space, log + [(l, s - l)], At(space, s, NextSubset(l, s)))
  {
    var p, q := At(space, s, l), At(space, s, NextSubset(l, s));
    AppendOnce(log, l, s - l);
    hide WellOrdered, Passed, NoDuplicates, SearchSpace.Valid, Pair, Value, NextSubset, Below;
    forall a, b ensures (a, b) in log + [(l, s - l)] <==> Passed(space, a, b, q) {
      assert (a, b) in log + [(l, s - l)] <==> (a, b) in log || (a == l && b == s - l);
      StepPair(space, s, l, a, b);
    }
  }

  lemma TakeReaches(space: SearchSpace, build: Build, log: Calls, s: Subproblem, l: Subproblem)
    requires space.Valid() && {} < l < s <= Below(space.NumSources()) && Exact(build, space.NumSources())
    requires Progress(space, build, log, At(space, s, l)) && Pair(space, l, s - l)
    ensures Reached(space, log + [(l, s - l)], At(space, s, NextSubset(l, s)))
  {
    var p := At(space, s, l);
    assert l + (s - l) == s;
    SizesAdd(space, l, s - l);
    assert |l| < p.size && |s - l| < p.size && !Passed(space, l, s - l, p) && Reached(space, log, p);
    TakeIsWellOrdered(space, build, log, s, l, p);
    hide *;
    TakePasses(space, log, s, l);
  }

  lemma TakeIsWellOrdered(space: SearchSpace, build: Build, log: Calls, s: Subproblem, l: Subproblem, p: Position)
    requires space.Valid() && Progress(space, build, log, p) && Pair(space, l, s - l)
             && Exact(build, space.NumSources())
    requires |l| < p.size && |s - l| < p.size
    ensures WellOrdered(space, log + [(l, s - l)])
  {
    SmallerIsSettled(space, build, log, p, l);
    SmallerIsSettled(space, build, log, p, s - l);
    hide Settled;
    WellOrderedAppend(space, log, l, s - l);
  }

  lemma SideHasPlan(space: SearchSpace, build: Build, cm: CostModel, log: Calls, p: Position, s: Subproblem)
    requires space.Valid() && cm.Monotone() && Progress(space, build, log, p)
    requires {} < s <= Below(space.NumSources()) && |s| < p.size
    ensures s in Replay(cm, space.NumSources(), log) ==> space.HasTree(s)
    ensures Exact(build, space.NumSources()) && space.HasTree(s) ==> s in Replay(cm, space.NumSources(), log)
    ensures |s| == 1 ==> s in Replay(cm, space.NumSources(), log)
  {
    ProgressOf(space, build, log, p);
    if |s| == 1 {
      SingleHasPlan(cm, space.NumSources(), log, s);
    }
    hide Replay, Progress;
    if s in Replay(cm, space.NumSources(), log) {
      EntryHasTree(space, cm, log, s);
    }
    if Exact(build, space.NumSources()) {
      SmallerIsSettled(space, build, log, p, s);
      HasPlanMeansTree(space, cm, log, s);
    }
  }

  lemma ProperPart(s: Subproblem, l: Subproblem)
    requires {} < l < s
    ensures {} < s - l < s && |l| < |s| && |s - l| < |s|
  {
    var x, y :| x in l && y in s && y !in l;
    assert s == l + (s - l) && y in s - l && x !in s - l && x in s;
    assert |s| == |l| + |s - l|;
  }

  lemma FinishedRun(space: SearchSpace, build: Build, cm: CostModel, log: Calls, p: Position)
    requires space.Valid() && cm.Monotone() && Progress(space, build, log, p) && p.size > space.NumSources()
    requires Exact(build, space.NumSources())
    ensures Solved(space, cm, Replay(cm, space.NumSources(), log))
    ensures WellOrdered(space, log) && NoDuplicates(log)
    ensures forall a, b :: (a, b) in log <==> Pair(space, a, b)
  {
    forall a, b | Pair(space, a, b) ensures (a, b) in log {
      PairFacts(space, a, b);
      CountIsSize(a + b, space.NumSources());
      ValueOfCount(a + b, space.NumSources());
    }
    CompleteCallsSolve(space, cm, log);
  }

  lemma AllSubsetsPassed(space: SearchSpace, s: Subproblem)
    requires space.Valid() && {} < s <= Below(space.NumSources())
    ensures forall a, b :: Pair(space, a, b) && a + b == s
              ==> Value(a, space.NumSources()) < Value(s, space.NumSources())
  {
    forall a, b | Pair(space, a, b) && a + b == s
      ensures Value(a, space.NumSources()) < Value(s, space.NumSources())
    {
      PairFacts(space, a, b);
      ValueProperSubset(a, s, space.NumSources());
    }
  }

  /** On a connected join graph some connected set is never visited when the walks are not exact: none
      of its splits is considered, and it gets no plan. */
  lemma Unvisited(m: Matrix, log: Calls) returns (rest: Subproblem)
    requires m.Valid() && |m.rows| > 32 && m.Connected(m.All()) && Spared(NoCrossProducts(m), log)
    ensures NoCrossProducts(m).HasTree(rest) && |rest| >= 2
    ensures forall p :: p in log ==> p.0 + p.1 != rest
    ensures !Complete(NoCrossProducts(m), log)
  {
    var x;
    rest, x := Sizes.AllButOne(m);
    HasTreeIffConnected(m, rest);
    var a, y := m.ConnectedSplits(rest);
    PairWithoutCrossProducts(m, a, {y});
    assert {y} + a == rest;
    hide Pair, Visitable, Matrix.Connected, SearchSpace.HasTree;
    assert !PairIn(log, a, {y});
  }

  lemma CompleteIffExact(m: Matrix, build: Build, log: Calls, p: Position)
    requires m.Valid() && |m.rows| >= 2 && m.Connected(m.All())
    requires Progress(NoCrossProducts(m), build, log, p) && p.size > |m.rows|
    ensures Complete(NoCrossProducts(m), log) <==> Exact(build, |m.rows|)
    ensures AlwaysSolves(NoCrossProducts(m), log) <==> Exact(build, |m.rows|)
  {
    var space := NoCrossProducts(m);
    if Exact(build, |m.rows|) {
      CoutMonotone(s => 0.0);
      FinishedRun(space, build, Cout(s => 0.0), log, p);
    } else {
      var _ := Unvisited(m, log);
    }
    hide *;
    AlwaysSolvesIffComplete(space, log);
  }

  lemma UnvisitedHasNoPlan(m: Matrix, build: Build, cm: CostModel, log: Calls, p: Position)
    requires m.Valid() && |m.rows| >= 2 && m.Connected(m.All()) && !Exact(build, |m.rows|)
    requires Progress(NoCrossProducts(m), build, log, p)
    ensures !Solved(NoCrossProducts(m), cm, Replay(cm, |m.rows|, log))
  {
    var rest := Unvisited(m, log);
    NeverJoined(cm, |m.rows|, log, rest);
    hide Replay, Optimal, SearchSpace.HasTree;
  }

  lemma {:induction false} NeverJoined(cm: CostModel, n: nat, log: Calls, s: Subproblem)
    requires |s| >= 2 && forall p :: p in log ==> p.0 + p.1 != s
    ensures s !in Replay(cm, n, log)
  {
    if log != [] {
      var k := |log| - 1;
      var (l, r) := log[k];
      assert (l, r) == log[k] && log[k] in log && forall p :: p in log[..k] ==> p in log;
      NeverJoined(cm, n, log[..k], s);
    }
  }

  /** Computes the join order using size-based dynamic programming over subset pairs.  Every build
      considers only pairs; one whose walks are exact considers all of them, in an order that
      yields the cheapest plans.  On a connected join graph every other build leaves a connected set
      without a plan. */
  method DPsizeSub(pt: PlanTable, m: Matrix, build: Build)
    requires m.Valid() && pt.n == |m.rows| && pt.Valid() && pt.log == [] && pt.model.Monotone()
    modifies pt
    ensures OnlyPairs(NoCrossProducts(m), pt.log) && pt.Valid()
    ensures !Exact(build, pt.n) ==> Spared(NoCrossProducts(m), pt.log)
    ensures pt.n >= 2 && m.Connected(m.All()) ==> (Complete(NoCrossProducts(m), pt.log) <==> Exact(build, pt.n))
    ensures pt.n >= 2 && m.Connected(m.All()) ==> (AlwaysSolves(NoCrossProducts(m), pt.log) <==> Exact(build, pt.n))
    ensures pt.n >= 2 && m.Connected(m.All())
            ==> (Solved(NoCrossProducts(m), pt.model, pt.entries) <==> Exact(build, pt.n))
    ensures Exact(build, pt.n) ==> Solved(NoCrossProducts(m), pt.model, pt.entries)
    ensures Exact(build, pt.n) ==> WellOrdered(NoCrossProducts(m), pt.log) && NoDuplicates(pt.log)
    ensures Exact(build, pt.n) ==> forall a, b :: (a, b) in pt.log <==> Pair(NoCrossProducts(m), a, b)
  {
    hide Progress, Pair, Value, Pow2, Below, Following, Replay, Matrix.Valid, SearchSpace.HasTree, CostModel.Monotone,
        Exact, Visitable, Spared, Complete, AlwaysSolves, Solved, Matrix.Connected;
    ghost var space := NoCrossProducts(m);
    var n := pt.n;
    StartProgress(space, build);
    var size := 2;
    while size <= n
      invariant 2 <= size <= n + 2 && pt.Valid() && Progress(space, build, pt.log, Position(size, 0, {}, 0))
      decreases n + 2 - size
    {
      var s := Below(size);
      Sizes.StartOfSize(space, build, size);
      FirstWhole(space, build, pt.log, size);
      while Value(s, n + 1) < Pow2(n)
        invariant {} < s <= Below(n + 1) && Sizes.OnWalk(space, build, size, s) && pt.Valid()
        invariant Progress(space, build, pt.log, Position(size, Sizes.Number(space, s), {}, 0))
        decreases Pow2(n) - Value(s, n + 1)
      {
        Sizes.WithinSources(space, s);
        Sizes.StepOfSize(space, build, size, s);
        var connected := m.IsConnected(s);
        if connected {
          AnySize(space, build, pt.log, Position(size, Sizes.Number(space, s), {}, 0), |s|);
          JoinSubsets(pt, m, build, s, space);
          AllSubsetsPassed(space, s);
          NextWhole(space, build, pt.log, At(space, s, s), s);
          AnySize(space, build, pt.log, Position(|s|, Sizes.Number(space, Following(build, s)), {}, 0), size);
        } else {
          Subsets.UnconnectedHasNoSplit(m, s);
          NextWhole(space, build, pt.log, Position(size, Sizes.Number(space, s), {}, 0), s);
        }
        s := Following(build, s);
      }
      NextSize(space, build, pt.log, Position(size, Sizes.Number(space, s), {}, 0));
      size := size + 1;
    }
    if Exact(build, pt.n) {
      FinishedRun(space, build, pt.model, pt.log, Position(size, 0, {}, 0));
    }
    if n >= 2 && m.Connected(m.All()) {
      CompleteIffExact(m, build, pt.log, Position(size, 0, {}, 0));
      if !Exact(build, n) {
        UnvisitedHasNoPlan(m, build, pt.model, pt.log, Position(size, 0, {}, 0));
      }
    }
    ProgressOf(space, build, pt.log, Position(size, 0, {}, 0));
  }

  lemma AnySize(space: SearchSpace, build: Build, log: Calls, p: Position, size: nat)
    requires Progress(space, build, log, p) && (Exact(build, space.NumSources()) ==> p.size == size)
    ensures Progress(space, build, log, p.(size := size))
  {}

  /** The walk over the proper subsets of one connected subproblem. */
  method JoinSubsets(pt: PlanTable, m: Matrix, ghost build: Build, s: Subproblem, ghost space: SearchSpace)
    requires m.Valid() && space == NoCrossProducts(m) && pt.n == |m.rows| && pt.Valid() && pt.model.Monotone()
    requires {} < s <= Below(pt.n) && m.Connected(s) && (!Exact(build, pt.n) ==> Visitable(pt.n, s))
    requires Progress(space, build, pt.log, Position(|s|, Sizes.Number(space, s), {}, 0))
    modifies pt
    ensures pt.Valid() && Progress(space, build, pt.log, At(space, s, s))
  {
    hide Progress, Pair, Value, Below, NextSubset, Replay, Matrix.Valid, SearchSpace.HasTree, CostModel.Monotone, At,
        Exact, Visitable;
    var n := pt.n;
    EnterWalk(space, build, pt.log, s);
    var o := LeastSubset(s);
    while o != s
      invariant {} < o <= s && pt.Valid() && Progress(space, build, pt.log, At(space, s, o))
      decreases Value(s, n) - Value(o, n)
    {
      var comp := s - o;
      ValueProperSubset(o, s, n);
      NextSubsetIsNext(o, s, {}, n);
      ValueSubset(NextSubset(o, s), s, n);
      m.ConnectedHasNoEmptyCut(s, o);
      assert m.Adjacent(o, comp);
      SplitTest(space, build, m, pt.model, pt.log, s, o);
      if pt.HasPlan(o) && pt.HasPlan(comp) {
        TakeSplit(space, build, pt.log, s, o);
        pt.Update(o, comp);
      } else {
        SkipSplit(space, build, pt.log, s, o);
      }
      o := NextSubset(o, s);
    }
  }

  lemma SplitTest(space: SearchSpace, build: Build, m: Matrix, cm: CostModel, log: Calls, s: Subproblem, l: Subproblem)
    requires m.Valid() && space == NoCrossProducts(m) && cm.Monotone()
    requires {} < l < s <= m.All() && m.Connected(s) && Progress(space, build, log, At(space, s, l))
    ensures var e := Replay(cm, |m.rows|, log);
            && ((|l| == 1 || l in e) && (|s - l| == 1 || s - l in e)
                ==> Pair(space, l, s - l) && l in e && s - l in e)
            && (Exact(build, |m.rows|) && Pair(space, l, s - l) ==> l in e && s - l in e)
  {
    ProperPart(s, l);
    SideHasPlan(space, build, cm, log, At(space, s, l), l);
    SideHasPlan(space, build, cm, log, At(space, s, l), s - l);
    m.ConnectedHasNoEmptyCut(s, l);
  }
}
