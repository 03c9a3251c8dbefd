/** The size-driven enumerators `DPsize` and `DPsizeOpt`: pairs of subproblems by the size of
    their union, then by the size and the number of the left side, then by the number of the
    right side.  The sets of one size are walked by the iterator of the build. */
module SizeEnumerators {
  import opened SmallBitset
  import opened SizedSubsets
  import opened AdjacencyMatrix
  import opened PlanTables
  import opened EnumerationFacts

  /** The number of a subproblem of `space`; the walk over the sets of one size ends at the first
      set that contains the index after the last source. */
  function Number(space: SearchSpace, s: Subproblem): nat {
    Value(s, space.NumSources() + 1)
  }

  /** A position of the loops: size of the union, size and number of the left side, number of
      the right side. */
  datatype Position = Position(size: nat, leftSize: nat, left: nat, right: nat)

  /** A run of `DPsize`, or of `DPsizeOpt`, by one of the builds. */
  datatype Run = Run(build: Build, opt: bool)

  /** `DPsizeOpt` considers only pairs whose left side is smaller, or of the same size and with
      a smaller number. */
  ghost predicate Ordered(space: SearchSpace, run: Run, a: Subproblem, b: Subproblem) {
    run.opt ==> |a| < |b| || (|a| == |b| && Number(space, a) < Number(space, b))
  }

  ghost predicate Passed(space: SearchSpace, run: Run, a: Subproblem, b: Subproblem, p: Position) {
    && Pair(space, a, b) && Ordered(space, run, a, b)
    && (|a| + |b| < p.size || (|a| + |b| == p.size && (|a| < p.leftSize || (|a| == p.leftSize
        && (Number(space, a) < p.left || (Number(space, a) == p.left && Number(space, b) < p.right))))))
  }

  /** All calls are for pairs.  Where the walks are exact these are the ones before `p`; elsewhere
      the sides are sets that a portable walk can visit. */
  ghost predicate Progress(space: SearchSpace, run: Run, log: Calls, p: Position) {
    && OnlyPairs(space, log)
    && (if Exact(run.build, space.NumSources()) then Reached(space, run, log, p) else Spared(space, log))
  }

  ghost predicate Spared(space: SearchSpace, log: Calls) {
    forall p :: p in log ==> Visitable(space.NumSources(), p.0) && Visitable(space.NumSources(), p.1)
  }

  ghost predicate Reached(space: SearchSpace, run: Run, log: Calls, p: Position) {
    && WellOrdered(space, log)
    && NoDuplicates(log)
    && forall a, b :: (a, b) in log <==> Passed(space, run, a, b, p)
  }

  lemma NumberInjective(space: SearchSpace, a: Subproblem, b: Subproblem)
    requires a <= Below(space.NumSources()) && b <= Below(space.NumSources())
    requires Number(space, a) == Number(space, b)
    ensures a == b
  {
    ValueInjective(a, b, space.NumSources() + 1);
  }

  lemma StartProgress(space: SearchSpace, run: Run)
    requires space.Valid()
    ensures Progress(space, run, [], Position(2, 1, 0, 0))
  {
    forall a, b | Pair(space, a, b) ensures !Passed(space, run, a, b, Position(2, 1, 0, 0)) {
      PairFacts(space, a, b);
    }
  }

  lemma SmallerIsSettled(space: SearchSpace, run: Run, log: Calls, p: Position, t: Subproblem)
    requires space.Valid() && Progress(space, run, log, p) && |t| < p.size
    requires Exact(run.build, space.NumSources())
    ensures Settled(space, log, t)
  {
    forall a, b | a + b == t && Pair(space, a, b) ensures PairIn(log, a, b) {
      PairFacts(space, a, b);
      assert b + a == t;
      if !Ordered(space, run, a, b) {
        if Number(space, a) == Number(space, b) {
          NumberInjective(space, a, b);
        }
        assert Passed(space, run, b, a, p);
      } else {
        assert Passed(space, run, a, b, p);
      }
    }
  }

  /** Moving to a position that passes the same pairs. */
  lemma Advance(space: SearchSpace, run: Run, log: Calls, p: Position, q: Position)
    requires Progress(space, run, log, p)
    requires Exact(run.build, space.NumSources()) ==>
               forall a, b :: Passed(space, run, a, b, p) <==> Passed(space, run, a, b, q)
    ensures Progress(space, run, log, q)
  {}

  lemma Sides(space: SearchSpace, a: Subproblem, b: Subproblem)
    requires space.Valid() && Pair(space, a, b)
    ensures {} < a <= Below(space.NumSources()) && {} < b <= Below(space.NumSources())
    ensures |a| >= 1 && |b| >= 1 && space.HasTree(a)
  {
    PairFacts(space, a, b);
  }

  lemma NumberBound(space: SearchSpace, a: Subproblem, b: Subproblem)
    requires space.Valid() && Pair(space, a, b)
    ensures Number(space, a) < Pow2(space.NumSources()) && Number(space, b) < Pow2(space.NumSources())
  {
    PairFacts(space, a, b);
    ValueBound(a, space.NumSources());
    ValueBound(b, space.NumSources());
    assert space.NumSources() !in a && space.NumSources() !in b;
  }

  lemma NextLeftSize(space: SearchSpace, run: Run, log: Calls, p: Position)
    requires space.Valid()
    requires Progress(space, run, log, p)
    requires p.left >= Pow2(space.NumSources()) && p.right == 0
    ensures Progress(space, run, log, Position(p.size, p.leftSize + 1, 0, 0))
  {
    hide Progress, Passed;
    var q := Position(p.size, p.leftSize + 1, 0, 0);
    if Exact(run.build, space.NumSources()) {
      forall a, b ensures Passed(space, run, a, b, p) <==> Passed(space, run, a, b, q) {
        NextLeftSizePair(space, run, p, a, b);
      }
    }
    Advance(space, run, log, p, q);
  }

  lemma NextLeftSizePair(space: SearchSpace, run: Run, p: Position, a: Subproblem, b: Subproblem)
    requires space.Valid()
    requires p.left >= Pow2(space.NumSources()) && p.right == 0
    ensures Passed(space, run, a, b, p) <==> Passed(space, run, a, b, Position(p.size, p.leftSize + 1, 0, 0))
  {
    hide Pair, Value, Below, Pow2, Following;
    if Pair(space, a, b) {
      NumberBound(space, a, b);
    }
  }

  lemma NextSize(space: SearchSpace, run: Run, log: Calls, p: Position)
    requires space.Valid()
    requires Progress(space, run, log, p)
    requires p.left == 0 && p.right == 0
    requires p.leftSize == if run.opt then p.size / 2 + 1 else p.size
    ensures Progress(space, run, log, Position(p.size + 1, 1, 0, 0))
  {
    hide Progress, Passed;
    var q := Position(p.size + 1, 1, 0, 0);
    if Exact(run.build, space.NumSources()) {
      forall a, b ensures Passed(space, run, a, b, p) <==> Passed(space, run, a, b, q) {
        NextSizePair(space, run, p, a, b);
      }
    }
    Advance(space, run, log, p, q);
  }

  lemma NextSizePair(space: SearchSpace, run: Run, p: Position, a: Subproblem, b: Subproblem)
    requires space.Valid()
    requires p.left == 0 && p.right == 0
    requires p.leftSize == if run.opt then p.size / 2 + 1 else p.size
    ensures Passed(space, run, a, b, p) <==> Passed(space, run, a, b, Position(p.size + 1, 1, 0, 0))
  {
    hide Pair, Value, Below, Pow2, Following;
    if Pair(space, a, b) {
      Sides(space, a, b);
    }
  }

  /** The left side starts at the numerically least set of its size. */
  lemma FirstLeft(space: SearchSpace, run: Run, log: Calls, p: Position)
    requires space.Valid()
    requires Progress(space, run, log, p)
    requires p.leftSize <= space.NumSources() && p.left == 0 && p.right == 0
    ensures Progress(space, run, log, p.(left := Number(space, Below(p.leftSize))))
  {
    hide Progress, Passed;
    var q := p.(left := Number(space, Below(p.leftSize)));
    if Exact(run.build, space.NumSources()) {
      forall a, b ensures Passed(space, run, a, b, p) <==> Passed(space, run, a, b, q) {
        FirstLeftPair(space, run, p, a, b);
      }
    }
    Advance(space, run, log, p, q);
  }

  lemma FirstLeftPair(space: SearchSpace, run: Run, p: Position, a: Subproblem, b: Subproblem)
    requires space.Valid()
    requires p.leftSize <= space.NumSources() && p.left == 0 && p.right == 0
    ensures Passed(space, run, a, b, p) <==> Passed(space, run, a, b, p.(left := Number(space, Below(p.leftSize))))
  {
    hide Pair, Value, Below, Pow2, Following, Ordered, SearchSpace.Valid;
    if Pair(space, a, b) && |a| == p.leftSize {
      Sides(space, a, b);
      FirstOfSizeIsLeast(a, p.leftSize, space.NumSources() + 1);
    }
  }

  lemma FirstRight(space: SearchSpace, run: Run, log: Calls, p: Position)
    requires space.Valid()
    requires Progress(space, run, log, p)
    requires p.right == 0 && p.leftSize <= p.size <= space.NumSources()
    ensures Progress(space, run, log, p.(right := Number(space, Below(p.size - p.leftSize))))
  {
    hide Progress, Passed;
    var q := p.(right := Number(space, Below(p.size - p.leftSize)));
    if Exact(run.build, space.NumSources()) {
      forall a, b ensures Passed(space, run, a, b, p) <==> Passed(space, run, a, b, q) {
        FirstRightPair(space, run, p, a, b);
      }
    }
    Advance(space, run, log, p, q);
  }

  lemma FirstRightPair(space: SearchSpace, run: Run, p: Position, a: Subproblem, b: Subproblem)
    requires space.Valid()
    requires p.right == 0 && p.leftSize <= p.size <= space.NumSources()
    ensures Passed(space, run, a, b, p)
            <==> Passed(space, run, a, b, p.(right := Number(space, Below(p.size - p.leftSize))))
  {
    hide Pair, Value, Below, Pow2, Following, Ordered, SearchSpace.Valid;
    if Pair(space, a, b) && |a| + |b| == p.size && |a| == p.leftSize {
      Sides(space, a, b);
      FirstOfSizeIsLeast(b, p.size - p.leftSize, space.NumSources() + 1);
    }
  }

  /** For sides of equal size `DPsizeOpt` starts the right side after the left one. */
  lemma FirstRightAfterLeft(space: SearchSpace, run: Run, log: Calls, l: Subproblem, p: Position)
    requires space.Valid() && run.opt
    requires Progress(space, run, log, p)
    requires {} < l <= Below(space.NumSources())
    requires p.right == 0 && p.left == Number(space, l)
    requires Exact(run.build, space.NumSources()) ==> p.leftSize == |l| && p.size == 2 * |l|
    ensures Progress(space, run, log, p.(right := Number(space, Following(run.build, l))))
  {
    hide Progress, Passed;
    var q := p.(right := Number(space, Following(run.build, l)));
    if Exact(run.build, space.NumSources()) {
      forall a, b ensures Passed(space, run, a, b, p) <==> Passed(space, run, a, b, q) {
        FirstRightAfterLeftPair(space, run, l, p, a, b);
      }
    }
    Advance(space, run, log, p, q);
  }

  lemma FirstRightAfterLeftPair(space: SearchSpace, run: Run, l: Subproblem, p: Position, a: Subproblem, b: Subproblem)
    requires space.Valid() && run.opt && Exact(run.build, space.NumSources())
    requires {} < l <= Below(space.NumSources())
    requires p.right == 0 && p.left == Number(space, l) && p.leftSize == |l| && p.size == 2 * |l|
    ensures Passed(space, run, a, b, p)
            <==> Passed(space, run, a, b, p.(right := Number(space, Following(run.build, l))))
  {
    hide Pair, Value, Below, Pow2, Following;
    if Pair(space, a, b) && |a| + |b| == p.size && |a| == p.leftSize && Number(space, a) == p.left {
      Sides(space, a, b);
      NumberInjective(space, a, l);
      StepIsNext(space, run.build, l, b);
    }
  }

  /** An exact walk skips no set of the size. */
  lemma StepIsNext(space: SearchSpace, build: Build, l: Subproblem, b: Subproblem)
    requires {} < l <= Below(space.NumSources()) && Exact(build, space.NumSources())
    ensures Number(space, l) < Number(space, Following(build, l))
    ensures b <= Below(space.NumSources()) && |b| == |l| && Number(space, l) < Number(space, b)
            ==> Number(space, Following(build, l)) <= Number(space, b)
  {
    var n := space.NumSources();
    NextOfSizeIsNext(l, b, n);
    FollowingStep(build, l, n);
    ExactStep(build, l, n);
    if b <= Below(n) && Following(build, l) != NextOfSize(l) {
      WithinSources(space, b);
      WithinSources(space, NextOfSize(l));
      assert n !in Below(n);
    }
    hide *;
  }

  /** The left side moves on when it has no plan or all right sides were visited. */
  lemma NextLeft(space: SearchSpace, run: Run, log: Calls, l: Subproblem, p: Position)
    requires space.Valid()
    requires Progress(space, run, log, p)
    requires {} < l <= Below(space.NumSources())
    requires p.left == Number(space, l) && (Exact(run.build, space.NumSources()) ==> p.leftSize == |l|)
    requires p.right >= Pow2(space.NumSources()) || !space.HasTree(l) || !Exact(run.build, space.NumSources())
    ensures Progress(space, run, log, p.(left := Number(space, Following(run.build, l)), right := 0))
  {
    hide Progress, Passed;
    var q := p.(left := Number(space, Following(run.build, l)), right := 0);
    if Exact(run.build, space.NumSources()) {
      forall a, b ensures Passed(space, run, a, b, p) <==> Passed(space, run, a, b, q) {
        NextLeftPair(space, run, l, p, a, b);
      }
    }
    Advance(space, run, log, p, q);
  }

  lemma NextLeftPair(space: SearchSpace, run: Run, l: Subproblem, p: Position, a: Subproblem, b: Subproblem)
    requires space.Valid() && Exact(run.build, space.NumSources())
    requires {} < l <= Below(space.NumSources())
    requires p.left == Number(space, l) && p.leftSize == |l|
    requires p.right >= Pow2(space.NumSources()) || !space.HasTree(l)
    ensures Passed(space, run, a, b, p)
            <==> Passed(space, run, a, b, p.(left := Number(space, Following(run.build, l)), right := 0))
  {
    hide Pair, Value, Below, Pow2, Following;
    StepIsNext(space, run.build, l, a);
    if Pair(space, a, b) && |a| == p.leftSize {
      Sides(space, a, b);
      NumberBound(space, a, b);
      if Number(space, a) == Number(space, l) {
        NumberInjective(space, a, l);
      }
    }
  }

  /** The right side moves on: at most the pair of the current two sides is passed. */
  lemma NextRight(space: SearchSpace, run: Run, l: Subproblem, r: Subproblem, p: Position, a: Subproblem, b: Subproblem)
    requires space.Valid() && {} < l <= Below(space.NumSources()) && {} < r <= Below(space.NumSources())
    requires p == Position(|l| + |r|, |l|, Number(space, l), Number(space, r)) && Exact(run.build, space.NumSources())
    ensures Passed(space, run, a, b, p.(right := Number(space, Following(run.build, r))))
            <==> Passed(space, run, a, b, p) || (a == l && b == r && Pair(space, l, r) && Ordered(space, run, l, r))
  {
    hide Pair, Value, Below, Following;
    var n := space.NumSources();
    StepIsNext(space, run.build, r, b);
    if Pair(space, a, b) && |a| + |b| == p.size && |a| == |l| && Number(space, a) == p.left {
      Sides(space, a, b);
      NumberInjective(space, a, l);
      if Number(space, b) == Number(space, r) {
        NumberInjective(space, b, r);
      }
    }
  }

  /** A set on a walk over the sets of size `k`. */
  ghost predicate OnWalk(space: SearchSpace, build: Build, k: nat, s: Subproblem) {
    if Exact(build, space.NumSources()) then s <= Below(space.NumSources()) ==> |s| == k
    else Visitable(space.NumSources(), s)
  }

  /** Two sides on their walks, at the position `p`. */
  ghost predicate AtSides(space: SearchSpace, run: Run, p: Position, l: Subproblem, r: Subproblem) {
    if Exact(run.build, space.NumSources()) then p == Position(|l| + |r|, |l|, Number(space, l), Number(space, r))
    else Visitable(space.NumSources(), l) && Visitable(space.NumSources(), r)
  }

  lemma SkipRight(space: SearchSpace, run: Run, log: Calls, l: Subproblem, r: Subproblem, p: Position)
    requires space.Valid() && {} < l <= Below(space.NumSources()) && {} < r <= Below(space.NumSources())
    requires AtSides(space, run, p, l, r)
    requires Progress(space, run, log, p) && (Exact(run.build, space.NumSources()) ==> !Pair(space, l, r))
    ensures Progress(space, run, log, p.(right := Number(space, Following(run.build, r))))
  {
    hide Progress, Passed, Pair;
    var q := p.(right := Number(space, Following(run.build, r)));
    if Exact(run.build, space.NumSources()) {
      forall a, b ensures Passed(space, run, a, b, p) <==> Passed(space, run, a, b, q) {
        NextRight(space, run, l, r, p, a, b);
      }
    }
    Advance(space, run, log, p, q);
  }

  lemma TakeRight(space: SearchSpace, run: Run, log: Calls, l: Subproblem, r: Subproblem, p: Position)
    requires space.Valid() && {} < l <= Below(space.NumSources()) && {} < r <= Below(space.NumSources())
    requires AtSides(space, run, p, l, r)
    requires Progress(space, run, log, p) && Pair(space, l, r)
    requires Exact(run.build, space.NumSources()) ==> Ordered(space, run, l, r)
    ensures Progress(space, run, log + [(l, r)], p.(right := Number(space, Following(run.build, r))))
  {
    ProgressOf(space, run, log, p);
    if Exact(run.build, space.NumSources()) {
      TakeReaches(space, run, log, l, r, p);
    } else {
      SparedAppend(space, log, l, r);
    }
    hide *;
    OnlyPairsAppend(space, log, l, r);
    ProgressFrom(space, run, log + [(l, r)], p.(right := Number(space, Following(run.build, r))));
  }

  lemma OnlyPairsAppend(space: SearchSpace, log: Calls, l: Subproblem, r: Subproblem)
    requires OnlyPairs(space, log) && Pair(space, l, r)
    ensures OnlyPairs(space, log + [(l, r)])
  {
    hide Pair;
  }

  lemma SparedAppend(space: SearchSpace, log: Calls, l: Subproblem, r: Subproblem)
    requires Spared(space, log) && Visitable(space.NumSources(), l) && Visitable(space.NumSources(), r)
    ensures Spared(space, log + [(l, r)])
  {
    hide Visitable;
  }

  lemma TakeReaches(space: SearchSpace, run: Run, log: Calls, l: Subproblem, r: Subproblem, p: Position)
    requires space.Valid() && {} < l <= Below(space.NumSources()) && {} < r <= Below(space.NumSources())
    requires Exact(run.build, space.NumSources()) && AtSides(space, run, p, l, r)
    requires Progress(space, run, log, p) && Pair(space, l, r) && Ordered(space, run, l, r)
    ensures Reached(space, run, log + [(l, r)], p.(right := Number(space, Following(run.build, r))))
  {
    PairFacts(space, l, r);
    SmallerIsSettled(space, run, log, p, l);
    SmallerIsSettled(space, run, log, p, r);
    hide Settled;
    WellOrderedAppend(space, log, l, r);
    hide WellOrdered;
    assert !Passed(space, run, l, r, p);
    AppendOnce(log, l, r);
    hide Passed, Pair;
    forall a, b
      ensures (a, b) in log + [(l, r)]
              <==> Passed(space, run, a, b, p.(right := Number(space, Following(run.build, r))))
    {
      assert (a, b) in log + [(l, r)] <==> (a, b) in log || (a == l && b == r);
      NextRight(space, run, l, r, p, a, b);
    }
  }

  lemma ProgressOf(space: SearchSpace, run: Run, log: Calls, p: Position)
    requires Progress(space, run, log, p)
    ensures OnlyPairs(space, log) && (Exact(run.build, space.NumSources()) ==> Reached(space, run, log, p))
    ensures !Exact(run.build, space.NumSources()) ==> Spared(space, log)
  {}

  lemma ProgressFrom(space: SearchSpace, run: Run, log: Calls, p: Position)
    requires OnlyPairs(space, log) && (Exact(run.build, space.NumSources()) ==> Reached(space, run, log, p))
    requires !Exact(run.build, space.NumSources()) ==> Spared(space, log)
    ensures Progress(space, run, log, p)
  {}

  lemma FinishedRun(space: SearchSpace, run: Run, cm: CostModel, log: Calls, p: Position)
    requires space.Valid() && cm.Monotone() && Exact(run.build, space.NumSources())
    requires Progress(space, run, log, p) && p.size > space.NumSources()
    ensures Solved(space, cm, Replay(cm, space.NumSources(), log))
    ensures WellOrdered(space, log) && NoDuplicates(log)
    ensures run.opt ==> NoSymmetricDuplicates(log)
    ensures forall a, b :: Pair(space, a, b) ==> PairIn(log, a, b) && (!run.opt ==> (a, b) in log)
    ensures forall a, b :: PairIn(log, a, b) ==> Pair(space, a, b)
  {
    forall a, b | Pair(space, a, b) ensures PairIn(log, a, b) && (!run.opt ==> (a, b) in log) {
      PairFacts(space, a, b);
      CountIsSize(a + b, space.NumSources());
      ValueOfCount(a + b, space.NumSources());
      SmallerIsSettled(space, run, log, p, a + b);
    }
    forall a, b | PairIn(log, a, b) ensures Pair(space, a, b) {
      if (b, a) in log {
        PairFacts(space, b, a);
      }
    }
    CompleteCallsSolve(space, cm, log);
  }

  /** Walking the sets of one size inside `Below(n)`. */
  lemma WithinSources(space: SearchSpace, s: Subproblem)
    requires s <= Below(space.NumSources() + 1)
    ensures Number(space, s) < Pow2(space.NumSources()) <==> s <= Below(space.NumSources())
  {
    ValueBound(s, space.NumSources());
  }

  lemma StartOfSize(space: SearchSpace, build: Build, k: nat)
    requires 1 <= k <= space.NumSources()
    ensures {} < Below(k) <= Below(space.NumSources()) && OnWalk(space, build, k, Below(k))
  {
    BelowSize(k);
    FirstIsVisitable(space.NumSources(), k);
    assert 0 in Below(k);
  }

  lemma StepOfSize(space: SearchSpace, build: Build, k: nat, s: Subproblem)
    requires {} < s <= Below(space.NumSources()) && OnWalk(space, build, k, s)
    ensures {} < Following(build, s) <= Below(space.NumSources() + 1)
    ensures Number(space, s) < Number(space, Following(build, s))
    ensures OnWalk(space, build, k, Following(build, s))
  {
    var n := space.NumSources();
    FollowingStep(build, s, n);
    if Exact(build, n) {
      ExactStep(build, s, n);
      assert n !in Below(n);
    } else {
      StepIsVisitable(build, s, n);
    }
    hide Following, NextOfSize, Value, Below, Visitable;
  }

  // ------------------------------------------------------------------ what a portable walk misses

  /** A connected join graph has a relation other than the last one without which the others are
      still connected; no portable walk visits these others. */
  lemma AllButOne(m: Matrix) returns (rest: Subproblem, x: nat)
    requires m.Valid() && |m.rows| >= 2 && m.Connected(m.All())
    ensures rest + {x} == m.All() && |rest| == |m.rows| - 1 && m.Connected(rest)
    ensures x != |m.rows| - 1 && Pair(NoCrossProducts(m), rest, {x}) && !Visitable(|m.rows|, rest)
  {
    var n := |m.rows|;
    BelowSize(n);
    assert n - 1 in m.All();
    rest, x := m.ConnectedSplitsAround(m.All(), n - 1);
    assert m.All() - {x} == rest;
    PairWithoutCrossProducts(m, rest, {x});
    assert x !in rest && x in m.All() && rest + {n - 1} == rest;
  }

  /** On a connected join graph the calls miss this pair whenever the walks are not exact. */
  lemma SparedMisses(m: Matrix, log: Calls) returns (rest: Subproblem, x: nat)
    requires m.Valid() && |m.rows| >= 2 && m.Connected(m.All()) && Spared(NoCrossProducts(m), log)
    ensures rest + {x} == m.All() && x != |m.rows| - 1 && m.Connected(rest)
    ensures Pair(NoCrossProducts(m), rest, {x}) && !PairIn(log, rest, {x}) && !Complete(NoCrossProducts(m), log)
  {
    rest, x := AllButOne(m);
    hide Pair, Visitable, Matrix.Connected;
    assert !PairIn(log, rest, {x});
  }

  /** What a run promises at its end: it is complete, and cheapest for all costs, exactly when the walks
      are exact. */
  lemma CompleteIffExact(m: Matrix, run: Run, log: Calls, p: Position)
    requires m.Valid() && |m.rows| >= 2 && m.Connected(m.All())
    requires Progress(NoCrossProducts(m), run, log, p) && p.size > |m.rows|
    ensures Complete(NoCrossProducts(m), log) <==> Exact(run.build, |m.rows|)
    ensures AlwaysSolves(NoCrossProducts(m), log) <==> Exact(run.build, |m.rows|)
  {
    var space := NoCrossProducts(m);
    if Exact(run.build, |m.rows|) {
      CoutMonotone(s => 0.0);
      FinishedRun(space, run, Cout(s => 0.0), log, p);
    } else {
      var _, _ := SparedMisses(m, log);
    }
    hide *;
    AlwaysSolvesIffComplete(space, log);
  }

  /** Every relation is joined with the last one. */
  function Star(n: nat): (m: Matrix)
    requires n >= 2
    ensures |m.rows| == n && forall i: nat :: i < n ==> m.rows[i] == Rays(n, i)
  {
    Matrix(seq(n, (i: nat) => Rays(n, i)))
  }

  function Rays(n: nat, i: nat): Subproblem
    requires n >= 2
  {
    if i == n - 1 then Below(n - 1) else {n - 1}
  }

  /** From 33 relations on, no portable walk of any size visits the relations of this star other than
      the first, so this pair is missed. */
  lemma StarPairMissed(n: nat)
    requires n > 32
    ensures var m, rest := Star(n), Below(n) - {0};
            && m.Valid() && Pair(NoCrossProducts(m), rest, {0})
            && (forall k :: 1 <= k <= n ==>
                  {} < Below(k) <= Below(n + 1) && rest !in Walk(PopulationCount, n, Below(k)))
            && (forall log :: Spared(NoCrossProducts(m), log) ==> !PairIn(log, rest, {0}))
  {
    var m, rest := Star(n), Below(n) - {0};
    StarPair(n);
    hide Pair, Star, Walk;
    RestIsNotVisitable(n);
    forall k | 1 <= k <= n
      ensures {} < Below(k) <= Below(n + 1) && rest !in Walk(PopulationCount, n, Below(k))
    {
      assert 0 in Below(k);
      FirstIsVisitable(n, k);
      hide Visitable;
      PortableWalkVisits(n, Below(k));
    }
  }

  lemma RestIsNotVisitable(n: nat)
    requires n >= 2
    ensures !Visitable(n, Below(n) - {0})
  {
    BelowSize(n);
    assert 0 in Below(n) && n - 1 in Below(n) - {0};
    assert 0 !in (Below(n) - {0}) + {n - 1};
  }

  lemma StarPair(n: nat)
    requires n >= 2
    ensures Star(n).Valid() && Pair(NoCrossProducts(Star(n)), Below(n) - {0}, {0})
  {
    var m, rest := Star(n), Below(n) - {0};
    forall u, v | u in rest && v in rest ensures m.Reaches(u, v, rest) {
      StarPath(n, u, v);
    }
    m.SingletonConnected(0);
    assert n - 1 in rest && n - 1 in m.rows[0] && 0 in m.rows[n - 1];
    assert m.Adjacent(rest, {0});
    hide Star, Below, Matrix.Reaches, Pair;
    PairWithoutCrossProducts(m, rest, {0});
  }

  lemma StarPath(n: nat, u: nat, v: nat)
    requires n >= 2 && u in Below(n) - {0} && v in Below(n) - {0}
    ensures Star(n).Reaches(u, v, Below(n) - {0})
  {
    var p := if u == v then [u] else if u == n - 1 || v == n - 1 then [u, v] else [u, n - 1, v];
    assert Star(n).IsPath(p, Below(n) - {0});
  }

  // -------------------------------------------------------------------------- the enumerators

  /** Computes the join order using size-based dynamic programming.  Every build considers only
      pairs; one whose walks are exact considers all of them, in an order that yields the cheapest
      plans.  On a connected join graph no other build considers all of them, and what it considers
      does not yield the cheapest plans for all costs. */
  method DPsize(pt: PlanTable, m: Matrix, build: Build)
    requires m.Valid() && pt.n == |m.rows| && pt.Valid() && pt.log == [] && pt.model.Monotone()
    modifies pt
    ensures OnlyPairs(NoCrossProducts(m), pt.log) && pt.Valid()
    ensures !Exact(build, pt.n) ==> Spared(NoCrossProducts(m), pt.log)
    ensures pt.n >= 2 && m.Connected(m.All()) ==> (Complete(NoCrossProducts(m), pt.log) <==> Exact(build, pt.n))
    ensures pt.n >= 2 && m.Connected(m.All()) ==> (AlwaysSolves(NoCrossProducts(m), pt.log) <==> Exact(build, pt.n))
    ensures Exact(build, pt.n) ==> Solved(NoCrossProducts(m), pt.model, pt.entries)
    ensures Exact(build, pt.n) ==> WellOrdered(NoCrossProducts(m), pt.log) && NoDuplicates(pt.log)
    ensures Exact(build, pt.n) ==> forall a, b :: (a, b) in pt.log <==> Pair(NoCrossProducts(m), a, b)
  {
    hide Progress, Pair, Value, Pow2, Below, Following, Replay, Matrix.Valid, SearchSpace.HasTree, CostModel.Monotone,
        Exact, Visitable, Spared, Complete, AlwaysSolves, Matrix.Connected;
    ghost var space, run := NoCrossProducts(m), Run(build, false);
    var n := pt.n;
    StartProgress(space, run);
    var s := 2;
    while s <= n
      invariant 2 <= s <= n + 2 && pt.Valid() && Progress(space, run, pt.log, Position(s, 1, 0, 0))
      decreases n + 2 - s
    {
      var s1 := 1;
      while s1 < s
        invariant 1 <= s1 <= s && pt.Valid() && Progress(space, run, pt.log, Position(s, s1, 0, 0))
      {
        var l := Below(s1);
        StartOfSize(space, build, s1);
        FirstLeft(space, run, pt.log, Position(s, s1, 0, 0));
        while Value(l, n + 1) < Pow2(n)
          invariant {} < l <= Below(n + 1) && OnWalk(space, build, s1, l) && pt.Valid()
          invariant Progress(space, run, pt.log, Position(s, s1, Number(space, l), 0))
          decreases Pow2(n) - Value(l, n + 1)
        {
          WithinSources(space, l);
          StepOfSize(space, build, s1, l);
          JoinWithAllOfSize(pt, m, build, s1, s - s1, l, space, run);
          l := Following(build, l);
        }
        NextLeftSize(space, run, pt.log, Position(s, s1, Number(space, l), 0));
        s1 := s1 + 1;
      }
      NextSize(space, run, pt.log, Position(s, s1, 0, 0));
      s := s + 1;
    }
    ProgressOf(space, run, pt.log, Position(s, 1, 0, 0));
    if n >= 2 && m.Connected(m.All()) {
      CompleteIffExact(m, run, pt.log, Position(s, 1, 0, 0));
    }
    if Exact(build, n) {
      FinishedRun(space, run, pt.model, pt.log, Position(s, 1, 0, 0));
    }
  }

  /** Like `DPsize`, but does not enumerate symmetric pairs: the left side is not larger, and of
      two sides of equal size the right one follows the left one. */
  method DPsizeOpt(pt: PlanTable, m: Matrix, build: Build)
    requires m.Valid() && pt.n == |m.rows| && pt.Valid() && pt.log == [] && pt.model.Monotone()
    modifies pt
    ensures OnlyPairs(NoCrossProducts(m), pt.log) && pt.Valid()
    ensures !Exact(build, pt.n) ==> Spared(NoCrossProducts(m), pt.log)
    ensures pt.n >= 2 && m.Connected(m.All()) ==> (Complete(NoCrossProducts(m), pt.log) <==> Exact(build, pt.n))
    ensures pt.n >= 2 && m.Connected(m.All()) ==> (AlwaysSolves(NoCrossProducts(m), pt.log) <==> Exact(build, pt.n))
    ensures Exact(build, pt.n) ==> Solved(NoCrossProducts(m), pt.model, pt.entries)
    ensures Exact(build, pt.n) ==> WellOrdered(NoCrossProducts(m), pt.log) && NoSymmetricDuplicates(pt.log)
    ensures Exact(build, pt.n) ==> forall a, b :: PairIn(pt.log, a, b) <==> Pair(NoCrossProducts(m), a, b)
  {
    hide Progress, Pair, Value, Pow2, Below, Following, Replay, Matrix.Valid, SearchSpace.HasTree, CostModel.Monotone,
        Exact, Visitable, Spared, Complete, AlwaysSolves, Matrix.Connected;
    ghost var space, run := NoCrossProducts(m), Run(build, true);
    var n := pt.n;
    StartProgress(space, run);
    var s := 2;
    while s <= n
      invariant 2 <= s <= n + 2 && pt.Valid() && Progress(space, run, pt.log, Position(s, 1, 0, 0))
      decreases n + 2 - s
    {
      var half := s / 2;
      var s1 := 1;
      while s1 <= half
        invariant 1 <= s1 <= half + 1 && pt.Valid() && Progress(space, run, pt.log, Position(s, s1, 0, 0))
      {
        var s2 := s - s1;
        var l := Below(s1);
        StartOfSize(space, build, s1);
        FirstLeft(space, run, pt.log, Position(s, s1, 0, 0));
        while Value(l, n + 1) < Pow2(n)
          invariant {} < l <= Below(n + 1) && OnWalk(space, build, s1, l) && pt.Valid()
          invariant Progress(space, run, pt.log, Position(s, s1, Number(space, l), 0))
          decreases Pow2(n) - Value(l, n + 1)
        {
          WithinSources(space, l);
          StepOfSize(space, build, s1, l);
          if s1 == s2 {
            JoinWithFollowing(pt, m, build, s1, l, space, run);
          } else {
            JoinWithAllOfSize(pt, m, build, s1, s2, l, space, run);
          }
          l := Following(build, l);
        }
        NextLeftSize(space, run, pt.log, Position(s, s1, Number(space, l), 0));
        s1 := s1 + 1;
      }
      NextSize(space, run, pt.log, Position(s, s1, 0, 0));
      s := s + 1;
    }
    ProgressOf(space, run, pt.log, Position(s, 1, 0, 0));
    if n >= 2 && m.Connected(m.All()) {
      CompleteIffExact(m, run, pt.log, Position(s, 1, 0, 0));
    }
    if Exact(build, n) {
      FinishedRun(space, run, pt.model, pt.log, Position(s, 1, 0, 0));
    }
  }

  /** The innermost loop over all subsets of size `s2`: joins `l` with those that have a plan, are
      disjoint from it and share a join edge with it. */
  method JoinWithAllOfSize(pt: PlanTable, m: Matrix, build: Build, ghost s1: nat, s2: nat, l: Subproblem,
                           ghost space: SearchSpace, ghost run: Run)
    requires m.Valid() && space == NoCrossProducts(m) && pt.n == |m.rows| && pt.Valid() && pt.model.Monotone()
    requires {} < l <= Below(pt.n) && 1 <= s1 && 1 <= s2 && s1 + s2 <= pt.n
    requires run.build == build && (run.opt ==> s1 < s2) && OnWalk(space, build, s1, l)
    requires Progress(space, run, pt.log, Position(s1 + s2, s1, Number(space, l), 0))
    modifies pt
    ensures pt.Valid()
    ensures Progress(space, run, pt.log, Position(s1 + s2, s1, Number(space, Following(build, l)), 0))
  {
    hide Progress, Pair, Value, Pow2, Below, Following, Replay, Matrix.Valid, SearchSpace.HasTree, CostModel.Monotone,
        Exact, Visitable;
    var n := pt.n;
    ghost var p := Position(s1 + s2, s1, Number(space, l), 0);
    SideHasPlan(space, run, pt.model, pt.log, p, l);
    if !pt.HasPlan(l) {
      NextLeft(space, run, pt.log, l, p);
      return;
    }
    var r := Below(s2);
    StartOfSize(space, build, s2);
    FirstRight(space, run, pt.log, p);
    while Value(r, n + 1) < Pow2(n)
      invariant {} < r <= Below(n + 1) && OnWalk(space, build, s2, r) && pt.Valid()
                && l in pt.entries
      invariant Progress(space, run, pt.log, p.(right := Number(space, r)))
      decreases Pow2(n) - Value(r, n + 1)
    {
      WithinSources(space, r);
      StepOfSize(space, build, s2, r);
      ConsiderPair(pt, m, l, r, space, run, p.(right := Number(space, r)));
      r := Following(build, r);
    }
    NextLeft(space, run, pt.log, l, p.(right := Number(space, r)));
  }

  /** The same loop for two sides of equal size, over the subsets that follow `l`. */
  method JoinWithFollowing(pt: PlanTable, m: Matrix, build: Build, ghost s1: nat, l: Subproblem,
                           ghost space: SearchSpace, ghost run: Run)
    requires m.Valid() && space == NoCrossProducts(m) && pt.n == |m.rows| && pt.Valid() && pt.model.Monotone()
    requires {} < l <= Below(pt.n) && 1 <= s1 && 2 * s1 <= pt.n
    requires run == Run(build, true) && OnWalk(space, build, s1, l)
    requires Progress(space, run, pt.log, Position(2 * s1, s1, Number(space, l), 0))
    modifies pt
    ensures pt.Valid()
    ensures Progress(space, run, pt.log, Position(2 * s1, s1, Number(space, Following(build, l)), 0))
  {
    hide Progress, Pair, Value, Pow2, Below, Following, Replay, Matrix.Valid, SearchSpace.HasTree, CostModel.Monotone,
        Exact, Visitable;
    var n := pt.n;
    ghost var p := Position(2 * s1, s1, Number(space, l), 0);
    SideHasPlan(space, run, pt.model, pt.log, p, l);
    if !pt.HasPlan(l) {
      NextLeft(space, run, pt.log, l, p);
      return;
    }
    var r := Following(build, l);
    StepOfSize(space, build, s1, l);
    FirstRightAfterLeft(space, run, pt.log, l, p);
    while Value(r, n + 1) < Pow2(n)
      invariant {} < r <= Below(n + 1) && OnWalk(space, build, s1, r) && pt.Valid()
      invariant Number(space, l) < Number(space, r) && l in pt.entries
      invariant Progress(space, run, pt.log, p.(right := Number(space, r)))
      decreases Pow2(n) - Value(r, n + 1)
    {
      WithinSources(space, r);
      StepOfSize(space, build, s1, r);
      ConsiderPair(pt, m, l, r, space, run, p.(right := Number(space, r)));
      r := Following(build, r);
    }
    NextLeft(space, run, pt.log, l, p.(right := Number(space, r)));
  }

  /** A side with a plan has a join tree, and where the walks are exact also the converse. */
  lemma SideHasPlan(space: SearchSpace, run: Run, cm: CostModel, log: Calls, p: Position, s: Subproblem)
    requires space.Valid() && cm.Monotone() && Progress(space, run, log, p)
    requires {} < s <= Below(space.NumSources()) && (Exact(run.build, space.NumSources()) ==> |s| < p.size)
    ensures s in Replay(cm, space.NumSources(), log) ==> space.HasTree(s)
    ensures Exact(run.build, space.NumSources()) && space.HasTree(s) ==> s in Replay(cm, space.NumSources(), log)
    ensures |s| == 1 ==> s in Replay(cm, space.NumSources(), log)
  {
    ProgressOf(space, run, log, p);
    if |s| == 1 {
      SingleHasPlan(cm, space.NumSources(), log, s);
    }
    hide Replay, Progress;
    if s in Replay(cm, space.NumSources(), log) {
      EntryHasTree(space, cm, log, s);
    }
    if Exact(run.build, space.NumSources()) {
      SmallerIsSettled(space, run, log, p, s);
      HasPlanMeansTree(space, cm, log, s);
    }
  }

  /** The body of the innermost loop: three tests, then the update. */
  method ConsiderPair(pt: PlanTable, m: Matrix, l: Subproblem, r: Subproblem, ghost space: SearchSpace, ghost run: Run,
                      ghost p: Position)
    requires m.Valid() && space == NoCrossProducts(m) && pt.n == |m.rows| && pt.Valid() && pt.model.Monotone()
    requires {} < l <= Below(pt.n) && {} < r <= Below(pt.n) && l in pt.entries
    requires AtSides(space, run, p, l, r) && (Exact(run.build, pt.n) ==> Ordered(space, run, l, r))
    requires Progress(space, run, pt.log, p)
    modifies pt
    ensures pt.Valid() && l in pt.entries
    ensures Progress(space, run, pt.log, p.(right := Number(space, Following(run.build, r))))
  {
    hide Progress, Pair, Number, Exact, Following, Ordered, Visitable;
    PairTest(space, run, m, pt.model, pt.log, p, l, r);
    var joinable := false;
    if pt.HasPlan(r) && l * r == {} {
      joinable := m.IsConnectedPair(l, r);
    }
    if joinable {
      TakeRight(space, run, pt.log, l, r, p);
      pt.Update(l, r);
    } else {
      SkipRight(space, run, pt.log, l, r, p);
    }
  }

  lemma PairTest(space: SearchSpace, run: Run, m: Matrix, cm: CostModel, log: Calls, p: Position, l: Subproblem,
                 r: Subproblem)
    requires space == NoCrossProducts(m) && m.Valid() && cm.Monotone() && Progress(space, run, log, p)
    requires {} < l <= m.All() && {} < r <= m.All() && AtSides(space, run, p, l, r)
    requires l in Replay(cm, |m.rows|, log)
    ensures (|r| == 1 || r in Replay(cm, |m.rows|, log)) && l * r == {} && m.Adjacent(l, r)
            ==> Pair(space, l, r) && r in Replay(cm, |m.rows|, log)
    ensures Exact(run.build, |m.rows|) && Pair(space, l, r)
            ==> r in Replay(cm, |m.rows|, log) && l * r == {} && m.Adjacent(l, r)
  {
    assert |l| > 0 && |r| > 0;
    SideHasPlan(space, run, cm, log, p, l);
    SideHasPlan(space, run, cm, log, p, r);
  }
}
