/** What the plan enumerators have in common: which pairs of subproblems they must consider,
    when a subproblem has a plan, and what a finished table promises. */
module EnumerationFacts {
  import opened SmallBitset
  import opened AdjacencyMatrix
  import opened PlanTables

  /** Without cross products these are the pairs of connected, disjoint, adjacent sets. */
  lemma PairWithoutCrossProducts(m: Matrix, a: Subproblem, b: Subproblem)
    requires m.Valid()
    ensures Pair(NoCrossProducts(m), a, b) <==> m.Connected(a) && m.Connected(b) && a !! b && m.Adjacent(a, b)
  {
    HasTreeIffConnected(m, a);
    HasTreeIffConnected(m, b);
  }

  lemma {:induction false} TreeIsConnected(m: Matrix, t: JoinTree)
    requires m.Valid() && NoCrossProducts(m).Admits(t)
    ensures m.Connected(t.Rels())
  {
    match t
    case Leaf(r) =>
      m.SingletonConnected(r);
    case Join(a, b) =>
      TreeIsConnected(m, a);
      TreeIsConnected(m, b);
      m.ConnectedUnion(a.Rels(), b.Rels());
  }

  lemma {:induction false} ConnectedHasTree(m: Matrix, s: Subproblem)
    requires m.Valid() && m.Connected(s)
    ensures NoCrossProducts(m).HasTree(s)
    decreases |s|
  {
    var space := NoCrossProducts(m);
    if |s| >= 2 {
      var a, x := m.ConnectedSplits(s);
      ConnectedHasTree(m, a);
      var t :| space.Admits(t) && t.Rels() == a;
      assert x in m.All();
      var whole := Join(t, Leaf(x));
      assert Leaf(x).Rels() == {x} && whole.Rels() == a + {x} == s;
      assert space.Admits(whole);
    } else {
      var x :| x in s;
      assert x in m.All();
      assert |s - {x}| == 0;
      assert space.Admits(Leaf(x)) && Leaf(x).Rels() == s;
    }
  }

  lemma HasTreeIffConnected(m: Matrix, s: Subproblem)
    requires m.Valid()
    ensures NoCrossProducts(m).HasTree(s) <==> m.Connected(s)
  {
    if m.Connected(s) {
      ConnectedHasTree(m, s);
    }
    if t :| NoCrossProducts(m).Admits(t) && t.Rels() == s {
      TreeIsConnected(m, t);
    }
  }

  lemma {:induction false} AllJoinsHasTree(n: nat, s: Subproblem)
    requires {} < s <= Below(n)
    ensures AllJoins(n).HasTree(s)
    decreases |s|
  {
    var space := AllJoins(n);
    var x :| x in s;
    if s == {x} {
      assert space.Admits(Leaf(x)) && Leaf(x).Rels() == s;
    } else {
      assert s - {x} != {} by {
        assert s == {x} + (s - {x});
      }
      AllJoinsHasTree(n, s - {x});
      var t :| space.Admits(t) && t.Rels() == s - {x};
      var u := Join(t, Leaf(x));
      assert Leaf(x).Rels() == {x} && u.Rels() == s && space.Admits(Leaf(x));
      assert space.Admits(u);
    }
  }

  lemma PairFacts(space: SearchSpace, a: Subproblem, b: Subproblem)
    requires space.Valid() && Pair(space, a, b)
    ensures a != {} && b != {} && a !! b
    ensures a <= Below(space.NumSources()) && b <= Below(space.NumSources())
    ensures a < a + b && b < a + b <= Below(space.NumSources())
    ensures |a + b| == |a| + |b| && |a| >= 1 && |b| >= 1
    ensures space.HasTree(a + b)
    ensures Pair(space, b, a)
  {
    var t :| space.Admits(t) && t.Rels() == a;
    var u :| space.Admits(u) && u.Rels() == b;
    TreeWithinSources(space, t);
    TreeWithinSources(space, u);
    BothOrdersAdmitted(space, t, u);
    JoinableSymmetric(space, a, b);
    var x, y :| x in a && y in b;
    assert x in a + b && y in a + b && x !in b && y !in a;
  }

  /** The calls so far join only pairs, and each at most once in either order. */
  ghost predicate OnlyPairs(space: SearchSpace, log: Calls) {
    forall p :: p in log ==> Pair(space, p.0, p.1)
  }

  ghost predicate NoDuplicates(log: Calls) {
    forall i, j :: 0 <= i < j < |log| ==> log[i] != log[j]
  }

  /** No pair is considered twice, not even once in each order. */
  ghost predicate NoSymmetricDuplicates(log: Calls) {
    NoDuplicates(log) && forall a, b :: (a, b) in log && a != b ==> (b, a) !in log
  }

  lemma AppendOnce(log: Calls, l: Subproblem, r: Subproblem)
    requires NoDuplicates(log) && (l, r) !in log
    ensures NoDuplicates(log + [(l, r)])
    ensures forall p :: p in log + [(l, r)] <==> p in log || p == (l, r)
  {}

  /** Once all splits of `s` were considered, it has a plan exactly when it has a join tree. */
  lemma PlannedIffHasTree(space: SearchSpace, log: Calls, s: Subproblem)
    requires space.Valid() && OnlyPairs(space, log) && Settled(space, log, s)
    ensures Planned(space.NumSources(), log, s) <==> space.HasTree(s)
  {
    if t :| space.Admits(t) && t.Rels() == s {
      TreeIsPlanned(space, log, t);
    }
    if i: nat :| i < space.NumSources() && s == {i} {
      assert space.Admits(Leaf(i)) && Leaf(i).Rels() == s;
    }
    if p :| p in log && s == p.0 + p.1 {
      hide Settled, SearchSpace.HasTree, Pair;
      PairFacts(space, p.0, p.1);
    }
  }

  lemma TreeIsPlanned(space: SearchSpace, log: Calls, t: JoinTree)
    requires space.Admits(t) && Settled(space, log, t.Rels())
    ensures Planned(space.NumSources(), log, t.Rels())
  {
    match t
    case Leaf(r) =>
      assert r < space.NumSources() && t.Rels() == {r};
    case Join(a, b) =>
      assert Pair(space, a.Rels(), b.Rels());
      hide Pair, SearchSpace.HasTree, SearchSpace.Joinable;
      assert PairIn(log, a.Rels(), b.Rels());
      assert a.Rels() + b.Rels() == b.Rels() + a.Rels() == t.Rels();
  }

  /** The promise of a complete enumeration: a subproblem has an entry exactly when it has a
      join tree, and its cost is the least cost of all its join trees. */
  ghost predicate Solved(space: SearchSpace, cm: CostModel, e: Entries) {
    forall s :: (s in e <==> space.HasTree(s)) && (s in e ==> Optimal(space, cm, e, s))
  }

  lemma CompleteCallsSolve(space: SearchSpace, cm: CostModel, log: Calls)
    requires space.Valid() && cm.Monotone() && WellOrdered(space, log)
    requires forall a, b :: Pair(space, a, b) ==> PairIn(log, a, b)
    ensures Solved(space, cm, Replay(cm, space.NumSources(), log))
  {
    var n := space.NumSources();
    ReplayEstablishes(space, cm, log);
    WellOrderedOnlyPairs(space, log);
    forall s
      ensures s in Replay(cm, n, log) <==> space.HasTree(s)
      ensures s in Replay(cm, n, log) ==> Optimal(space, cm, Replay(cm, n, log), s)
    {
      assert Settled(space, log, s);
      PlannedIffHasTree(space, log, s);
      if space.HasTree(s) {
        CallsAreOptimal(space, cm, log, s);
      }
    }
  }

  lemma WellOrderedOnlyPairs(space: SearchSpace, log: Calls)
    requires WellOrdered(space, log)
    ensures OnlyPairs(space, log)
  {}

  /** If only pairs were considered, in whatever order, a subproblem with a plan has a join tree. */
  lemma LastEntry(cm: CostModel, n: nat, log: Calls, s: Subproblem)
    requires log != [] && s in Replay(cm, n, log)
    ensures s == log[|log| - 1].0 + log[|log| - 1].1 || s in Replay(cm, n, log[..|log| - 1])
  {
    hide Candidate;
  }

  lemma {:induction false} EntryHasTree(space: SearchSpace, cm: CostModel, log: Calls, s: Subproblem)
    requires space.Valid() && OnlyPairs(space, log) && s in Replay(cm, space.NumSources(), log)
    ensures space.HasTree(s)
  {
    if log == [] {
      var i: nat :| i < space.NumSources() && s == {i};
      assert space.Admits(Leaf(i)) && Leaf(i).Rels() == s;
    } else {
      var k := |log| - 1;
      var (l, r) := log[k];
      assert Pair(space, l, r) by {
        assert log[k] in log;
      }
      PairFacts(space, l, r);
      assert OnlyPairs(space, log[..k]);
      LastEntry(cm, space.NumSources(), log, s);
      hide *;
      if s != l + r {
        EntryHasTree(space, cm, log[..k], s);
      }
    }
  }

  /** All pairs were considered. */
  ghost predicate Complete(space: SearchSpace, log: Calls) {
    forall a, b :: Pair(space, a, b) ==> PairIn(log, a, b)
  }

  /** The calls find the cheapest plans whatever the costs are. */
  ghost predicate AlwaysSolves(space: SearchSpace, log: Calls) {
    forall cm: CostModel :: cm.Monotone() ==> Solved(space, cm, Replay(cm, space.NumSources(), log))
  }

  /** Calls in order always find the cheapest plans if and only if they consider all pairs. */
  lemma AlwaysSolvesIffComplete(space: SearchSpace, log: Calls)
    requires space.Valid()
    ensures AlwaysSolves(space, log) ==> Complete(space, log)
    ensures WellOrdered(space, log) && Complete(space, log) ==> AlwaysSolves(space, log)
  {
    hide *;
    if !Complete(space, log) {
      var a, b := MissedPair(space, log);
      MissedPairUnsolved(space, log, a, b);
      NotAlways(space, FreeOnly(a, b), log);
    }
    if WellOrdered(space, log) && Complete(space, log) {
      CompleteAlwaysSolves(space, log);
    }
  }

  lemma MissedPair(space: SearchSpace, log: Calls) returns (a: Subproblem, b: Subproblem)
    requires !Complete(space, log)
    ensures Pair(space, a, b) && !PairIn(log, a, b)
  {
    a, b :| Pair(space, a, b) && !PairIn(log, a, b);
  }

  lemma NotAlways(space: SearchSpace, cm: CostModel, log: Calls)
    requires cm.Monotone() && !Solved(space, cm, Replay(cm, space.NumSources(), log))
    ensures !AlwaysSolves(space, log)
  {
    hide Solved, CostModel.Monotone, Replay;
  }

  lemma CompleteAlwaysSolves(space: SearchSpace, log: Calls)
    requires space.Valid() && WellOrdered(space, log) && Complete(space, log)
    ensures AlwaysSolves(space, log)
  {
    hide WellOrdered, Pair, Solved, CostModel.Monotone, Replay, PairIn;
    forall cm: CostModel | cm.Monotone() ensures Solved(space, cm, Replay(cm, space.NumSources(), log)) {
      CompleteCallsSolve(space, cm, log);
    }
  }

  /** Costs for which the join of one pair is free and every other one is not. */
  function FreeOnly(a: Subproblem, b: Subproblem): CostModel {
    CostModel(i => 0.0, (l: Subproblem, r: Subproblem, c: real, d: real) =>
      if (l == a && r == b) || (l == b && r == a) then 0.0 else 1.0)
  }

  lemma MissedPairUnsolved(space: SearchSpace, log: Calls, a: Subproblem, b: Subproblem)
    requires space.Valid() && Pair(space, a, b) && !PairIn(log, a, b)
    ensures FreeOnly(a, b).Monotone() && !Solved(space, FreeOnly(a, b), Replay(FreeOnly(a, b), space.NumSources(), log))
  {
    var e := Replay(FreeOnly(a, b), space.NumSources(), log);
    PairFacts(space, a, b);
    OthersAreNotFree(space.NumSources(), log, a, b);
    if a + b in e && Optimal(space, FreeOnly(a, b), e, a + b) {
      OptimumIsFree(space, e, a, b);
      assert false;
    }
    hide Replay, Pair, PairIn, SearchSpace.HasTree, Optimal;
  }

  lemma OptimumIsFree(space: SearchSpace, e: Entries, a: Subproblem, b: Subproblem)
    requires space.Valid() && Pair(space, a, b) && Optimal(space, FreeOnly(a, b), e, a + b)
    ensures e[a + b].cost <= 0.0
  {
    var t :| space.Admits(t) && t.Rels() == a;
    var u :| space.Admits(u) && u.Rels() == b;
    BothOrdersAdmitted(space, t, u);
    assert FreeOnly(a, b).Cost(Join(t, u)) == 0.0;
  }

  lemma {:induction false} OthersAreNotFree(n: nat, log: Calls, a: Subproblem, b: Subproblem)
    requires a != {} && b != {} && a !! b && !PairIn(log, a, b)
    ensures var e := Replay(FreeOnly(a, b), n, log); a + b in e ==> e[a + b].cost == 1.0
  {
    if log == [] {
      var x, y :| x in a && y in b;
      assert x in a + b && y in a + b;
    } else {
      var k := |log| - 1;
      var (l, r) := log[k];
      assert (l, r) == log[k] && log[k] in log && forall p :: p in log[..k] ==> p in log;
      OthersAreNotFree(n, log[..k], a, b);
      assert FreeOnly(a, b).join(l, r, 0.0, 0.0) == FreeOnly(a, b).join(r, l, 0.0, 0.0) == 1.0;
    }
  }

  /** For one cost model a missed pair need not matter: if all joins are free, it is enough that every
      subproblem with a join tree got a plan. */
  lemma FreeJoinsNeedPlansOnly(space: SearchSpace, log: Calls)
    requires space.Valid() && OnlyPairs(space, log)
    ensures Free().Monotone()
    ensures var e := Replay(Free(), space.NumSources(), log);
            Solved(space, Free(), e) <==> forall s :: space.HasTree(s) ==> s in e
  {
    var e := Replay(Free(), space.NumSources(), log);
    forall s | s in e ensures space.HasTree(s) && Optimal(space, Free(), e, s) {
      EntryHasTree(space, Free(), log, s);
      FreeEntry(space.NumSources(), log, s);
      forall t | space.Admits(t) && t.Rels() == s ensures Free().Cost(t) == 0.0 == e[s].cost {
        FreeTree(t);
      }
    }
  }

  function Free(): CostModel {
    CostModel(i => 0.0, (l: Subproblem, r: Subproblem, c: real, d: real) => 0.0)
  }

  lemma FreeTree(t: JoinTree)
    ensures Free().Cost(t) == 0.0
  {}

  lemma {:induction false} FreeEntry(n: nat, log: Calls, s: Subproblem)
    requires s in Replay(Free(), n, log)
    ensures Replay(Free(), n, log)[s].cost == 0.0
  {
    if log == [] {
      var i: nat :| i < n && s == {i};
    } else if s in Replay(Free(), n, log[..|log| - 1]) {
      FreeEntry(n, log[..|log| - 1], s);
    }
  }

  /** Single relations keep their plans. */
  lemma {:induction false} SingleHasPlan(cm: CostModel, n: nat, log: Calls, s: Subproblem)
    requires s <= Below(n) && |s| == 1
    ensures s in Replay(cm, n, log)
  {
    if log == [] {
      var i :| i in s;
      assert |s - {i}| == 0;
      assert s == {i};
    } else {
      SingleHasPlan(cm, n, log[..|log| - 1], s);
    }
  }

  /** Two complete enumerations of the same space agree on the cost of every subproblem. */
  lemma SolvedTablesAgree(space: SearchSpace, cm: CostModel, e: Entries, e': Entries, s: Subproblem)
    requires Solved(space, cm, e) && Solved(space, cm, e')
    ensures s in e <==> s in e'
    ensures s in e ==> e[s].cost == e'[s].cost
  {
    assert s in e <==> space.HasTree(s);
    if s in e {
      assert Optimal(space, cm, e, s) && Optimal(space, cm, e', s);
      var t :| space.Admits(t) && t.Rels() == s && cm.Cost(t) == e[s].cost;
      var u :| space.Admits(u) && u.Rels() == s && cm.Cost(u) == e'[s].cost;
    }
  }

  /** Allowing cross products never makes a plan dearer. */
  lemma CrossProductsNeverDearer(m: Matrix, cm: CostModel, e: Entries, all: Entries, s: Subproblem)
    requires Solved(NoCrossProducts(m), cm, e) && Solved(AllJoins(|m.rows|), cm, all)
    requires s in e
    ensures s in all && all[s].cost <= e[s].cost
  {
    assert Optimal(NoCrossProducts(m), cm, e, s);
    var t :| NoCrossProducts(m).Admits(t) && t.Rels() == s && cm.Cost(t) == e[s].cost;
    AdmittedWithCrossProducts(m, t);
    assert AllJoins(|m.rows|).HasTree(s);
    assert s in all && Optimal(AllJoins(|m.rows|), cm, all, s);
  }

  lemma AdmittedWithCrossProducts(m: Matrix, t: JoinTree)
    requires NoCrossProducts(m).Admits(t)
    ensures AllJoins(|m.rows|).Admits(t)
  {}

  /** What the `has_plan` test of an enumerator means for a subproblem whose splits were all
      considered already. */
  lemma HasPlanMeansTree(space: SearchSpace, cm: CostModel, log: Calls, s: Subproblem)
    requires space.Valid() && cm.Monotone() && WellOrdered(space, log)
    requires {} < s <= Below(space.NumSources()) && Settled(space, log, s)
    ensures s in Replay(cm, space.NumSources(), log) <==> space.HasTree(s)
    ensures |s| == 1 ==> space.HasTree(s)
  {
    ReplayEstablishes(space, cm, log);
    WellOrderedOnlyPairs(space, log);
    PlannedIffHasTree(space, log, s);
    if |s| == 1 {
      var x :| x in s;
      assert |s - {x}| == 0;
      assert s == {x};
      assert space.Admits(Leaf(x)) && Leaf(x).Rels() == s;
    }
  }
}
