/** The memoised top-down enumerator `TDbasic`.  Its test of a split looks at the two sides only,
    so the search space is that of the trees with connected sides; on a connected query graph these
    are the trees without cross products. */
module TopDownEnumerator {
  import opened SmallBitset
  import opened AdjacencyMatrix
  import opened PlanTables
  import opened EnumerationFacts
  import Subsets = SubsetEnumerators

  /** All calls join pairs, the left side holding the least relation, each once and after the
      splits of its operands. */
  ghost predicate Consistent(space: SearchSpace, log: Calls) {
    && WellOrdered(space, log)
    && NoDuplicates(log)
    && forall p :: p in log ==> p.0 != {} && p.1 != {} && Min(p.0) < Min(p.1)
  }

  /** Memoisation is safe below `s`: what has a plan needs no further calls. */
  ghost predicate Memoised(space: SearchSpace, log: Calls, s: Subproblem) {
    forall t :: t <= s && Planned(space.NumSources(), log, t) ==> Settled(space, log, t)
  }

  ghost predicate MemoisedStrictly(space: SearchSpace, log: Calls, s: Subproblem) {
    forall t :: t < s && Planned(space.NumSources(), log, t) ==> Settled(space, log, t)
  }

  /** `later` extends `log` by calls that join to subsets of `s`. */
  ghost predicate ExtendsBelow(log: Calls, later: Calls, s: Subproblem) {
    && log <= later
    && forall p :: p in later ==> p in log || p.0 + p.1 <= s
  }

  /** The calls for `s` itself are the canonical splits whose left side has a number below `cur`. */
  ghost predicate SplitsUpTo(space: SearchSpace, log: Calls, s: Subproblem, cur: nat) {
    forall a, b :: (a, b) in log && a + b == s <==>
      Pair(space, a, b) && a + b == s && a != {} && b != {} && Min(a) < Min(b) && Value(a, space.NumSources()) < cur
  }

  lemma SettledExtends(space: SearchSpace, log: Calls, later: Calls, t: Subproblem)
    requires Settled(space, log, t) && log <= later
    ensures Settled(space, later, t)
  {
    hide SearchSpace.HasTree, SearchSpace.Joinable;
    assert forall p :: p in log ==> p in later;
  }

  lemma PlannedExtends(n: nat, log: Calls, later: Calls, s: Subproblem, t: Subproblem)
    requires ExtendsBelow(log, later, s) && Planned(n, later, t) && !(t <= s)
    ensures Planned(n, log, t)
  {
    if p :| p in later && t == p.0 + p.1 {
      assert p in log;
    }
  }

  /** After a recursive call for a proper subset `t` of `s`, memoisation is still safe below `s`. */
  lemma MemoisedAfterRecursion(space: SearchSpace, log: Calls, later: Calls, s: Subproblem, t: Subproblem)
    requires MemoisedStrictly(space, log, s) && Memoised(space, later, t) && ExtendsBelow(log, later, t) && t < s
    ensures MemoisedStrictly(space, later, s)
  {
    hide Planned, Settled;
    forall u | u < s && Planned(space.NumSources(), later, u) ensures Settled(space, later, u) {
      if !(u <= t) {
        PlannedExtends(space.NumSources(), log, later, t, u);
        SettledExtends(space, log, later, u);
      }
    }
  }

  lemma SplitsAfterRecursion(space: SearchSpace, log: Calls, later: Calls, s: Subproblem, t: Subproblem, cur: nat)
    requires SplitsUpTo(space, log, s, cur) && ExtendsBelow(log, later, t) && t < s
    ensures SplitsUpTo(space, later, s, cur)
  {
    forall p: (Subproblem, Subproblem) | p.0 + p.1 == s ensures p in later <==> p in log {
      if p in log {
        assert p in later;
      }
    }
  }

  lemma ExtendsTransitive(log: Calls, middle: Calls, later: Calls, s: Subproblem, t: Subproblem)
    requires ExtendsBelow(log, middle, s) && ExtendsBelow(middle, later, t) && t <= s
    ensures ExtendsBelow(log, later, s)
  {}

  /** A subproblem without a plan has had no call yet. */
  lemma NoSplitsYet(space: SearchSpace, log: Calls, s: Subproblem)
    requires space.Valid() && {} < s <= Below(space.NumSources()) && !Planned(space.NumSources(), log, s)
    ensures SplitsUpTo(space, log, s, Value(LeastSubset(s), space.NumSources()))
  {
    forall a, b | Pair(space, a, b) && a + b == s
      ensures Value(a, space.NumSources()) >= Value(LeastSubset(s), space.NumSources())
    {
      PairFacts(space, a, b);
      LeastSubsetIsLeast(s, a, space.NumSources());
    }
  }

  lemma StepSplits(space: SearchSpace, log: Calls, s: Subproblem, l: Subproblem)
    requires space.Valid() && {} < l < s <= Below(space.NumSources())
    requires SplitsUpTo(space, log, s, Value(l, space.NumSources()))
    requires !Pair(space, l, s - l) || s - l == {} || Min(l) >= Min(s - l)
    ensures SplitsUpTo(space, log, s, Value(NextSubset(l, s), space.NumSources()))
  {
    hide Pair, Value, NextSubset;
    forall a, b | Pair(space, a, b) && a + b == s
      ensures Value(a, space.NumSources()) < Value(NextSubset(l, s), space.NumSources())
              <==> Value(a, space.NumSources()) < Value(l, space.NumSources()) || (a == l && b == s - l)
    {
      Subsets.StepValue(space, s, l, a, b);
    }
  }

  lemma TakeSplits(space: SearchSpace, log: Calls, s: Subproblem, l: Subproblem)
    requires space.Valid() && {} < l < s <= Below(space.NumSources()) && s - l != {}
    requires SplitsUpTo(space, log, s, Value(l, space.NumSources()))
    requires Pair(space, l, s - l) && Min(l) < Min(s - l)
    ensures SplitsUpTo(space, log + [(l, s - l)], s, Value(NextSubset(l, s), space.NumSources()))
    ensures (l, s - l) !in log
  {
    hide Pair, Value, NextSubset;
    assert l + (s - l) == s;
    Subsets.StepValue(space, s, l, l, s - l);
    var log' := log + [(l, s - l)];
    forall a, b
      ensures (a, b) in log' && a + b == s
        <==> Pair(space, a, b) && a + b == s && a != {} && b != {} && Min(a) < Min(b)
             && Value(a, space.NumSources()) < Value(NextSubset(l, s), space.NumSources())
    {
      assert (a, b) in log' <==> (a, b) in log || (a == l && b == s - l);
      if Pair(space, a, b) && a + b == s {
        Subsets.StepValue(space, s, l, a, b);
      }
    }
  }

  /** At the end of the walk all splits of `s` were considered. */
  lemma AllSplits(space: SearchSpace, log: Calls, s: Subproblem)
    requires space.Valid() && {} < s <= Below(space.NumSources())
    requires SplitsUpTo(space, log, s, Value(s, space.NumSources()))
    ensures Settled(space, log, s)
  {
    hide Value, Pair, SplitsUpTo;
    forall a, b | a + b == s && Pair(space, a, b) ensures PairIn(log, a, b) {
      SplitSides(space, s, a, b);
      SplitSides(space, s, b, a);
      CanonicalCalled(space, log, s, a, b);
      CanonicalCalled(space, log, s, b, a);
    }
  }

  lemma SplitSides(space: SearchSpace, s: Subproblem, a: Subproblem, b: Subproblem)
    requires space.Valid() && Pair(space, a, b) && a + b == s
    ensures a != {} && b != {} && Pair(space, b, a) && b + a == s && Min(a) != Min(b)
    ensures Value(a, space.NumSources()) < Value(s, space.NumSources())
  {
    PairFacts(space, a, b);
    ValueProperSubset(a, s, space.NumSources());
  }

  lemma CanonicalCalled(space: SearchSpace, log: Calls, s: Subproblem, a: Subproblem, b: Subproblem)
    requires SplitsUpTo(space, log, s, Value(s, space.NumSources()))
    requires Pair(space, a, b) && a + b == s && a != {} && b != {}
    requires Value(a, space.NumSources()) < Value(s, space.NumSources())
    ensures Min(a) < Min(b) ==> (a, b) in log
  {
    hide Value, Pair;
  }

  lemma ConsistentAppend(space: SearchSpace, log: Calls, l: Subproblem, r: Subproblem)
    requires Consistent(space, log) && Pair(space, l, r) && l != {} && r != {} && Min(l) < Min(r)
    requires Settled(space, log, l) && Settled(space, log, r) && (l, r) !in log
    ensures Consistent(space, log + [(l, r)])
  {
    WellOrderedAppend(space, log, l, r);
    hide WellOrdered, Settled, Pair;
    AppendOnce(log, l, r);
  }

  lemma AppendBelow(log: Calls, later: Calls, s: Subproblem, l: Subproblem, r: Subproblem)
    requires ExtendsBelow(log, later, s) && l + r == s
    ensures ExtendsBelow(log, later + [(l, r)], s)
  {}

  lemma MemoisedAfterTake(space: SearchSpace, log: Calls, s: Subproblem, l: Subproblem, r: Subproblem)
    requires MemoisedStrictly(space, log, s) && l + r == s
    ensures MemoisedStrictly(space, log + [(l, r)], s)
  {
    hide Settled, Planned;
    forall t | t < s && Planned(space.NumSources(), log + [(l, r)], t) ensures Settled(space, log + [(l, r)], t) {
      PlannedStep(space.NumSources(), log, l, r, t);
      SettledExtends(space, log, log + [(l, r)], t);
    }
  }

  lemma MemoisedAtEnd(space: SearchSpace, log: Calls, s: Subproblem)
    requires MemoisedStrictly(space, log, s) && Settled(space, log, s)
    ensures Memoised(space, log, s)
  {
    forall t | t <= s && Planned(space.NumSources(), log, t) ensures Settled(space, log, t) {
      assert t < s || t == s;
    }
  }

  lemma NoSymmetric(space: SearchSpace, log: Calls)
    requires Consistent(space, log)
    ensures NoSymmetricDuplicates(log)
  {}

  lemma ConsistentEntries(space: SearchSpace, cm: CostModel, log: Calls, s: Subproblem)
    requires space.Valid() && cm.Monotone() && Consistent(space, log)
    ensures s in Replay(cm, space.NumSources(), log) <==> Planned(space.NumSources(), log, s)
  {
    ReplayEstablishes(space, cm, log);
  }

  lemma SingletonPlanned(space: SearchSpace, log: Calls, s: Subproblem)
    requires {} < s <= Below(space.NumSources()) && |s| == 1
    ensures Planned(space.NumSources(), log, s)
  {
    var x :| x in s;
    assert |s - {x}| == 0;
    assert s == {x};
  }

  lemma SettledIsPlanned(space: SearchSpace, cm: CostModel, log: Calls, s: Subproblem)
    requires space.Valid() && cm.Monotone() && Consistent(space, log) && Settled(space, log, s)
    ensures s in Replay(cm, space.NumSources(), log) <==> space.HasTree(s)
  {
    WellOrderedOnlyPairs(space, log);
    PlannedIffHasTree(space, log, s);
    ReplayEstablishes(space, cm, log);
  }

  /** What holds before and after a recursive call for a proper subset `t` of `s`. */
  lemma BeforeRecursion(space: SearchSpace, log: Calls, s: Subproblem, t: Subproblem)
    requires MemoisedStrictly(space, log, s) && t < s
    ensures Memoised(space, log, t)
  {}

  lemma AfterRecursion(space: SearchSpace, start: Calls, log: Calls, later: Calls, s: Subproblem, t: Subproblem,
                       cur: nat)
    requires t < s && ExtendsBelow(start, log, s) && MemoisedStrictly(space, log, s) && SplitsUpTo(space, log, s, cur)
    requires Memoised(space, later, t) && ExtendsBelow(log, later, t)
    ensures ExtendsBelow(start, later, s) && MemoisedStrictly(space, later, s) && SplitsUpTo(space, later, s, cur)
    ensures log <= later
  {
    ExtendsTransitive(start, log, later, s, t);
    SplitsAfterRecursion(space, log, later, s, t, cur);
    MemoisedAfterRecursion(space, log, later, s, t);
  }

  /** Before the walk nothing was called for `s`, and its proper subsets are memoised safely. */
  lemma StartOfWalk(space: SearchSpace, log: Calls, s: Subproblem)
    requires space.Valid() && {} < s <= Below(space.NumSources()) && !Planned(space.NumSources(), log, s)
    requires Memoised(space, log, s)
    ensures SplitsUpTo(space, log, s, Value(LeastSubset(s), space.NumSources()))
    ensures MemoisedStrictly(space, log, s) && ExtendsBelow(log, log, s)
  {
    NoSplitsYet(space, log, s);
  }

  lemma WalkBounds(s: Subproblem, l: Subproblem, n: nat)
    requires {} < l < s <= Below(n)
    ensures {} < s - l < s && l + (s - l) == s
    ensures Value(l, n) < Value(NextSubset(l, s), n) <= Value(s, n)
  {
    var x, y :| x in l && y in s && y !in l;
    assert y in s - l && x !in s - l && x in s;
    NextSubsetIsNext(l, s, {}, n);
    ValueSubset(NextSubset(l, s), s, n);
  }

  /** Plans the subproblem `s` unless it already has a plan. */
  method PlanGen(pt: PlanTable, m: Matrix, s: Subproblem)
    requires m.Valid() && pt.n == |m.rows| && pt.Valid() && pt.model.Monotone() && {} < s <= m.All()
    requires Consistent(ConnectedSides(m), pt.log) && Memoised(ConnectedSides(m), pt.log, s)
    modifies pt
    ensures pt.Valid() && Consistent(ConnectedSides(m), pt.log) && Memoised(ConnectedSides(m), pt.log, s)
    ensures ExtendsBelow(old(pt.log), pt.log, s)
    ensures Settled(ConnectedSides(m), pt.log, s)
    ensures s in pt.entries <==> ConnectedSides(m).HasTree(s)
    decreases s
  {
    ghost var space := ConnectedSides(m);
    ghost var n := pt.n;
    ConsistentEntries(space, pt.model, pt.log, s);
    if pt.HasPlan(s) {
      if |s| == 1 {
        SingletonPlanned(space, pt.log, s);
      }
      SettledIsPlanned(space, pt.model, pt.log, s);
      return;
    }
    hide Pair, Value, NextSubset, Replay, Settled, Planned, Consistent, Matrix.Connected, SplitsUpTo, Matrix.Valid;
    hide ExtendsBelow, Memoised, MemoisedStrictly, SearchSpace.HasTree, CostModel.Monotone;
    StartOfWalk(space, pt.log, s);
    var sub := LeastSubset(s);
    while sub != s
      invariant {} < sub <= s && pt.Valid() && Consistent(space, pt.log)
      invariant ExtendsBelow(old(pt.log), pt.log, s) && MemoisedStrictly(space, pt.log, s)
      invariant SplitsUpTo(space, pt.log, s, Value(sub, n))
      decreases Value(s, n) - Value(sub, n)
    {
      var complement := s - sub;
      WalkBounds(s, sub, n);
      var valid := Min(sub) < Min(complement);
      if valid {
        valid := m.IsConnected(sub);
      }
      if valid {
        valid := m.IsConnected(complement);
      }
      SplitIsPair(m, s, sub);
      if valid {
        ghost var start, cur := pt.log, Value(sub, n);
        BeforeRecursion(space, pt.log, s, sub);
        PlanGen(pt, m, sub);
        AfterRecursion(space, old(pt.log), start, pt.log, s, sub, cur);
        ghost var middle := pt.log;
        BeforeRecursion(space, pt.log, s, complement);
        PlanGen(pt, m, complement);
        AfterRecursion(space, old(pt.log), middle, pt.log, s, complement, cur);
        SettledExtends(space, middle, pt.log, sub);
        SettledIsPlanned(space, pt.model, pt.log, sub);
        TakeSplits(space, pt.log, s, sub);
        ConsistentAppend(space, pt.log, sub, complement);
        AppendBelow(old(pt.log), pt.log, s, sub, complement);
        MemoisedAfterTake(space, pt.log, s, sub, complement);
        pt.Update(sub, complement);
      } else {
        StepSplits(space, pt.log, s, sub);
      }
      sub := NextSubset(sub, s);
    }
    AllSplits(space, pt.log, s);
    SettledIsPlanned(space, pt.model, pt.log, s);
    MemoisedAtEnd(space, pt.log, s);
  }

  lemma {:induction false} SidesOfTree(m: Matrix, t: JoinTree)
    requires m.Valid() && NoCrossProducts(m).Admits(t)
    ensures ConnectedSides(m).Admits(t)
  {
    match t
    case Leaf(_) =>
    case Join(a, b) =>
      SidesOfTree(m, a);
      SidesOfTree(m, b);
      TreeIsConnected(m, a);
      TreeIsConnected(m, b);
  }

  /** A tree with connected sides has no cross product, unless the whole is not connected. */
  lemma {:induction false} ConnectedTree(m: Matrix, t: JoinTree)
    requires m.Valid() && ConnectedSides(m).Admits(t) && m.Connected(t.Rels())
    ensures NoCrossProducts(m).Admits(t)
  {
    match t
    case Leaf(_) =>
    case Join(a, b) =>
      ConnectedTree(m, a);
      ConnectedTree(m, b);
      var x, y :| x in a.Rels() && y in b.Rels();
      assert a.Rels() < t.Rels() by {
        assert y in t.Rels() && y !in a.Rels();
      }
      assert t.Rels() - a.Rels() == b.Rels();
      m.ConnectedHasNoEmptyCut(t.Rels(), a.Rels());
  }

  lemma ConnectedHasSides(m: Matrix, s: Subproblem)
    requires m.Valid() && m.Connected(s)
    ensures ConnectedSides(m).HasTree(s)
  {
    ConnectedHasTree(m, s);
    var t :| NoCrossProducts(m).Admits(t) && t.Rels() == s;
    SidesOfTree(m, t);
  }

  /** The test of the walk picks the pairs among the splits of a subproblem. */
  lemma SplitIsPair(m: Matrix, s: Subproblem, l: Subproblem)
    requires m.Valid() && {} < l < s <= m.All()
    ensures m.Connected(l) && m.Connected(s - l) <==> Pair(ConnectedSides(m), l, s - l)
  {
    if m.Connected(l) && m.Connected(s - l) {
      ConnectedHasSides(m, l);
      ConnectedHasSides(m, s - l);
    }
  }

  /** On a connected subproblem both search spaces have the same optimum. */
  lemma ConnectedOptimum(m: Matrix, cm: CostModel, e: Entries, s: Subproblem)
    requires m.Valid() && m.Connected(s) && Optimal(ConnectedSides(m), cm, e, s)
    ensures Optimal(NoCrossProducts(m), cm, e, s)
  {
    var t :| ConnectedSides(m).Admits(t) && t.Rels() == s && cm.Cost(t) == e[s].cost;
    ConnectedTree(m, t);
    forall u | NoCrossProducts(m).Admits(u) && u.Rels() == s ensures e[s].cost <= cm.Cost(u) {
      SidesOfTree(m, u);
    }
  }

  /** All relations have an optimal plan with connected sides, if there is any. */
  ghost predicate FullyPlanned(m: Matrix, cm: CostModel, e: Entries) {
    && (m.All() in e <==> ConnectedSides(m).HasTree(m.All()))
    && (m.All() in e ==> Optimal(ConnectedSides(m), cm, e, m.All()))
  }

  /** Basic top-down join enumeration using generate-and-test partitioning. */
  method TDbasic(pt: PlanTable, m: Matrix)
    requires m.Valid() && pt.n == |m.rows| >= 1 && pt.Valid() && pt.log == [] && pt.model.Monotone()
    modifies pt
    ensures pt.Valid() && WellOrdered(ConnectedSides(m), pt.log) && NoSymmetricDuplicates(pt.log)
    ensures Settled(ConnectedSides(m), pt.log, m.All())
    ensures FullyPlanned(m, pt.model, pt.entries)
    ensures m.Connected(m.All()) ==> Optimal(NoCrossProducts(m), pt.model, pt.entries, m.All())
  {
    ghost var space := ConnectedSides(m);
    NothingPlanned(space);
    assert 0 in m.All();
    PlanGen(pt, m, m.All());
    NoSymmetric(space, pt.log);
    if space.HasTree(m.All()) {
      CallsAreOptimal(space, pt.model, pt.log, m.All());
    }
    if m.Connected(m.All()) {
      ConnectedHasSides(m, m.All());
      ConnectedOptimum(m, pt.model, pt.entries, m.All());
    }
  }

  /** The join graph falls into exactly two connected parts. */
  ghost predicate TwoParts(m: Matrix) {
    !m.Connected(m.All()) && exists a :: {} < a < m.All() && m.Connected(a) && m.Connected(m.All() - a)
  }

  lemma PartsOfTree(m: Matrix, t: JoinTree)
    requires m.Valid() && !m.Connected(m.All()) && ConnectedSides(m).Admits(t) && t.Rels() == m.All()
    ensures TwoParts(m)
  {
    hide Matrix.Connected;
    match t
    case Leaf(r) =>
      m.SingletonConnected(r);
    case Join(a, b) =>
      var l, r := a.Rels(), b.Rels();
      var y :| y in r;
      assert y in m.All() && y !in l;
      assert m.All() - l == r;
  }

  /** A graph that is not connected has a tree with connected sides if it has two parts. */
  lemma TreeOfTwoParts(m: Matrix)
    requires m.Valid() && !m.Connected(m.All())
    ensures ConnectedSides(m).HasTree(m.All()) <==> TwoParts(m)
  {
    if t :| ConnectedSides(m).Admits(t) && t.Rels() == m.All() {
      PartsOfTree(m, t);
    }
    if a :| {} < a < m.All() && m.Connected(a) && m.Connected(m.All() - a) {
      TreeOfParts(m, a);
    }
  }

  lemma TreeOfParts(m: Matrix, a: Subproblem)
    requires m.Valid() && {} < a < m.All() && m.Connected(a) && m.Connected(m.All() - a)
    ensures ConnectedSides(m).HasTree(m.All())
  {
    hide SearchSpace.HasTree, Pair, Matrix.Connected;
    SplitIsPair(m, m.All(), a);
    PairFacts(ConnectedSides(m), a, m.All() - a);
    assert a + (m.All() - a) == m.All();
  }

  /** `TDbasic` agrees with an enumeration without cross products if and only if the join graph does
      not fall into exactly two connected parts: these it joins by a cross product. */
  lemma AgreesUnlessTwoParts(m: Matrix, cm: CostModel, e: Entries, solved: Entries)
    requires m.Valid() && FullyPlanned(m, cm, e) && Solved(NoCrossProducts(m), cm, solved)
    ensures (m.All() in e <==> m.All() in solved)
            && (m.All() in e && m.All() in solved ==> e[m.All()].cost == solved[m.All()].cost)
            <==> !TwoParts(m)
  {
    HasTreeIffConnected(m, m.All());
    if m.Connected(m.All()) {
      ConnectedHasSides(m, m.All());
      ConnectedOptimum(m, cm, e, m.All());
    } else {
      TreeOfTwoParts(m);
    }
  }

  /** Two relations without a join. */
  lemma TwoIslands() returns (m: Matrix)
    ensures m.Valid() && |m.rows| == 2 && TwoParts(m)
  {
    m := Matrix([{}, {}]);
    m.SingletonConnected(0);
    m.SingletonConnected(1);
    assert m.All() == {0, 1};
    assert m.All() - {0} == {1} && 1 in m.All();
    if m.Connected(m.All()) {
      m.ConnectedHasNoEmptyCut(m.All(), {0});
    }
  }

  lemma NothingPlanned(space: SearchSpace)
    requires space.Valid()
    ensures Consistent(space, []) && Memoised(space, [], Below(space.NumSources()))
  {
    forall t | Planned(space.NumSources(), [], t) ensures Settled(space, [], t) {
      Subsets.SingletonHasNoSplit(space, t);
    }
  }
}
