/** Randomised search for a join order in two phases: iterative improvement from random starts, then
    simulated annealing.  Random choices are parameters, so every result is about all of them. */
module TwoPhaseOptimizer {
  import opened SmallBitset
  import opened PlanTables
  import opened TableTrees

  type Joins = seq<(Subproblem, Subproblem)>

  datatype JoinState = JoinState(joins: Joins, cost: real)

  function Union(j: (Subproblem, Subproblem)): Subproblem {
    j.0 + j.1
  }

  ghost predicate Adds(s: Subproblem, r: Subproblem, n: nat) {
    exists x: nat :: x < n && r == {x} && x !in s
  }

  /** The join adds one relation to the union so far, from either side. */
  ghost predicate Extends(s: Subproblem, j: (Subproblem, Subproblem), n: nat) {
    (j.0 == s && Adds(s, j.1, n)) || (j.1 == s && Adds(s, j.0, n))
  }

  ghost predicate Starts(j: (Subproblem, Subproblem), n: nat) {
    exists x: nat :: x < n && j.0 == {x} && Adds({x}, j.1, n)
  }

  /** A join order that is left-deep up to the order of the operands of each join. */
  ghost predicate Valid(joins: Joins, n: nat) {
    && |joins| == n - 1 && n >= 2
    && Starts(joins[0], n)
    && forall i :: 0 < i < |joins| ==> Extends(Union(joins[i - 1]), joins[i], n)
  }

  lemma {:induction false} UnionSizes(joins: Joins, n: nat, i: nat)
    requires Valid(joins, n) && i < |joins|
    ensures Union(joins[i]) <= Below(n) && |Union(joins[i])| == i + 2
  {
    hide Below;
    if i > 0 {
      UnionSizes(joins, n, i - 1);
      assert Extends(Union(joins[i - 1]), joins[i], n);
    }
  }

  lemma SubsetOfSameSize(a: set<nat>, b: set<nat>)
    requires a <= b && |a| == |b|
    ensures a == b
  {
    assert b == a + (b - a);
    assert |b| == |a| + |b - a|;
  }

  /** The last join covers all relations. */
  lemma JoinsEverything(joins: Joins, n: nat)
    requires Valid(joins, n)
    ensures Union(joins[n - 2]) == Below(n)
  {
    UnionSizes(joins, n, n - 2);
    BelowSize(n);
    SubsetOfSameSize(Union(joins[n - 2]), Below(n));
  }

  /** Two neighbouring joins never share an operand in the way that the associativity rule asks
      for. */
  lemma GuardNeverMet(joins: Joins, n: nat, i: nat)
    requires Valid(joins, n) && i + 1 < |joins|
    ensures joins[i].1 != joins[i + 1].0
  {
    var (l, r) := joins[i];
    assert Extends(Union(joins[i]), joins[i + 1], n);
    assert l != {} by {
      if i > 0 {
        assert Extends(Union(joins[i - 1]), joins[i], n);
        UnionSizes(joins, n, i - 1);
      }
    }
    assert l !! r by {
      if i > 0 {
        assert Extends(Union(joins[i - 1]), joins[i], n);
      }
    }
    var x :| x in l;
    assert x in Union(joins[i]) && x !in r;
    assert r != {} by {
      if i > 0 {
        assert Extends(Union(joins[i - 1]), joins[i], n);
        UnionSizes(joins, n, i - 1);
      }
    }
    var y :| y in r;
    assert y in Union(joins[i]);
  }

  // ------------------------------------------------------------------------------ the moves

  /** The two join orders pass through the same intermediate results. */
  ghost predicate SameUnions(a: Joins, b: Joins) {
    |a| == |b| && forall i :: 0 <= i < |a| ==> Union(a[i]) == Union(b[i])
  }

  method ApplyCommutation(s: JoinState, idx: nat) returns (t: JoinState)
    ensures idx >= |s.joins| ==> t == s
    ensures idx < |s.joins| ==> t == s.(joins := s.joins[idx := (s.joins[idx].1, s.joins[idx].0)])
  {
    t := s;
    if idx < |s.joins| {
      t := t.(joins := t.joins[idx := (t.joins[idx].1, t.joins[idx].0)]);
    }
  }

  /** The references to the operands are those of the new state, so the second assignment sees the
      effect of the first. */
  method ApplyAssociativity(s: JoinState, idx: nat) returns (t: JoinState)
    ensures idx + 1 < |s.joins| && s.joins[idx].1 != s.joins[idx + 1].0 ==> t == s
    ensures idx + 1 >= |s.joins| ==> t == s
    ensures idx + 1 < |s.joins| && s.joins[idx].1 == s.joins[idx + 1].0 ==>
              var (l1, r1, l2, r2) := (s.joins[idx].0, s.joins[idx].1, s.joins[idx + 1].0, s.joins[idx + 1].1);
              t == s.(joins := s.joins[idx := (l1, r2)][idx + 1 := (r2, l2)])
  {
    t := s;
    if idx + 1 < |s.joins| {
      if t.joins[idx].1 == t.joins[idx + 1].0 {
        t := t.(joins := t.joins[idx := (t.joins[idx].0, t.joins[idx + 1].1)]);
        t := t.(joins := t.joins[idx + 1 := (t.joins[idx].1, t.joins[idx + 1].0)]);
      }
    }
  }

  lemma CommutedIsValid(joins: Joins, n: nat, idx: nat)
    requires Valid(joins, n) && idx < |joins|
    ensures var swapped := joins[idx := (joins[idx].1, joins[idx].0)]; Valid(swapped, n) && SameUnions(swapped, joins)
  {
    var swapped := joins[idx := (joins[idx].1, joins[idx].0)];
    forall i | 0 <= i < |joins| ensures Union(swapped[i]) == Union(joins[i]) {
      assert joins[idx].0 + joins[idx].1 == joins[idx].1 + joins[idx].0;
    }
    if idx == 0 {
      StartsEitherWay(joins[0], n);
    }
    hide Adds, Starts;
    forall i | 0 < i < |joins| ensures Extends(Union(swapped[i - 1]), swapped[i], n) {
      assert Extends(Union(joins[i - 1]), joins[i], n);
      assert Union(swapped[i - 1]) == Union(joins[i - 1]);
    }
  }

  lemma StartsEitherWay(j: (Subproblem, Subproblem), n: nat)
    requires Starts(j, n)
    ensures Starts((j.1, j.0), n)
  {
    var x: nat :| x < n && j.0 == {x} && Adds({x}, j.1, n);
    var y: nat :| y < n && j.1 == {y} && y !in {x};
    assert Adds({y}, j.0, n);
  }

  /** All states one move away: one for each join by commutation, and one for each pair of
      neighbouring joins by associativity, which is always the state itself. */
  method GenerateNeighbors(s: JoinState, ghost n: nat) returns (neighbors: seq<JoinState>)
    requires Valid(s.joins, n)
    ensures |neighbors| == 2 * |s.joins| - 1
    ensures forall i :: 0 <= i < |s.joins| ==> neighbors[i] == s.(joins := s.joins[i := (s.joins[i].1, s.joins[i].0)])
    ensures forall i :: |s.joins| <= i < |neighbors| ==> neighbors[i] == s
    ensures forall v :: v in neighbors ==> Valid(v.joins, n) && SameUnions(v.joins, s.joins)
  {
    neighbors := [];
    var i := 0;
    while i < |s.joins|
      invariant 0 <= i <= |s.joins| && |neighbors| == i
      invariant forall k :: 0 <= k < i ==> neighbors[k] == s.(joins := s.joins[k := (s.joins[k].1, s.joins[k].0)])
      invariant forall v :: v in neighbors ==> Valid(v.joins, n) && SameUnions(v.joins, s.joins)
    {
      var t := ApplyCommutation(s, i);
      CommutedIsValid(s.joins, n, i);
      hide Valid, SameUnions;
      neighbors := neighbors + [t];
      i := i + 1;
    }
    i := 0;
    while i < |s.joins| - 1
      invariant 0 <= i <= |s.joins| - 1 && |neighbors| == |s.joins| + i
      invariant forall k :: 0 <= k < |s.joins| ==>
                  neighbors[k] == s.(joins := s.joins[k := (s.joins[k].1, s.joins[k].0)])
      invariant forall k :: |s.joins| <= k < |neighbors| ==> neighbors[k] == s
      invariant forall v :: v in neighbors ==> Valid(v.joins, n) && SameUnions(v.joins, s.joins)
    {
      var t := ApplyAssociativity(s, i);
      GuardNeverMet(s.joins, n, i);
      assert SameUnions(s.joins, s.joins);
      hide Valid, SameUnions;
      neighbors := neighbors + [t];
      i := i + 1;
    }
  }

  /** The state that is the neighbour at `k`. */
  function Moved(joins: Joins, k: nat): Joins {
    if k < |joins| then joins[k := (joins[k].1, joins[k].0)] else joins
  }

  // -------------------------------------------------------------------------- random starts

  ghost predicate IsShuffle(order: seq<nat>, n: nat) {
    && |order| == n && (forall i :: 0 <= i < n ==> order[i] < n)
    && forall i, j :: 0 <= i < j < n ==> order[i] != order[j]
  }

  /** The first join takes the last two relations of the order, every other one the union so far and the
      next relation from behind. */
  ghost predicate FromBehind(order: seq<nat>, joins: Joins) {
    |joins| == |order| - 1
    && forall k {:trigger NextJoin(order, joins, k)} :: 0 <= k < |joins| ==> joins[k] == NextJoin(order, joins, k)
  }

  ghost function NextJoin(order: seq<nat>, joins: Joins, k: nat): (Subproblem, Subproblem)
    requires k <= |joins| && k + 2 <= |order|
  {
    (if k == 0 then {order[|order| - 1]} else Union(joins[k - 1]), {order[|order| - 2 - k]})
  }

  ghost function Behind(order: seq<nat>, from: nat): Subproblem {
    set i | from <= i < |order| :: order[i]
  }

  lemma {:induction false} UnionBehind(order: seq<nat>, joins: Joins, k: nat)
    requires FromBehind(order, joins) && k < |joins|
    ensures Union(joins[k]) == Behind(order, |order| - 2 - k)
  {
    assert joins[k] == NextJoin(order, joins, k);
    if k > 0 {
      UnionBehind(order, joins, k - 1);
    }
  }

  /** Whatever the shuffle gives, the joins are valid. */
  lemma FromBehindIsValid(order: seq<nat>, joins: Joins, n: nat)
    requires IsShuffle(order, n) && FromBehind(order, joins) && n >= 2
    ensures Valid(joins, n)
  {
    assert joins[0] == NextJoin(order, joins, 0);
    assert Adds({order[n - 1]}, joins[0].1, n);
    forall k | 0 < k < |joins| ensures Extends(Union(joins[k - 1]), joins[k], n) {
      UnionBehind(order, joins, k - 1);
      assert joins[k] == NextJoin(order, joins, k);
      assert Adds(Union(joins[k - 1]), joins[k].1, n);
    }
  }

  /** The relations in the order that the shuffle gives. */
  method Shuffle(relations: seq<Subproblem>, order: seq<nat>) returns (shuffled: seq<Subproblem>)
    requires IsShuffle(order, |relations|)
    ensures |shuffled| == |relations| && forall i :: 0 <= i < |order| ==> shuffled[i] == relations[order[i]]
  {
    shuffled := [];
    while |shuffled| < |relations|
      invariant |shuffled| <= |relations|
      invariant forall i :: 0 <= i < |shuffled| ==> shuffled[i] == relations[order[i]]
    {
      shuffled := shuffled + [relations[order[|shuffled|]]];
    }
  }

  /** What has been joined so far is on top of the stack, and the rest of the order is below. */
  ghost predicate Building(stack: seq<Subproblem>, joins: Joins, order: seq<nat>) {
    && |stack| + |joins| == |order| && |stack| >= 1
    && (forall i :: 0 <= i < |stack| - 1 ==> stack[i] == {order[i]})
    && stack[|stack| - 1] == (if joins == [] then {order[|order| - 1]} else Union(joins[|joins| - 1]))
    && forall k {:trigger NextJoin(order, joins, k)} :: 0 <= k < |joins| ==> joins[k] == NextJoin(order, joins, k)
  }

  method GenerateRandomState(n: nat, order: seq<nat>) returns (s: JoinState)
    requires n >= 2 && IsShuffle(order, n)
    ensures Valid(s.joins, n) && FromBehind(order, s.joins)
  {
    var relations := SingleRelations(n);
    relations := Shuffle(relations, order);
    var joins: Joins := [];
    while |relations| > 1
      invariant Building(relations, joins, order)
      decreases |relations|
    {
      ghost var was := relations;
      var first := relations[|relations| - 1];
      relations := relations[..|relations| - 1];
      var second := relations[|relations| - 1];
      relations := relations[..|relations| - 1];
      joins := joins + [(first, second)];
      relations := relations + [first + second];
      BuildingStep(was, joins[..|joins| - 1], order);
      assert relations == was[..|was| - 2] + [first + second] && joins[..|joins| - 1] + [(first, second)] == joins;
    }
    FromBehindIsValid(order, joins, n);
    s := JoinState(joins, 0.0);
  }

  lemma BuildingStep(stack: seq<Subproblem>, joins: Joins, order: seq<nat>)
    requires Building(stack, joins, order) && |stack| >= 2
    ensures var k := |stack|;
            Building(stack[..k - 2] + [stack[k - 1] + stack[k - 2]], joins + [(stack[k - 1], stack[k - 2])], order)
  {
    var k := |stack|;
    var all := joins + [(stack[k - 1], stack[k - 2])];
    assert all[|joins|] == NextJoin(order, joins, |joins|);
    hide NextJoin;
    forall i | 0 <= i < |all| ensures all[i] == NextJoin(order, all, i) {
      SameNextJoin(order, joins, all, i);
    }
  }

  lemma SameNextJoin(order: seq<nat>, joins: Joins, all: Joins, k: nat)
    requires joins <= all && k <= |joins| && k + 2 <= |order|
    ensures NextJoin(order, all, k) == NextJoin(order, joins, k)
  {}

  method SingleRelations(n: nat) returns (relations: seq<Subproblem>)
    ensures |relations| == n && forall k: nat :: k < n ==> relations[k] == {k}
  {
    relations := [];
    var i := 0;
    while i < n
      invariant 0 <= i <= n && |relations| == i && forall k: nat :: k < i ==> relations[k] == {k}
    {
      relations := relations + [{i}];
      i := i + 1;
    }
  }

  // ---------------------------------------------------------------------------- costs of states

  ghost predicate Known(e: Entries, joins: Joins) {
    forall i :: 0 <= i < |joins| ==> Union(joins[i]) in e
  }

  /** The cost of a state is the sum of the costs of its intermediate results. */
  ghost function StateCost(e: Entries, joins: Joins): real
    requires Known(e, joins)
  {
    if joins == [] then 0.0
    else StateCost(e, joins[..|joins| - 1]) + e[Union(joins[|joins| - 1])].cost
  }

  /** Entries are only added, never replaced. */
  ghost predicate Grows(e: Entries, later: Entries) {
    forall s :: s in e ==> s in later && later[s] == e[s]
  }

  lemma {:induction false} CostIsStable(e: Entries, later: Entries, joins: Joins)
    requires Known(e, joins) && Grows(e, later)
    ensures Known(later, joins) && StateCost(later, joins) == StateCost(e, joins)
  {
    if joins != [] {
      CostIsStable(e, later, joins[..|joins| - 1]);
    }
  }

  /** No move changes the cost of a state. */
  lemma {:induction false} SameUnionsSameCost(e: Entries, a: Joins, b: Joins)
    requires Known(e, a) && SameUnions(a, b)
    ensures Known(e, b) && StateCost(e, a) == StateCost(e, b)
  {
    if a != [] {
      SameUnionsSameCost(e, a[..|a| - 1], b[..|b| - 1]);
    }
  }

  ghost predicate HasSingletons(e: Entries, n: nat) {
    forall x: nat :: x < n ==> {x} in e
  }

  /** The operands of a join have plans once the joins before it are known. */
  lemma OperandsHavePlans(e: Entries, joins: Joins, n: nat, i: nat)
    requires Valid(joins, n) && i < |joins| && HasSingletons(e, n) && Known(e, joins[..i])
    ensures joins[i].0 in e && joins[i].1 in e && |Union(joins[i])| != 1
  {
    UnionSizes(joins, n, i);
    if i > 0 {
      assert joins[..i][i - 1] == joins[i - 1];
      assert Extends(Union(joins[i - 1]), joins[i], n);
    }
  }

  lemma NextCost(e: Entries, joins: Joins, i: nat)
    requires i < |joins| && Known(e, joins[..i]) && Union(joins[i]) in e
    ensures Known(e, joins[..i + 1])
    ensures StateCost(e, joins[..i + 1]) == StateCost(e, joins[..i]) + e[Union(joins[i])].cost
  {
    assert joins[..i + 1][..i] == joins[..i];
  }

  /** Looks up an intermediate result, and plans it if it is new. */
  method VisitJoin(pt: PlanTable, joins: Joins, i: nat) returns (cost: real)
    requires pt.Valid() && Valid(joins, pt.n) && HasSingletons(pt.entries, pt.n)
    requires i < |joins| && Known(pt.entries, joins[..i])
    modifies pt
    ensures pt.Valid() && Grows(old(pt.entries), pt.entries)
    ensures Union(joins[i]) in pt.entries && cost == pt.entries[Union(joins[i])].cost
    ensures pt.log == old(pt.log) + if Union(joins[i]) in old(pt.entries) then [] else [joins[i]]
  {
    var (left, right) := joins[i];
    OperandsHavePlans(pt.entries, joins, pt.n, i);
    hide Valid, Known, HasSingletons;
    if !pt.HasPlan(left + right) {
      pt.Update(left, right);
    }
    cost := pt.entries[left + right].cost;
  }

  method ComputeStateCost(pt: PlanTable, s: JoinState) returns (cost: real)
    requires pt.Valid() && Valid(s.joins, pt.n) && HasSingletons(pt.entries, pt.n)
    modifies pt
    ensures pt.Valid() && Grows(old(pt.entries), pt.entries)
    ensures Known(pt.entries, s.joins) && cost == StateCost(pt.entries, s.joins)
    ensures DisjointCalls(old(pt.log)) ==> DisjointCalls(pt.log)
  {
    cost := 0.0;
    var i := 0;
    hide Valid, Known, StateCost, HasSingletons, PlanTable.Valid, Grows, DisjointCalls;
    NothingKnown(pt.entries, s.joins);
    while i < |s.joins|
      invariant 0 <= i <= |s.joins| && pt.Valid() && HasSingletons(pt.entries, pt.n)
                && Grows(old(pt.entries), pt.entries)
      invariant Known(pt.entries, s.joins[..i]) && cost == StateCost(pt.entries, s.joins[..i])
      invariant DisjointCalls(old(pt.log)) ==> DisjointCalls(pt.log)
    {
      MoreDisjointCalls(pt.log, s.joins, pt.n, i);
      ghost var before := pt.entries;
      var next := VisitJoin(pt, s.joins, i);
      GrowsFurther(old(pt.entries), before, pt.entries, pt.n);
      CostIsStable(before, pt.entries, s.joins[..i]);
      NextCost(pt.entries, s.joins, i);
      cost := cost + next;
      i := i + 1;
    }
    assert s.joins[..i] == s.joins;
  }

  lemma MoreDisjointCalls(log: Calls, joins: Joins, n: nat, i: nat)
    requires Valid(joins, n) && i < |joins|
    ensures DisjointCalls(log) ==> DisjointCalls(log + []) && DisjointCalls(log + [joins[i]])
  {
    assert joins[i].0 !! joins[i].1 by {
      assert i > 0 ==> Extends(Union(joins[i - 1]), joins[i], n);
    }
    assert log + [] == log;
    hide Valid;
  }

  lemma NothingKnown(e: Entries, joins: Joins)
    ensures Known(e, joins[..0]) && StateCost(e, joins[..0]) == 0.0 && Grows(e, e)
  {}

  lemma GrowsFurther(e: Entries, middle: Entries, later: Entries, n: nat)
    requires Grows(e, middle) && Grows(middle, later)
    ensures Grows(e, later)
    ensures HasSingletons(middle, n) ==> HasSingletons(later, n)
  {}

  // ---------------------------------------------------------------------------- the two searches

  const MAX_ITERATIONS: nat := 500

  /** A valid state with the cost that the table gives it. */
  ghost predicate Priced(e: Entries, n: nat, s: JoinState) {
    Valid(s.joins, n) && Known(e, s.joins) && s.cost == StateCost(e, s.joins)
  }

  lemma PriceIsStable(e: Entries, later: Entries, n: nat, s: JoinState)
    requires Priced(e, n, s) && Grows(e, later)
    ensures Priced(later, n, s)
  {
    CostIsStable(e, later, s.joins);
  }

  /** Every state visited has kept its price, and is no cheaper than the best. */
  ghost predicate BestOf(e: Entries, n: nat, best: JoinState, visited: seq<JoinState>) {
    Priced(e, n, best) && best in visited && forall v :: v in visited ==> Priced(e, n, v) && best.cost <= v.cost
  }

  lemma BestStays(e: Entries, later: Entries, n: nat, best: JoinState, visited: seq<JoinState>)
    requires BestOf(e, n, best, visited) && Grows(e, later)
    ensures BestOf(later, n, best, visited)
  {
    hide Priced, Grows;
    PriceIsStable(e, later, n, best);
    forall v | v in visited ensures Priced(later, n, v) && best.cost <= v.cost {
      PriceIsStable(e, later, n, v);
    }
  }

  /** A table that a search may use. */
  ghost predicate Ready(pt: PlanTable)
    reads pt
  {
    pt.Valid() && pt.n >= 2 && HasSingletons(pt.entries, pt.n) && DisjointCalls(pt.log)
  }

  lemma StillSingletons(e: Entries, later: Entries, n: nat)
    requires HasSingletons(e, n) && Grows(e, later)
    ensures HasSingletons(later, n)
  {}

  method Price(pt: PlanTable, s: JoinState) returns (t: JoinState)
    requires Ready(pt) && Valid(s.joins, pt.n)
    modifies pt
    ensures Ready(pt) && Grows(old(pt.entries), pt.entries)
    ensures t.joins == s.joins && Priced(pt.entries, pt.n, t)
  {
    hide Known, StateCost, HasSingletons, PlanTable.Valid, Grows, Valid;
    var cost := ComputeStateCost(pt, s);
    StillSingletons(old(pt.entries), pt.entries, pt.n);
    t := s.(cost := cost);
  }

  /** A priced neighbour costs what the state costs. */
  lemma NeighborsCostTheSame(e: Entries, n: nat, s: JoinState, t: JoinState)
    requires Priced(e, n, s) && Priced(e, n, t) && SameUnions(t.joins, s.joins)
    ensures t.cost == s.cost
  {
    SameUnionsSameCost(e, t.joins, s.joins);
  }

  /** The states have kept their prices, and none is cheaper than the given one. */
  ghost predicate AllCost(e: Entries, n: nat, visited: seq<JoinState>, cost: real) {
    forall v :: v in visited ==> Priced(e, n, v) && v.cost == cost
  }

  lemma AllCostStays(e: Entries, later: Entries, n: nat, visited: seq<JoinState>, cost: real)
    requires AllCost(e, n, visited, cost) && Grows(e, later)
    ensures AllCost(later, n, visited, cost)
  {
    hide Priced, Grows;
    forall v | v in visited ensures Priced(later, n, v) {
      PriceIsStable(e, later, n, v);
    }
  }

  /** The neighbours of a state, one after the other; each that is cheaper is moved to. */
  method TryNeighbors(pt: PlanTable, start: JoinState, neighbors: seq<JoinState>)
    returns (current: JoinState, improved: bool, ghost visited: seq<JoinState>)
    requires Ready(pt) && Priced(pt.entries, pt.n, start)
    requires forall v :: v in neighbors ==> Valid(v.joins, pt.n) && SameUnions(v.joins, start.joins)
    modifies pt
    ensures Ready(pt) && Grows(old(pt.entries), pt.entries) && Priced(pt.entries, pt.n, start)
    ensures current == start && !improved && AllCost(pt.entries, pt.n, visited, start.cost)
    ensures |visited| == |neighbors| && forall i :: 0 <= i < |neighbors| ==> visited[i].joins == neighbors[i].joins
  {
    current, improved, visited := start, false, [];
    hide Ready, Priced, Grows, Valid, SameUnions;
    NothingGrows(pt.entries);
    var i := 0;
    while i < |neighbors|
      invariant 0 <= i <= |neighbors| && Ready(pt) && Grows(old(pt.entries), pt.entries)
                && Priced(pt.entries, pt.n, start)
      invariant current == start && !improved && AllCost(pt.entries, pt.n, visited, start.cost)
      invariant |visited| == i && forall k :: 0 <= k < i ==> visited[k].joins == neighbors[k].joins
    {
      ghost var before := pt.entries;
      var neighbor := Price(pt, neighbors[i]);
      GrowsFurther(old(pt.entries), before, pt.entries, pt.n);
      PriceIsStable(before, pt.entries, pt.n, start);
      AllCostStays(before, pt.entries, pt.n, visited, start.cost);
      NeighborsCostTheSame(pt.entries, pt.n, start, neighbor);
      visited := visited + [neighbor];
      if neighbor.cost < current.cost {
        current, improved := neighbor, true;
      }
      i := i + 1;
    }
  }

  lemma NothingGrows(e: Entries)
    ensures Grows(e, e)
  {}

  /** Hill climbing.  No neighbour is ever cheaper, so it ends after one round where it started. */
  method Climb(pt: PlanTable, start: JoinState) returns (current: JoinState, rounds: nat, ghost visited: seq<JoinState>)
    requires Ready(pt) && Priced(pt.entries, pt.n, start)
    modifies pt
    ensures Ready(pt) && Grows(old(pt.entries), pt.entries) && Priced(pt.entries, pt.n, start)
    ensures current == start && rounds == 1 && AllCost(pt.entries, pt.n, visited, start.cost)
    ensures |visited| == 2 * pt.n - 3 && forall i :: 0 <= i < |visited| ==> visited[i].joins == Moved(start.joins, i)
  {
    current, rounds, visited := start, 0, [];
    var improved := true;
    hide Grows, Valid, SameUnions;
    NothingGrows(pt.entries);
    while improved && rounds < MAX_ITERATIONS
      invariant Ready(pt) && Grows(old(pt.entries), pt.entries) && Priced(pt.entries, pt.n, start)
      invariant current == start && rounds <= 1 && (improved <==> rounds == 0)
      invariant AllCost(pt.entries, pt.n, visited, start.cost) && (rounds == 1 ==> |visited| == 2 * pt.n - 3)
      invariant forall i :: 0 <= i < |visited| ==> visited[i].joins == Moved(start.joins, i)
      decreases MAX_ITERATIONS - rounds
    {
      ghost var before := pt.entries;
      var neighbors := GenerateNeighbors(current, pt.n);
      JoinCount(current.joins, pt.n);
      current, improved, visited := TryNeighbors(pt, current, neighbors);
      GrowsFurther(old(pt.entries), before, pt.entries, pt.n);
      rounds := rounds + 1;
    }
  }

  lemma JoinCount(joins: Joins, n: nat)
    requires Valid(joins, n)
    ensures |joins| == n - 1
  {}

  /** The cheaper of the best state so far and the end of a climb is the best of all states. */
  lemma KeepCheaper(e: Entries, n: nat, best: JoinState, visited: seq<JoinState>, start: JoinState,
                    tried: seq<JoinState>)
    requires BestOf(e, n, best, visited) && Priced(e, n, start) && AllCost(e, n, tried, start.cost)
    ensures BestOf(e, n, if start.cost < best.cost then start else best, visited + [start] + tried)
  {
    hide Priced;
    var all := visited + [start] + tried;
    assert start in all && best in all;
    assert forall v :: v in all ==> v in visited || v == start || v in tried;
  }

  /** The random choices of a run: the orders that the shuffles give, the neighbours that annealing picks,
      and its draws between zero and one.  The exponential function belongs to them. */
  datatype Chance = Chance(orders: nat -> seq<nat>, picks: nat -> nat, draws: nat -> real, exp: real -> real) {
    ghost predicate Possible(n: nat) {
      && (forall k: nat :: IsShuffle(orders(k), n))
      && (forall k: nat :: 0.0 <= draws(k) < 1.0)
      && exp(0.0) == 1.0
    }
  }

  /** From `p` on, the state that an order gives was visited, and then its neighbours one after the other. */
  ghost predicate Around(visited: seq<JoinState>, p: nat, order: seq<nat>) {
    && |order| >= 2 && p + 2 * |order| - 2 <= |visited| && FromBehind(order, visited[p].joins)
    && forall i :: 0 <= i < 2 * |order| - 3 ==> visited[p + 1 + i].joins == Moved(visited[p].joins, i)
  }

  /** The states that iterative improvement visits: a random one, and for each restart another one with
      its neighbours. */
  ghost predicate Explored(n: nat, orders: nat -> seq<nat>, visited: seq<JoinState>, restarts: nat)
    requires n >= 1
  {
    && 1 <= |visited| && FromBehind(orders(0), visited[0].joins)
    && forall r: nat :: r < restarts ==> Around(visited, NumVisits(n, r), orders(r + 1))
  }

  lemma ExploredStays(n: nat, orders: nat -> seq<nat>, visited: seq<JoinState>, restarts: nat, all: seq<JoinState>)
    requires n >= 1 && Explored(n, orders, visited, restarts) && visited <= all
    ensures Explored(n, orders, all, restarts)
  {
    hide FromBehind, Moved, NumVisits;
    forall r: nat | r < restarts ensures Around(all, NumVisits(n, r), orders(r + 1)) {
      assert Around(visited, NumVisits(n, r), orders(r + 1));
    }
  }

  method IterativeImprovement(pt: PlanTable, chance: Chance) returns (best: JoinState, ghost visited: seq<JoinState>)
    requires Ready(pt) && chance.Possible(pt.n)
    modifies pt
    ensures Ready(pt) && Grows(old(pt.entries), pt.entries)
    ensures BestOf(pt.entries, pt.n, best, visited)
    ensures |visited| == NumVisits(pt.n, 10) && Explored(pt.n, chance.orders, visited, 10)
  {
    assert pt.n >= 2;
    assert IsShuffle(chance.orders(0), pt.n);
    hide *;
    var random := GenerateRandomState(pt.n, chance.orders(0));
    best := Price(pt, random);
    visited := [best];
    FirstIsBest(pt.entries, pt.n, best, chance.orders);
    NumVisitsSteps(pt.n, 0);
    var restart := 0;
    while restart < 10
      invariant Ready(pt) && Grows(old(pt.entries), pt.entries) && BestOf(pt.entries, pt.n, best, visited)
      invariant restart <= 10 && |visited| == NumVisits(pt.n, restart)
      invariant Explored(pt.n, chance.orders, visited, restart)
    {
      ghost var before, soFar := pt.entries, visited;
      best, visited := Restart(pt, best, chance, restart, visited);
      GrowsFurther(old(pt.entries), before, pt.entries, pt.n);
      ExploredStays(pt.n, chance.orders, soFar, restart, visited);
      ExploredStep(pt.n, chance.orders, visited, restart);
      NumVisitsSteps(pt.n, restart);
      restart := restart + 1;
    }
  }

  lemma ExploredStep(n: nat, orders: nat -> seq<nat>, visited: seq<JoinState>, restarts: nat)
    requires n >= 1 && Explored(n, orders, visited, restarts)
    requires Around(visited, NumVisits(n, restarts), orders(restarts + 1))
    ensures Explored(n, orders, visited, restarts + 1)
  {
    hide Around, FromBehind, NumVisits;
  }

  lemma FirstIsBest(e: Entries, n: nat, s: JoinState, orders: nat -> seq<nat>)
    requires n >= 1 && Priced(e, n, s) && FromBehind(orders(0), s.joins)
    ensures BestOf(e, n, s, [s]) && Explored(n, orders, [s], 0)
  {}

  /** The states visited by iterative improvement over `n` relations: the first one, and for each
      restart a random state and its `2n - 3` neighbours. */
  ghost function NumVisits(n: nat, restarts: nat): nat
    requires n >= 1
  {
    1 + restarts * (2 * n - 2)
  }

  lemma NumVisitsSteps(n: nat, k: nat)
    requires n >= 1
    ensures NumVisits(n, 0) == 1 && NumVisits(n, k + 1) == NumVisits(n, k) + 2 * n - 2
  {}

  /** One more random start. */
  method Restart(pt: PlanTable, best: JoinState, chance: Chance, restart: nat, ghost visited: seq<JoinState>)
    returns (better: JoinState, ghost all: seq<JoinState>)
    requires Ready(pt) && chance.Possible(pt.n) && BestOf(pt.entries, pt.n, best, visited)
    modifies pt
    ensures Ready(pt) && Grows(old(pt.entries), pt.entries) && BestOf(pt.entries, pt.n, better, all)
    ensures |all| == |visited| + 2 * pt.n - 2 && visited <= all
    ensures Around(all, |visited|, chance.orders(restart + 1))
  {
    assert IsShuffle(chance.orders(restart + 1), pt.n) && |chance.orders(restart + 1)| == pt.n >= 2;
    hide *;
    var random := GenerateRandomState(pt.n, chance.orders(restart + 1));
    var start := Price(pt, random);
    ghost var middle := pt.entries;
    var current, _, tried := Climb(pt, start);
    GrowsFurther(old(pt.entries), middle, pt.entries, pt.n);
    BestStays(old(pt.entries), pt.entries, pt.n, best, visited);
    KeepCheaper(pt.entries, pt.n, best, visited, start, tried);
    better := best;
    if current.cost < best.cost {
      better := current;
    }
    all := visited + [start] + tried;
    AroundLast(visited, start, tried, chance.orders(restart + 1));
  }

  lemma AroundLast(visited: seq<JoinState>, start: JoinState, tried: seq<JoinState>, order: seq<nat>)
    requires |order| >= 2 && FromBehind(order, start.joins) && |tried| == 2 * |order| - 3
    requires forall i :: 0 <= i < |tried| ==> tried[i].joins == Moved(start.joins, i)
    ensures Around(visited + [start] + tried, |visited|, order)
  {
    hide FromBehind, Moved;
    var p, all := |visited|, visited + [start] + tried;
    assert all[p] == start;
    forall i | 0 <= i < 2 * |order| - 3 ensures all[p + 1 + i].joins == Moved(start.joins, i) {
      assert all[p + 1 + i] == tried[i];
    }
  }

  /** The number of times that the temperature is lowered until it is frozen. */
  ghost function Coolings(temperature: real): nat
    decreases 20000.0 * temperature
  {
    if temperature > 0.001 then 1 + Coolings(temperature * 0.95) else 0
  }

  /** Each state is the picked neighbour of the one before it. */
  ghost predicate Walks(n: nat, picks: nat -> nat, start: Joins, visited: seq<JoinState>)
    requires n >= 2
  {
    forall k: nat {:trigger At(start, visited, k)} :: k < |visited| ==>
        visited[k].joins == Moved(At(start, visited, k), Picked(n, picks(k)))
  }

  /** The neighbour that a random number picks. */
  ghost function Picked(n: nat, pick: nat): nat
    requires n >= 2
  {
    pick % (2 * n - 3)
  }

  ghost function At(start: Joins, visited: seq<JoinState>, k: nat): Joins
    requires k <= |visited|
  {
    if k == 0 then start else visited[k - 1].joins
  }

  lemma WalksFurther(n: nat, picks: nat -> nat, start: Joins, visited: seq<JoinState>, s: JoinState)
    requires n >= 2 && Walks(n, picks, start, visited)
    requires s.joins == Moved(At(start, visited, |visited|), Picked(n, picks(|visited|)))
    ensures Walks(n, picks, start, visited + [s]) && At(start, visited + [s], |visited| + 1) == s.joins
  {
    hide Moved, Picked;
    var all := visited + [s];
    forall k: nat | k < |all| ensures all[k].joins == Moved(At(start, all, k), Picked(n, picks(k))) {
      assert At(start, all, k) == At(start, visited, k);
    }
  }

  /** What annealing has done so far: it is at the last state visited, and all of them cost the same. */
  ghost predicate Annealing(e: Entries, n: nat, picks: nat -> nat, initial: JoinState, current: JoinState,
                            visited: seq<JoinState>) {
    && n >= 2 && Priced(e, n, initial) && Priced(e, n, current) && current.cost == initial.cost
    && AllCost(e, n, visited, initial.cost)
    && Walks(n, picks, initial.joins, visited) && current.joins == At(initial.joins, visited, |visited|)
  }

  lemma StartAnnealing(e: Entries, n: nat, picks: nat -> nat, initial: JoinState)
    requires n >= 2 && Priced(e, n, initial)
    ensures Annealing(e, n, picks, initial, initial, [])
  {
    hide Priced;
  }

  lemma AnnealingStep(before: Entries, e: Entries, n: nat, picks: nat -> nat, initial: JoinState, current: JoinState,
                      visited: seq<JoinState>, neighbor: JoinState)
    requires Annealing(before, n, picks, initial, current, visited) && Grows(before, e)
    requires Priced(e, n, neighbor) && neighbor.cost == current.cost
    requires neighbor.joins == Moved(current.joins, Picked(n, picks(|visited|)))
    ensures Annealing(e, n, picks, initial, neighbor, visited + [neighbor])
  {
    hide Priced, Grows, Walks, At, Moved, Picked;
    PriceIsStable(before, e, n, initial);
    AllCostStays(before, e, n, visited, initial.cost);
    WalksFurther(n, picks, initial.joins, visited, neighbor);
  }

  /** Annealing moves among states of equal cost only, so it accepts every neighbour that it picks and
      returns the state it was given. */
  method SimulatedAnnealing(pt: PlanTable, initial: JoinState, chance: Chance)
    returns (best: JoinState, ghost visited: seq<JoinState>)
    requires Ready(pt) && Priced(pt.entries, pt.n, initial) && chance.Possible(pt.n)
    modifies pt
    ensures Ready(pt) && Grows(old(pt.entries), pt.entries) && Priced(pt.entries, pt.n, initial)
    ensures best == initial && AllCost(pt.entries, pt.n, visited, initial.cost)
    ensures |visited| == 50 * Coolings(0.1) && pt.n >= 2 && Walks(pt.n, chance.picks, initial.joins, visited)
  {
    var current := initial;
    best, visited := initial, [];
    var temperature, step := 0.1, 0;
    assert pt.n >= 2;
    hide Ready, Priced, Grows, Valid, AllCost, Walks, At, Annealing, Chance.Possible;
    NothingGrows(pt.entries);
    StartAnnealing(pt.entries, pt.n, chance.picks, initial);
    while temperature > 0.001
      invariant Ready(pt) && Grows(old(pt.entries), pt.entries) && best == initial
      invariant Annealing(pt.entries, pt.n, chance.picks, initial, current, visited)
      invariant |visited| == step && step + 50 * Coolings(temperature) == 50 * Coolings(0.1)
      decreases 20000.0 * temperature
    {
      ghost var before := pt.entries;
      current, best, step, visited := Equilibrate(pt, initial, chance, temperature, current, best, step, visited);
      GrowsFurther(old(pt.entries), before, pt.entries, pt.n);
      temperature := temperature * 0.95;
    }
    Annealed(pt.entries, pt.n, chance.picks, initial, current, visited);
  }

  lemma Annealed(e: Entries, n: nat, picks: nat -> nat, initial: JoinState, current: JoinState, visited: seq<JoinState>)
    requires Annealing(e, n, picks, initial, current, visited)
    ensures n >= 2 && Priced(e, n, initial) && Priced(e, n, current) && current.cost == initial.cost
    ensures AllCost(e, n, visited, initial.cost) && Walks(n, picks, initial.joins, visited)
  {
    hide Priced, AllCost, Walks;
  }

  /** The steps at one temperature. */
  method Equilibrate(pt: PlanTable, ghost initial: JoinState, chance: Chance, temperature: real, from: JoinState,
                     bestSoFar: JoinState, stepsSoFar: nat, ghost before: seq<JoinState>)
    returns (current: JoinState, best: JoinState, step: nat, ghost visited: seq<JoinState>)
    requires Ready(pt) && chance.Possible(pt.n) && temperature > 0.001 && |before| == stepsSoFar
    requires Annealing(pt.entries, pt.n, chance.picks, initial, from, before)
    modifies pt
    ensures Ready(pt) && Grows(old(pt.entries), pt.entries) && best == bestSoFar
    ensures Annealing(pt.entries, pt.n, chance.picks, initial, current, visited)
    ensures |visited| == step == stepsSoFar + 50
  {
    hide *;
    current, best, step, visited := from, bestSoFar, stepsSoFar, before;
    NothingGrows(pt.entries);
    var iter := 0;
    while iter < 50
      invariant Ready(pt) && Grows(old(pt.entries), pt.entries) && best == bestSoFar
      invariant Annealing(pt.entries, pt.n, chance.picks, initial, current, visited)
      invariant iter <= 50 && |visited| == step == stepsSoFar + iter
    {
      ghost var earlier := pt.entries;
      Annealed(earlier, pt.n, chance.picks, initial, current, visited);
      var neighbor := RandomNeighbor(pt, current, chance.picks(step));
      GrowsFurther(old(pt.entries), earlier, pt.entries, pt.n);
      AnnealingStep(earlier, pt.entries, pt.n, chance.picks, initial, current, visited, neighbor);
      Accepted(chance, pt.n, step, temperature);
      visited := visited + [neighbor];
      if neighbor.cost < current.cost {
        current := neighbor;
        if neighbor.cost < best.cost {
          best := neighbor;
        }
      } else {
        var delta := neighbor.cost - current.cost;
        var probability := chance.exp(-delta / temperature);
        if chance.draws(step) < probability {
          current := neighbor;
        }
      }
      iter, step := iter + 1, step + 1;
    }
  }

  /** A step to a state of equal cost has probability one. */
  lemma Accepted(chance: Chance, n: nat, step: nat, temperature: real)
    requires chance.Possible(n) && temperature > 0.001
    ensures 0.0 / temperature == 0.0 && chance.draws(step) < chance.exp(0.0 / temperature)
  {}

  lemma PickedMeans(n: nat, pick: nat)
    requires n >= 2
    ensures Picked(n, pick) == pick % (2 * n - 3) && Picked(n, pick) < 2 * n - 3
  {}

  lemma MovedMeans(joins: Joins, k: nat)
    ensures Moved(joins, k) == if k < |joins| then joins[k := (joins[k].1, joins[k].0)] else joins
  {}

  method RandomNeighbor(pt: PlanTable, s: JoinState, pick: nat) returns (neighbor: JoinState)
    requires Ready(pt) && Priced(pt.entries, pt.n, s)
    modifies pt
    ensures Ready(pt) && Grows(old(pt.entries), pt.entries)
    ensures Priced(pt.entries, pt.n, neighbor) && neighbor.cost == s.cost
    ensures pt.n >= 2 && neighbor.joins == Moved(s.joins, Picked(pt.n, pick))
  {
    JoinCount(s.joins, pt.n);
    PickedMeans(pt.n, pick);
    MovedMeans(s.joins, Picked(pt.n, pick));
    assert pt.n >= 2 && Valid(s.joins, pt.n);
    hide *;
    var neighbors := GenerateNeighbors(s, pt.n);
    var k := pick % |neighbors|;
    assert k == Picked(pt.n, pick) && neighbors[k] in neighbors;
    neighbor := Price(pt, neighbors[k]);
    PriceIsStable(old(pt.entries), pt.entries, pt.n, s);
    NeighborsCostTheSame(pt.entries, pt.n, s, neighbor);
  }

  // ---------------------------------------------------------------------------- the whole run

  /** No entry is lost or becomes more expensive. */
  ghost predicate Improves(e: Entries, later: Entries) {
    forall s :: s in e ==> s in later && later[s].cost <= e[s].cost
  }

  /** The plan that carries out the joins one after the other, up to the one at `i`. */
  function TreeOf(joins: Joins, i: nat): JoinTree
    requires i < |joins|
    decreases i
  {
    var (l, r) := joins[i];
    if i == 0 then Join(Single(l), Single(r))
    else if l == Union(joins[i - 1]) then Join(TreeOf(joins, i - 1), Single(r))
    else Join(Single(l), TreeOf(joins, i - 1))
  }

  function Single(s: Subproblem): JoinTree {
    Leaf(if s == {} then 0 else Min(s))
  }

  lemma {:induction false} TreeOfRels(joins: Joins, n: nat, i: nat)
    requires Valid(joins, n) && i < |joins|
    ensures TreeOf(joins, i).Rels() == Union(joins[i])
    ensures i > 0 ==> (joins[i].0 == Union(joins[i - 1]) && Adds(Union(joins[i - 1]), joins[i].1, n))
                      || (joins[i].0 != Union(joins[i - 1]) && joins[i].1 == Union(joins[i - 1])
                          && Adds(Union(joins[i - 1]), joins[i].0, n))
  {
    if i > 0 {
      TreeOfRels(joins, n, i - 1);
      UnionSizes(joins, n, i - 1);
      assert Extends(Union(joins[i - 1]), joins[i], n);
    }
  }

  /** The entry of an intermediate result is no dearer than the joins that lead to it. */
  ghost predicate Reached(cm: CostModel, e: Entries, joins: Joins, i: nat)
    requires i < |joins|
  {
    Union(joins[i]) in e && e[Union(joins[i])].cost <= cm.Cost(TreeOf(joins, i))
  }

  /** No plan of a single relation is dearer than its scan. */
  ghost predicate ScansPriced(cm: CostModel, n: nat, e: Entries) {
    forall x: nat :: x < n ==> {x} in e && e[{x}].cost <= cm.scan(x)
  }

  lemma {:induction false} ReplayPricesScans(cm: CostModel, n: nat, log: Calls)
    ensures ScansPriced(cm, n, Replay(cm, n, log))
  {
    if log != [] {
      ReplayPricesScans(cm, n, log[..|log| - 1]);
      hide Candidate;
    }
  }

  lemma ScansStayPriced(cm: CostModel, n: nat, e: Entries, later: Entries)
    requires ScansPriced(cm, n, e) && Improves(e, later)
    ensures ScansPriced(cm, n, later)
  {}

  lemma StillReached(cm: CostModel, e: Entries, later: Entries, joins: Joins, i: nat)
    requires i < |joins| && Reached(cm, e, joins, i) && Improves(e, later)
    ensures Reached(cm, later, joins, i)
  {
    hide CostModel.Cost;
  }

  /** Issuing the next join makes its result no dearer than the joins so far. */
  lemma NextReached(cm: CostModel, n: nat, e: Entries, joins: Joins, i: nat)
    requires cm.Monotone() && Valid(joins, n) && i < |joins| && ScansPriced(cm, n, e)
    requires i > 0 ==> Reached(cm, e, joins, i - 1)
    requires joins[i].0 in e && joins[i].1 in e
    ensures Reached(cm, Updated(cm, e, joins[i].0, joins[i].1), joins, i)
  {
    var (l, r) := joins[i];
    TreeOfRels(joins, n, i);
    OperandPrices(cm, n, e, joins, i);
    var t := TreeOf(joins, i);
    assert cm.join(l, r, e[l].cost, e[r].cost) <= cm.join(l, r, cm.Cost(t.left), cm.Cost(t.right));
    hide Valid, CostModel.Monotone, Adds;
  }

  lemma OperandPrices(cm: CostModel, n: nat, e: Entries, joins: Joins, i: nat)
    requires Valid(joins, n) && i < |joins| && ScansPriced(cm, n, e) && joins[i].0 in e && joins[i].1 in e
    requires i > 0 ==> Reached(cm, e, joins, i - 1)
    ensures var t := TreeOf(joins, i);
            && t.Join? && t.left.Rels() == joins[i].0 && t.right.Rels() == joins[i].1
            && e[joins[i].0].cost <= cm.Cost(t.left) && e[joins[i].1].cost <= cm.Cost(t.right)
  {
    TreeOfRels(joins, n, i);
    if i > 0 {
      TreeOfRels(joins, n, i - 1);
    }
  }

  method UpdatePlanTable(pt: PlanTable, s: JoinState)
    requires Ready(pt) && Priced(pt.entries, pt.n, s)
    modifies pt
    ensures Ready(pt) && Improves(old(pt.entries), pt.entries)
    ensures pt.log == old(pt.log) + s.joins && Below(pt.n) in pt.entries
    ensures pt.model.Monotone() ==> forall i :: 0 <= i < |s.joins| ==> Reached(pt.model, pt.entries, s.joins, i)
  {
    hide *;
    ghost var first, n := pt.entries, pt.n;
    ReadyMeans(pt);
    PricedMeans(first, n, s);
    ImprovesItself(first);
    var i := 0;
    assert s.joins[..0] == [];
    while i < |s.joins|
      invariant 0 <= i <= |s.joins| && Ready(pt) && Improves(first, pt.entries)
      invariant pt.log == old(pt.log) + s.joins[..i] && ScansPriced(pt.model, n, pt.entries)
      invariant pt.model.Monotone() ==> forall k :: 0 <= k < i ==> Reached(pt.model, pt.entries, s.joins, k)
    {
      IssueJoin(pt, first, s.joins, i);
      assert s.joins[..i + 1] == s.joins[..i] + [s.joins[i]];
      i := i + 1;
    }
    assert s.joins[..i] == s.joins;
    LastIsPlanned(first, pt.entries, s.joins, n);
  }

  lemma ReadyMeans(pt: PlanTable)
    requires Ready(pt)
    ensures HasSingletons(pt.entries, pt.n) && ScansPriced(pt.model, pt.n, pt.entries)
  {
    ReplayPricesScans(pt.model, pt.n, pt.log);
  }

  lemma PricedMeans(e: Entries, n: nat, s: JoinState)
    requires Priced(e, n, s)
    ensures Valid(s.joins, n) && Known(e, s.joins)
  {}

  /** Issues one join of the final state. */
  method IssueJoin(pt: PlanTable, ghost first: Entries, joins: Joins, i: nat)
    requires Ready(pt) && Valid(joins, pt.n) && Known(first, joins) && HasSingletons(first, pt.n)
    requires i < |joins| && Improves(first, pt.entries) && ScansPriced(pt.model, pt.n, pt.entries)
    requires pt.model.Monotone() ==> forall k :: 0 <= k < i ==> Reached(pt.model, pt.entries, joins, k)
    modifies pt
    ensures Ready(pt) && Improves(first, pt.entries) && ScansPriced(pt.model, pt.n, pt.entries)
    ensures pt.log == old(pt.log) + [joins[i]]
    ensures pt.model.Monotone() ==> forall k :: 0 <= k <= i ==> Reached(pt.model, pt.entries, joins, k)
  {
    hide DisjointCalls, Valid, Known, PlanTable.Valid, Updated, HasSingletons, Improves, Reached, ScansPriced,
        CostModel.Monotone;
    var (left, right) := joins[i];
    KnownOperands(first, joins, pt.n, i);
    StillPlanned(first, pt.entries, left, right);
    MoreDisjointCalls(pt.log, joins, pt.n, i);
    UpdateImproves(pt.model, first, pt.entries, pt.n, left, right);
    AllStillReached(pt.model, pt.n, pt.entries, joins, i);
    pt.Update(left, right);
  }

  lemma AllStillReached(cm: CostModel, n: nat, e: Entries, joins: Joins, i: nat)
    requires Valid(joins, n) && i < |joins| && joins[i].0 in e && joins[i].1 in e && ScansPriced(cm, n, e)
    requires cm.Monotone() ==> forall k :: 0 <= k < i ==> Reached(cm, e, joins, k)
    ensures var later := Updated(cm, e, joins[i].0, joins[i].1);
            && ScansPriced(cm, n, later)
            && (cm.Monotone() ==> forall k :: 0 <= k <= i ==> Reached(cm, later, joins, k))
  {
    var later := Updated(cm, e, joins[i].0, joins[i].1);
    assert Improves(e, later) by {
      hide Candidate;
    }
    hide *;
    ScansStayPriced(cm, n, e, later);
    if cm.Monotone() {
      NextReached(cm, n, e, joins, i);
      forall k | 0 <= k < i ensures Reached(cm, later, joins, k) {
        StillReached(cm, e, later, joins, k);
      }
    }
  }

  lemma KnownOperands(e: Entries, joins: Joins, n: nat, i: nat)
    requires Valid(joins, n) && i < |joins| && HasSingletons(e, n) && Known(e, joins)
    ensures joins[i].0 in e && joins[i].1 in e
  {
    OperandsHavePlans(e, joins, n, i);
  }

  lemma ImprovesItself(e: Entries)
    ensures Improves(e, e)
  {}

  lemma StillPlanned(e: Entries, later: Entries, l: Subproblem, r: Subproblem)
    requires l in e && r in e && Improves(e, later)
    ensures l in later && r in later
  {}

  lemma UpdateImproves(cm: CostModel, first: Entries, e: Entries, n: nat, l: Subproblem, r: Subproblem)
    requires l in e && r in e && Improves(first, e) && HasSingletons(e, n)
    ensures Improves(first, Updated(cm, e, l, r)) && HasSingletons(Updated(cm, e, l, r), n)
  {
    hide Candidate;
    assert Improves(e, Updated(cm, e, l, r));
  }

  lemma LastIsPlanned(e: Entries, later: Entries, joins: Joins, n: nat)
    requires Valid(joins, n) && Known(e, joins) && Improves(e, later)
    ensures Below(n) in later
  {
    JoinsEverything(joins, n);
  }

  /** A whole run on two or more relations.  `searched` is the table after both searches: it only
      gained entries, and the final state is the cheapest of all that were visited.  Its joins are issued
      at the end, so no intermediate result of it, the full set included, stays dearer than the joins
      that lead to it. */
  method Enumerate(pt: PlanTable, chance: Chance)
    returns (final: JoinState, ghost visited: seq<JoinState>, ghost searched: Entries)
    requires Ready(pt) && chance.Possible(pt.n)
    modifies pt
    ensures Ready(pt) && Grows(old(pt.entries), searched) && Improves(searched, pt.entries)
    ensures BestOf(searched, pt.n, final, visited)
    ensures Itinerary(pt.n, chance, final, visited)
    ensures |final.joins| == pt.n - 1 && Union(final.joins[pt.n - 2]) == Below(pt.n)
    ensures |final.joins| <= |pt.log| && pt.log[|pt.log| - |final.joins|..] == final.joins
    ensures pt.model.Monotone() ==> forall i :: 0 <= i < |final.joins| ==>
              Reached(pt.model, pt.entries, final.joins, i)
    ensures Below(pt.n) in pt.entries && forall s :: s in pt.entries ==> Spelled(pt.model, pt.n, pt.entries, s, false)
  {
    hide *;
    ReadyForTwo(pt);
    var iiBest;
    iiBest, visited := IterativeImprovement(pt, chance);
    ghost var middle, improving := pt.entries, visited;
    BestIsPriced(middle, pt.n, iiBest, visited);
    ghost var annealed;
    final, annealed := SimulatedAnnealing(pt, iiBest, chance);
    searched := pt.entries;
    GrowsFurther(old(pt.entries), middle, searched, pt.n);
    BestStays(middle, searched, pt.n, iiBest, visited);
    KeepCheaper(searched, pt.n, iiBest, visited, iiBest, annealed);
    visited := visited + [iiBest] + annealed;
    TravelsOn(pt.n, chance, final, improving, annealed);
    BestIsPriced(searched, pt.n, final, visited);
    LastJoin(searched, pt.n, final);
    UpdatePlanTable(pt, final);
    ReadyIsSpelled(pt);
  }

  /** The states visited by a whole run: those of iterative improvement, the best of them once more,
      which is also the final one, and the walk of annealing from it. */
  ghost predicate Itinerary(n: nat, chance: Chance, final: JoinState, visited: seq<JoinState>) {
    n >= 2 && var p := NumVisits(n, 10);
    && |visited| == p + 1 + 50 * Coolings(0.1)
    && final in visited[..p] && final == visited[p]
    && Explored(n, chance.orders, visited[..p], 10)
    && Walks(n, chance.picks, final.joins, visited[p + 1..])
  }

  lemma TravelsOn(n: nat, chance: Chance, best: JoinState, improving: seq<JoinState>, annealed: seq<JoinState>)
    requires n >= 2 && |improving| == NumVisits(n, 10) && Explored(n, chance.orders, improving, 10)
    requires |annealed| == 50 * Coolings(0.1) && Walks(n, chance.picks, best.joins, annealed) && best in improving
    ensures Itinerary(n, chance, best, improving + [best] + annealed)
  {
    var p, visited := NumVisits(n, 10), improving + [best] + annealed;
    hide Explored, Walks, Coolings;
    assert visited[..p] == improving && visited[p + 1..] == annealed;
  }

  lemma LastJoin(e: Entries, n: nat, s: JoinState)
    requires Priced(e, n, s)
    ensures |s.joins| == n - 1 && n >= 2 && Union(s.joins[n - 2]) == Below(n)
  {
    JoinsEverything(s.joins, n);
  }

  lemma ReadyIsSpelled(pt: PlanTable)
    requires Ready(pt)
    ensures forall s :: s in pt.entries ==> Spelled(pt.model, pt.n, pt.entries, s, false)
  {
    AnyTableSpellsTrees(pt.model, pt.n, pt.log, false);
    hide Spelled, Replay;
  }

  lemma BestIsPriced(e: Entries, n: nat, best: JoinState, visited: seq<JoinState>)
    requires BestOf(e, n, best, visited)
    ensures Priced(e, n, best) && best in visited
  {}

  lemma ReadyForTwo(pt: PlanTable)
    requires Ready(pt)
    ensures pt.n >= 2
  {}
}
