/** Search states of heuristic search as ascending arrays of subproblems, and the reconstruction of
    a plan from the states on a path. */
module HeuristicSearch {
  import opened SmallBitset
  import opened PlanTables
  import opened TableTrees

  type Subproblems = seq<Subproblem>

  function Elems(s: Subproblems): set<Subproblem> {
    set x | x in s
  }

  /** Disjoint subproblems in ascending order of their bit patterns. */
  ghost predicate Ordered(s: Subproblems, n: nat) {
    && (forall i :: 0 <= i < |s| ==> Part(s[i], n))
    && forall i, j :: 0 <= i < j < |s| ==> Precedes(s[i], s[j], n)
  }

  ghost predicate Part(x: Subproblem, n: nat) {
    x != {} && x <= Below(n)
  }

  ghost predicate Precedes(x: Subproblem, y: Subproblem, n: nat) {
    x !! y && Value(x, n) < Value(y, n)
  }

  /** The second state joins two subproblems of the first. */
  ghost predicate Joins(before: Subproblems, after: Subproblems, n: nat) {
    && Ordered(before, n) && Ordered(after, n)
    && exists a, b :: a in before && b in before && a != b && Elems(after) == Elems(before) - {a, b} + {a + b}
  }

  /** The union takes the place of the larger of its parts. */
  function Merge(s: Subproblems, i: nat, j: nat): Subproblems
    requires i < j < |s|
  {
    s[..i] + s[i + 1..j] + [s[i] + s[j]] + s[j + 1..]
  }

  lemma MergeAt(s: Subproblems, i: nat, j: nat, k: nat)
    requires i < j < |s| && k < |s| - 1
    ensures |Merge(s, i, j)| == |s| - 1
    ensures Merge(s, i, j)[k]
            == if k < i then s[k] else if k < j - 1 then s[k + 1] else if k == j - 1 then s[i] + s[j] else s[k + 1]
  {}

  // ---------------------------------------------------------------- order and highest elements

  lemma {:induction false} BelowTop(s: Subproblem, m: nat, k: nat)
    requires (forall x :: x in s ==> x < m) && m <= k
    ensures Value(s, k) < Pow2(m)
  {
    if k > m {
      BelowTop(s, m, k - 1);
    } else {
      ValueBound(s, k);
    }
  }

  lemma {:induction false} AtLeastTop(s: Subproblem, x: nat, k: nat)
    requires x in s && x < k
    ensures Value(s, k) >= Pow2(x)
  {
    if x < k - 1 {
      AtLeastTop(s, x, k - 1);
    }
  }

  /** Disjoint sets compare by their largest elements. */
  lemma OrderByMax(a: Subproblem, b: Subproblem, n: nat)
    requires a != {} && b != {} && a !! b && a <= Below(n) && b <= Below(n)
    ensures Value(a, n) < Value(b, n) <==> Max(a) < Max(b)
  {
    MaxExists(a);
    MaxExists(b);
    var x, y := Max(a), Max(b);
    assert x in a && y in b && x != y;
    hide Value, Max;
    if x < y {
      BelowTop(a, y, n);
      AtLeastTop(b, y, n);
    } else {
      BelowTop(b, x, n);
      AtLeastTop(a, x, n);
    }
  }

  lemma UnionBetween(a: Subproblem, b: Subproblem, c: Subproblem, n: nat)
    requires a != {} && b != {} && a !! b && a <= Below(n) && b <= Below(n) && Value(a, n) < Value(b, n)
    ensures Value(b, n) < Value(a + b, n)
    ensures c != {} && c <= Below(n) && c !! a && c !! b && Value(b, n) < Value(c, n) ==> Value(a + b, n) < Value(c, n)
  {
    ValueDisjoint(a, b, n);
    ValuePositive(a, n);
    if c != {} && c <= Below(n) && c !! a && c !! b && Value(b, n) < Value(c, n) {
      OrderByMax(a, b, n);
      OrderByMax(b, c, n);
      OrderByMax(a + b, c, n);
      assert Max(a + b) in a || Max(a + b) in b;
    }
  }

  /** A state stays in order when a union takes the place of the larger of its parts. */
  lemma MergeIsOrdered(s: Subproblems, i: nat, j: nat, n: nat)
    requires Ordered(s, n) && i < j < |s|
    ensures Ordered(Merge(s, i, j), n)
    ensures Elems(Merge(s, i, j)) == Elems(s) - {s[i], s[j]} + {s[i] + s[j]}
  {
    var m := Merge(s, i, j);
    MergeElems(s, i, j, n);
    hide Value, Below;
    MergeAt(s, i, j, 0);
    forall k | 0 <= k < |m| ensures Part(m[k], n) {
      MergeAt(s, i, j, k);
    }
    hide Merge, Part, Precedes;
    forall k, l | 0 <= k < l < |m| ensures Precedes(m[k], m[l], n) {
      MergePair(s, i, j, n, k, l);
    }
  }

  lemma MergePair(s: Subproblems, i: nat, j: nat, n: nat, k: nat, l: nat)
    requires Ordered(s, n) && i < j < |s| && k < l < |s| - 1
    ensures |Merge(s, i, j)| == |s| - 1
    ensures Precedes(Merge(s, i, j)[k], Merge(s, i, j)[l], n)
  {
    MergeAt(s, i, j, k);
    MergeAt(s, i, j, l);
    hide Merge, Value, Below, Elems;
    if l == j - 1 {
      UnionBetween(s[i], s[j], {}, n);
    } else if k == j - 1 {
      UnionBetween(s[i], s[j], s[l + 1], n);
    }
  }

  lemma MergeElems(s: Subproblems, i: nat, j: nat, n: nat)
    requires Ordered(s, n) && i < j < |s|
    ensures Elems(Merge(s, i, j)) == Elems(s) - {s[i], s[j]} + {s[i] + s[j]}
  {
    var m := Merge(s, i, j);
    forall x ensures x in m <==> (x in s && x != s[i] && x != s[j]) || x == s[i] + s[j] {
      if x in m {
        MergedFrom(s, i, j, n, x);
      }
      if (x in s && x != s[i] && x != s[j]) || x == s[i] + s[j] {
        MergedInto(s, i, j, n, x);
      }
    }
    hide Merge, Ordered;
  }

  lemma MergedFrom(s: Subproblems, i: nat, j: nat, n: nat, x: Subproblem)
    requires Ordered(s, n) && i < j < |s| && x in Merge(s, i, j)
    ensures (x in s && x != s[i] && x != s[j]) || x == s[i] + s[j]
  {
    MergeAt(s, i, j, 0);
    hide Merge, Value, Below;
    var k :| 0 <= k < |Merge(s, i, j)| && Merge(s, i, j)[k] == x;
    MergeAt(s, i, j, k);
  }

  lemma MergedInto(s: Subproblems, i: nat, j: nat, n: nat, x: Subproblem)
    requires Ordered(s, n) && i < j < |s| && ((x in s && x != s[i] && x != s[j]) || x == s[i] + s[j])
    ensures x in Merge(s, i, j)
  {
    MergeAt(s, i, j, j - 1);
    hide Merge, Value, Below;
    if x in s && x != s[i] && x != s[j] {
      var k :| 0 <= k < |s| && s[k] == x;
      MergeAt(s, i, j, if k < i then k else k - 1);
    }
  }

  lemma SomeElem(t: Subproblems)
    ensures t != [] ==> Elems(t) != {}
  {
    if t != [] {
      assert t[0] in Elems(t);
    }
  }

  /** A set of subproblems has only one ascending order. */
  lemma {:induction false} OrderIsUnique(s: Subproblems, t: Subproblems, n: nat)
    requires Ordered(s, n) && Ordered(t, n) && Elems(s) == Elems(t)
    ensures s == t
    decreases |s|
  {
    hide Value, Below;
    if s == [] {
      SomeElem(t);
    } else {
      assert s[0] in Elems(t);
      assert t[0] in Elems(s) by { assert t[0] in Elems(t); }
      LeastFirst(s, t, n);
      RestOrdered(s, n);
      RestOrdered(t, n);
      OrderIsUnique(s[1..], t[1..], n);
    }
  }

  lemma LeastFirst(s: Subproblems, t: Subproblems, n: nat)
    requires Ordered(s, n) && Ordered(t, n) && s != [] && t != [] && s[0] in Elems(t) && t[0] in Elems(s)
    ensures s[0] == t[0]
  {
    FirstIsLeast(s, t[0], n);
    FirstIsLeast(t, s[0], n);
    ValueInjective(s[0], t[0], n);
  }

  lemma FirstIsLeast(s: Subproblems, x: Subproblem, n: nat)
    requires Ordered(s, n) && x in Elems(s)
    ensures Value(s[0], n) <= Value(x, n)
  {
    hide Value, Below;
    var i :| 0 <= i < |s| && s[i] == x;
  }

  lemma RestOrdered(s: Subproblems, n: nat)
    requires Ordered(s, n) && s != []
    ensures Ordered(s[1..], n) && Elems(s[1..]) == Elems(s) - {s[0]}
  {
    hide Value, Below;
    assert forall i :: 0 <= i < |s[1..]| ==> s[1..][i] == s[i + 1];
    forall x ensures x in s[1..] <==> x in s && x != s[0] {
      if x in s[1..] {
        var i :| 0 <= i < |s[1..]| && s[1..][i] == x;
        assert s[0] !! s[i + 1];
      }
    }
  }

  /** A state that joins two subproblems is a merge. */
  lemma JoinsIsMerge(before: Subproblems, after: Subproblems, n: nat) returns (i: nat, j: nat)
    requires Joins(before, after, n)
    ensures i < j < |before| && after == Merge(before, i, j)
  {
    hide Value, Below;
    var a, b :| a in before && b in before && a != b && Elems(after) == Elems(before) - {a, b} + {a + b};
    var k :| 0 <= k < |before| && before[k] == a;
    var l :| 0 <= l < |before| && before[l] == b;
    if k < l {
      i, j := k, l;
    } else {
      i, j := l, k;
      assert a + b == b + a && {a, b} == {b, a};
    }
    MergeIsOrdered(before, i, j, n);
    OrderIsUnique(after, Merge(before, i, j), n);
  }

  // -------------------------------------------------------------------- what has been joined

  /** The two subproblems that neighbouring states differ by. */
  method Delta(beforeJoin: Subproblems, afterJoin: Subproblems, ghost n: nat, ghost i: nat, ghost j: nat)
    returns (delta: (Subproblem, Subproblem))
    requires Ordered(beforeJoin, n) && i < j < |beforeJoin| && afterJoin == Merge(beforeJoin, i, j)
    ensures delta == (beforeJoin[i], beforeJoin[j])
  {
    var after, before := 0, 0;
    var out: seq<Subproblem> := [];
    MergeAt(beforeJoin, i, j, 0);
    while |out| != 2
      invariant |out| <= 2 && before == after + |out|
      invariant out == (if before <= i then [] else if before <= j then [beforeJoin[i]]
                        else [beforeJoin[i], beforeJoin[j]])
      decreases 2 * |beforeJoin| + 2 - before - after
    {
      if after < |afterJoin| {
        MergeAt(beforeJoin, i, j, after);
      }
      hide Merge, Value, Below;
      if after < |afterJoin| && beforeJoin[before] == afterJoin[after] {
        before, after := before + 1, after + 1;
      } else {
        out := out + [beforeJoin[before]];
        before := before + 1;
      }
    }
    delta := (out[0], out[1]);
  }

  // ---------------------------------------------------------------------------- reconstruction

  /** A state and the states it was reached from. */
  datatype State = Root(subproblems: Subproblems) | Child(subproblems: Subproblems, parent: State) {
    function Steps(): nat {
      if Root? then 0 else 1 + parent.Steps()
    }
  }

  ghost predicate Singletons(s: Subproblems, n: nat) {
    |s| == n && forall i: nat :: i < n ==> s[i] == {i}
  }

  /** States of a bottom-up search: from single relations on, each joins two subproblems. */
  ghost predicate BottomUp(s: State, n: nat) {
    match s
    case Root(subs) => Singletons(subs, n) && Ordered(subs, n)
    case Child(subs, p) => BottomUp(p, n) && Joins(p.subproblems, subs, n)
  }

  /** States of a top-down search: from all relations on, each splits a subproblem. */
  ghost predicate TopDown(s: State, n: nat) {
    match s
    case Root(subs) => subs == [Below(n)] && Ordered(subs, n)
    case Child(subs, p) => TopDown(p, n) && Joins(subs, p.subproblems, n)
  }

  /** The plans found so far are for the subproblems of a state, and for parts of them. */
  ghost predicate Planned(e: Entries, subs: Subproblems, n: nat) {
    && (forall i :: 0 <= i < |subs| ==> subs[i] in e)
    && (forall s :: s in e ==> s != {} && PartOf(s, subs))
  }

  ghost predicate PartOf(s: Subproblem, subs: Subproblems) {
    exists i :: 0 <= i < |subs| && s <= subs[i]
  }

  lemma SingletonsPlanned(cm: CostModel, subs: Subproblems, n: nat)
    requires Singletons(subs, n)
    ensures Planned(Initial(cm, n), subs, n)
  {
    var e := Initial(cm, n);
    forall s | s in e ensures s != {} && PartOf(s, subs) {
      var i: nat :| i < n && s == {i};
      assert s <= subs[i];
    }
  }

  /** A union of two different subproblems of a state is new. */
  lemma UnionIsNew(e: Entries, subs: Subproblems, i: nat, j: nat, n: nat)
    requires Planned(e, subs, n) && Ordered(subs, n) && i < j < |subs|
    ensures subs[i] in e && subs[j] in e && subs[i] + subs[j] !in e && |subs[i] + subs[j]| != 1
    ensures subs[i] !! subs[j]
  {
    hide Value, Below, PartOf;
    assert Part(subs[i], n) && Part(subs[j], n) && Precedes(subs[i], subs[j], n);
    var x, y :| x in subs[i] && y in subs[j];
    PairIsNotSingle(subs[i] + subs[j], x, y);
    NotPart(subs, i, j, n);
  }

  lemma NotPart(subs: Subproblems, i: nat, j: nat, n: nat)
    requires Ordered(subs, n) && i < j < |subs|
    ensures !PartOf(subs[i] + subs[j], subs)
  {
    hide Value, Below;
    assert Part(subs[i], n) && Part(subs[j], n);
    var x, y :| x in subs[i] && y in subs[j];
    forall k | 0 <= k < |subs| ensures !(subs[i] + subs[j] <= subs[k]) {
      var z, l := if k != i then x else y, if k != i then i else j;
      NotShared(subs, z, l, k, n);
      assert z in subs[i] + subs[j];
    }
    hide Ordered;
  }

  lemma NotShared(subs: Subproblems, x: nat, i: nat, k: nat, n: nat)
    requires Ordered(subs, n) && i < |subs| && k < |subs| && x in subs[i] && i != k
    ensures x !in subs[k]
  {
    hide Value, Below;
    assert if i < k then Precedes(subs[i], subs[k], n) else Precedes(subs[k], subs[i], n);
  }

  lemma PairIsNotSingle(s: Subproblem, x: nat, y: nat)
    requires x in s && y in s && x != y
    ensures |s| != 1
  {
    assert s == {x} + (s - {x});
    assert y in s - {x};
  }

  lemma PlannedAfterMerge(e: Entries, subs: Subproblems, i: nat, j: nat, n: nat, c: Entry)
    requires Planned(e, subs, n) && i < j < |subs|
    ensures Planned(e[subs[i] + subs[j] := c], Merge(subs, i, j), n)
  {
    var joined, m := subs[i] + subs[j], Merge(subs, i, j);
    var next := e[joined := c];
    MergeAt(subs, i, j, 0);
    hide Merge;
    forall k | 0 <= k < |m| ensures m[k] in next {
      MergeAt(subs, i, j, k);
    }
    forall s | s in next ensures s != {} && PartOf(s, m) {
      if s == joined {
        MergeAt(subs, i, j, j - 1);
        assert subs[i] in e;
        assert s <= m[j - 1];
      } else {
        PartOfMerge(e, subs, i, j, n, s);
      }
    }
  }

  lemma PartOfMerge(e: Entries, subs: Subproblems, i: nat, j: nat, n: nat, s: Subproblem)
    requires Planned(e, subs, n) && i < j < |subs| && s in e
    ensures s != {} && PartOf(s, Merge(subs, i, j))
  {
    var k :| 0 <= k < |subs| && s <= subs[k];
    var l := if k == i || k == j then j - 1 else if k < i then k else k - 1;
    MergeAt(subs, i, j, l);
    hide Merge;
    assert s <= Merge(subs, i, j)[l];
  }

  /** The call joins the two subproblems that the second state has in one, the smaller number first. */
  ghost predicate Merged(before: Subproblems, after: Subproblems, call: (Subproblem, Subproblem), n: nat) {
    && call.0 in before && call.1 in before && Precedes(call.0, call.1, n)
    && Elems(after) == Elems(before) - {call.0, call.1} + {call.0 + call.1}
  }

  lemma MergeIsMerged(subs: Subproblems, i: nat, j: nat, n: nat)
    requires Ordered(subs, n) && i < j < |subs|
    ensures Merged(subs, Merge(subs, i, j), (subs[i], subs[j]), n)
  {
    MergeIsOrdered(subs, i, j, n);
    hide Value, Below, Merge;
  }

  /** The calls are the joins on the path to the state, from its first state on. */
  ghost predicate FollowsUp(s: State, log: Calls, n: nat) {
    match s
    case Root(_) => log == []
    case Child(subs, p) =>
      && log != [] && FollowsUp(p, log[..|log| - 1], n)
      && Merged(p.subproblems, subs, log[|log| - 1], n)
  }

  /** The calls are the joins on the path from the state back to its first state. */
  ghost predicate FollowsDown(s: State, log: Calls, n: nat) {
    match s
    case Root(_) => log == []
    case Child(subs, p) => log != [] && Merged(subs, p.subproblems, log[0], n) && FollowsDown(p, log[1..], n)
  }

  /** Issues the update for the two subproblems that a state joins. */
  method UpdateForJoin(pt: PlanTable, before: Subproblems, after: Subproblems)
    returns (ghost call: (Subproblem, Subproblem))
    requires pt.Valid() && Joins(before, after, pt.n) && Planned(pt.entries, before, pt.n)
    requires EachIsNew(pt.model, pt.n, pt.log) && DisjointCalls(pt.log)
    modifies pt
    ensures pt.Valid() && Planned(pt.entries, after, pt.n)
    ensures EachIsNew(pt.model, pt.n, pt.log) && DisjointCalls(pt.log)
    ensures pt.log == old(pt.log) + [call] && Merged(before, after, call, pt.n)
  {
    hide Planned, Ordered, Joins, Candidate, Merge, EachIsNew, Replay, DisjointCalls, CallIsNew, Merged;
    ghost var i, j := JoinsIsMerge(before, after, pt.n);
    JoinsOrdered(before, after, pt.n);
    MergeIsMerged(before, i, j, pt.n);
    UnionIsNew(pt.entries, before, i, j, pt.n);
    PlannedAfterMerge(pt.entries, before, i, j, pt.n, Candidate(pt.model, pt.entries, before[i], before[j]));
    OneMoreCall(pt.model, pt.n, pt.log, (before[i], before[j]));
    var d := Delta(before, after, pt.n, i, j);
    assert !pt.HasPlan(d.0 + d.1);
    call := d;
    pt.Update(d.0, d.1);
  }

  lemma JoinsOrdered(before: Subproblems, after: Subproblems, n: nat)
    requires Joins(before, after, n)
    ensures Ordered(before, n) && Ordered(after, n)
  {}

  /** Each step of a top-down search adds a subproblem. */
  lemma {:induction false} StepsOfSplits(s: State, n: nat)
    requires TopDown(s, n)
    ensures s.Steps() + 1 == |s.subproblems|
  {
    if s.Child? {
      StepsOfSplits(s.parent, n);
      JoinsShrinks(s.subproblems, s.parent.subproblems, n);
    }
  }

  lemma JoinsShrinks(before: Subproblems, after: Subproblems, n: nat)
    requires Joins(before, after, n)
    ensures |before| == |after| + 1
  {
    var i, j := JoinsIsMerge(before, after, n);
    MergeAt(before, i, j, 0);
  }

  /** From the parents to the state: one new plan for each join on the path. */
  method ReconstructBottomUp(state: State, pt: PlanTable)
    requires BottomUp(state, pt.n) && pt.Valid() && pt.log == []
    modifies pt
    ensures pt.Valid() && Planned(pt.entries, state.subproblems, pt.n)
    ensures EachIsNew(pt.model, pt.n, pt.log) && DisjointCalls(pt.log) && |pt.log| == pt.n - |state.subproblems|
    ensures FollowsUp(state, pt.log, pt.n)
    ensures forall s :: s in pt.entries ==> Spelled(pt.model, pt.n, pt.entries, s, true)
    decreases state
  {
    match state
    case Root(subs) =>
      SingletonsPlanned(pt.model, subs, pt.n);
      TableIsSpelled(pt);
    case Child(subs, parent) =>
      hide Planned, PlanTable.Valid, EachIsNew;
      ReconstructBottomUp(parent, pt);
      JoinsShrinks(parent.subproblems, subs, pt.n);
      hide Joins, Merged;
      ghost var before := pt.log;
      ghost var call := UpdateForJoin(pt, parent.subproblems, subs);
      assert (before + [call])[..|before|] == before;
      TableIsSpelled(pt);
  }

  /** From the goal, which has single relations only, to the state with all relations: the joins on the
      way back. */
  method ReconstructTopDown(goal: State, pt: PlanTable)
    requires TopDown(goal, pt.n) && Singletons(goal.subproblems, pt.n)
    requires pt.Valid() && pt.log == []
    modifies pt
    ensures pt.Valid() && Planned(pt.entries, [Below(pt.n)], pt.n)
    ensures EachIsNew(pt.model, pt.n, pt.log) && DisjointCalls(pt.log) && |pt.log| == pt.n - 1
    ensures FollowsDown(goal, pt.log, pt.n)
    ensures forall s :: s in pt.entries ==> Spelled(pt.model, pt.n, pt.entries, s, true)
  {
    SingletonsPlanned(pt.model, goal.subproblems, pt.n);
    StepsOfSplits(goal, pt.n);
    NoneNew(pt);
    StartsAtGoal(goal, pt.n);
    hide *;
    GoalSize(goal, pt.n);
    var current := goal;
    while current.Child?
      invariant TopDown(current, pt.n) && pt.Valid() && Planned(pt.entries, current.subproblems, pt.n)
      invariant EachIsNew(pt.model, pt.n, pt.log) && DisjointCalls(pt.log) && |pt.log| + current.Steps() == goal.Steps()
      invariant Leads(goal, current, pt.log, pt.n)
      decreases current
    {
      ghost var before := pt.log;
      TopDownMeans(current, pt.n);
      ghost var call := UpdateForJoin(pt, current.subproblems, current.parent.subproblems);
      LeadsFurther(goal, current, before, call, pt.n);
      current := current.parent;
    }
    TopDownEnds(goal, current, pt.log, pt.n);
    TableIsSpelled(pt);
  }

  /** The calls are the joins on the path from the goal to a state. */
  ghost predicate Leads(goal: State, current: State, log: Calls, n: nat) {
    forall rest :: FollowsDown(current, rest, n) ==> FollowsDown(goal, log + rest, n)
  }

  lemma StartsAtGoal(goal: State, n: nat)
    ensures Leads(goal, goal, [], n)
  {
    hide FollowsDown;
    forall rest: Calls | FollowsDown(goal, rest, n) ensures FollowsDown(goal, [] + rest, n) {
      assert [] + rest == rest;
    }
  }

  lemma LeadsFurther(goal: State, current: State, log: Calls, call: (Subproblem, Subproblem), n: nat)
    requires current.Child? && Leads(goal, current, log, n)
    requires Merged(current.subproblems, current.parent.subproblems, call, n)
    ensures Leads(goal, current.parent, log + [call], n)
  {
    hide Merged;
    forall rest | FollowsDown(current.parent, rest, n) ensures FollowsDown(goal, log + [call] + rest, n) {
      assert ([call] + rest)[1..] == rest;
      assert FollowsDown(current, [call] + rest, n);
      assert log + ([call] + rest) == log + [call] + rest;
    }
  }

  lemma TopDownMeans(s: State, n: nat)
    requires TopDown(s, n) && s.Child?
    ensures TopDown(s.parent, n) && Joins(s.subproblems, s.parent.subproblems, n)
    ensures s.Steps() == s.parent.Steps() + 1
  {}

  lemma TopDownEnds(goal: State, current: State, log: Calls, n: nat)
    requires TopDown(current, n) && current.Root? && Leads(goal, current, log, n)
    ensures current.subproblems == [Below(n)] && current.Steps() == 0 && FollowsDown(goal, log, n)
  {
    var none: Calls := [];
    assert FollowsDown(current, none, n) && log + none == log;
  }

  lemma GoalSize(goal: State, n: nat)
    requires Singletons(goal.subproblems, n)
    ensures |goal.subproblems| == n
  {}

  lemma NoneNew(pt: PlanTable)
    requires pt.Valid() && pt.log == []
    ensures EachIsNew(pt.model, pt.n, pt.log) && DisjointCalls(pt.log) && pt.entries == Initial(pt.model, pt.n)
  {}
}
