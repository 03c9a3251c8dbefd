/** The three-stack backtracking enumeration of all complete partial plans of a final plan. */
module PartialPlanGenerator {
  import opened SmallBitset
  import opened PlanTables
  import opened TableTrees

  function Size(t: JoinTree): nat {
    match t
    case Leaf(_) => 1
    case Join(l, r) => 1 + Size(l) + Size(r)
  }

  function Leaves(t: JoinTree): nat {
    match t
    case Leaf(_) => 1
    case Join(l, r) => Leaves(l) + Leaves(r)
  }

  type Plan = seq<Subproblem>
  type Forest = seq<JoinTree>

  /** The table holds the joins of `t`. */
  ghost predicate Holds(pt: Entries, t: JoinTree) {
    t.Join? ==>
      && t.Rels() in pt && pt[t.Rels()].left == t.left.Rels() && pt[t.Rels()].right == t.right.Rels()
      && Holds(pt, t.left) && Holds(pt, t.right)
  }

  /** A table holds every tree that it spells. */
  lemma {:induction false} SpelledIsHeld(pt: Entries, s: Subproblem, t: JoinTree)
    requires Spells(pt, s, t)
    ensures t.Rels() == s && Holds(pt, t)
  {
    if t.Join? {
      SpelledIsHeld(pt, pt[s].left, t.left);
      SpelledIsHeld(pt, pt[s].right, t.right);
    }
  }

  function Roots(f: Forest): Plan {
    seq(|f|, i requires 0 <= i < |f| => f[i].Rels())
  }

  function SizeOf(f: Forest): nat {
    if f == [] then 0 else SizeOf(f[..|f| - 1]) + Size(f[|f| - 1])
  }

  /** All complete partial plans for a stack of candidates, top of the stack first: either the top
      candidate is taken as it is, or it is split into its two children. */
  ghost function Plans(candidates: Forest): seq<Forest>
    decreases SizeOf(candidates)
  {
    if candidates == [] then [[]]
    else
      var rest, t := candidates[..|candidates| - 1], candidates[|candidates| - 1];
      Prepend(t, Plans(rest)) + match t
                                case Leaf(_) => []
                                case Join(l, r) => SizeOfSplit(rest, t); Plans(rest + [l, r])
  }

  function Prepend(t: JoinTree, plans: seq<Forest>): seq<Forest> {
    seq(|plans|, i requires 0 <= i < |plans| => [t] + plans[i])
  }

  lemma SizeOfSplit(rest: Forest, t: JoinTree)
    requires t.Join?
    ensures SizeOf(rest + [t.left, t.right]) < SizeOf(rest + [t])
    ensures SizeOf(rest + [t]) == SizeOf(rest) + Size(t)
  {
    SizeOfAppend(rest, t);
    SizeOfAppend(rest, t.left);
    SizeOfAppend(rest + [t.left], t.right);
    assert rest + [t.left, t.right] == rest + [t.left] + [t.right];
  }

  lemma SizeOfAppend(rest: Forest, t: JoinTree)
    ensures SizeOf(rest + [t]) == SizeOf(rest) + Size(t)
  {
    assert (rest + [t])[..|rest|] == rest;
  }

  // -------------------------------------------------- the backtracker follows the specification

  /** An element of the decision stack; the tree of a rejected plan is known only to the proof. */
  datatype Decision = Taken | Split(t: JoinTree)

  ghost function Complete(taken: Forest, candidates: Forest): seq<Forest> {
    Behind(taken, Plans(candidates))
  }

  ghost function Behind(taken: Forest, plans: seq<Forest>): seq<Forest> {
    seq(|plans|, i requires 0 <= i < |plans| => taken + plans[i])
  }

  /** The stacks of a trace fit together: a rejected plan's children are the top candidates when
      its decision is on top. */
  ghost predicate Consistent(d: seq<Decision>, taken: Forest, candidates: Forest) {
    if d == [] then taken == []
    else
      var k := |d| - 1;
      match d[k]
      case Taken => taken != [] && Consistent(d[..k], taken[..|taken| - 1], candidates + [taken[|taken| - 1]])
      case Split(t) =>
        && t.Join? && |candidates| >= 2
        && candidates[|candidates| - 2..] == [t.left, t.right]
        && Consistent(d[..k], taken, candidates[..|candidates| - 2] + [t])
  }

  /** What unwinding the decision stack will still produce. */
  ghost function Remaining(d: seq<Decision>, taken: Forest, candidates: Forest): seq<Forest>
    requires Consistent(d, taken, candidates)
  {
    if d == [] then []
    else
      var k := |d| - 1;
      match d[k]
      case Taken =>
        var t, before := taken[|taken| - 1], taken[..|taken| - 1];
        (match t case Leaf(_) => [] case Join(l, r) => Complete(before, candidates + [l, r]))
        + Remaining(d[..k], before, candidates + [t])
      case Split(t) => Remaining(d[..k], taken, candidates[..|candidates| - 2] + [t])
  }

  /** Taking the top candidate moves plans from one part of the rest to the other. */
  lemma TakeStep(d: seq<Decision>, taken: Forest, rest: Forest, t: JoinTree)
    requires Consistent(d, taken, rest + [t])
    ensures Consistent(d + [Taken], taken + [t], rest)
    ensures Complete(taken + [t], rest) + Remaining(d + [Taken], taken + [t], rest)
            == Complete(taken, rest + [t]) + Remaining(d, taken, rest + [t])
  {
    SplitComplete(taken, rest, t);
    hide Complete;
    assert (d + [Taken])[..|d|] == d;
    assert (taken + [t])[..|taken|] == taken;
    var tail: seq<Forest> := match t case Leaf(_) => [] case Join(l, r) => Complete(taken, rest + [l, r]);
    var r := Remaining(d, taken, rest + [t]);
    assert Remaining(d + [Taken], taken + [t], rest) == tail + r;
    assert Complete(taken + [t], rest) + (tail + r) == (Complete(taken + [t], rest) + tail) + r;
  }

  lemma SplitComplete(taken: Forest, rest: Forest, t: JoinTree)
    ensures Complete(taken, rest + [t])
            == Complete(taken + [t], rest)
              + match t case Leaf(_) => [] case Join(l, r) => Complete(taken, rest + [l, r])
  {
    assert (rest + [t])[..|rest|] == rest;
    var tail: seq<Forest> := match t case Leaf(_) => [] case Join(l, r) => Plans(rest + [l, r]);
    assert Plans(rest + [t]) == Prepend(t, Plans(rest)) + tail;
    hide Plans, Prepend;
    Distribute(taken, Prepend(t, Plans(rest)), tail);
    BehindTaken(taken, t, Plans(rest));
    assert Behind(taken, []) == [];
  }

  lemma Distribute(taken: Forest, a: seq<Forest>, b: seq<Forest>)
    ensures Behind(taken, a + b) == Behind(taken, a) + Behind(taken, b)
  {}

  lemma BehindTaken(taken: Forest, t: JoinTree, plans: seq<Forest>)
    ensures Behind(taken, Prepend(t, plans)) == Behind(taken + [t], plans)
  {
    forall i | 0 <= i < |plans| ensures taken + ([t] + plans[i]) == taken + [t] + plans[i] {}
  }

  /** Rejecting the plan taken last. */
  lemma RejectStep(d: seq<Decision>, taken: Forest, candidates: Forest)
    requires d != [] && d[|d| - 1] == Taken && taken != [] && Consistent(d, taken, candidates)
             && taken[|taken| - 1].Join?
    ensures var k, t, before := |d| - 1, taken[|taken| - 1], taken[..|taken| - 1];
            && Consistent(d[..k] + [Split(t)], before, candidates + [t.left, t.right])
            && Remaining(d, taken, candidates)
               == Complete(before, candidates + [t.left, t.right])
                  + Remaining(d[..k] + [Split(t)], before, candidates + [t.left, t.right])
  {
    var k, t, before := |d| - 1, taken[|taken| - 1], taken[..|taken| - 1];
    var next := candidates + [t.left, t.right];
    assert (d[..k] + [Split(t)])[..k] == d[..k];
    assert next[..|next| - 2] == candidates;
  }

  /** Unwinding a rejected plan, or a single relation, leaves what remains unchanged. */
  lemma RemainingUnwound(d: seq<Decision>, taken: Forest, candidates: Forest)
    requires d != [] && Consistent(d, taken, candidates)
    ensures var k := |d| - 1;
            match d[k]
            case Taken => taken[|taken| - 1].Leaf? ==>
              Remaining(d, taken, candidates)
                == Remaining(d[..k], taken[..|taken| - 1], candidates + [taken[|taken| - 1]])
            case Split(t) =>
              Remaining(d, taken, candidates) == Remaining(d[..k], taken, candidates[..|candidates| - 2] + [t])
  {}

  lemma RestLength(calls: seq<Plan>, all: seq<Forest>, rest: seq<Forest>)
    requires calls + MapRoots(rest) == MapRoots(all)
    ensures |calls| <= |all|
  {
    assert |calls + MapRoots(rest)| == |MapRoots(all)|;
  }

  ghost function Decisions(d: seq<Decision>): seq<bool> {
    seq(|d|, i requires 0 <= i < |d| => d[i].Taken?)
  }

  ghost function Splits(d: seq<Decision>): nat {
    if d == [] then 0 else Splits(d[..|d| - 1]) + if d[|d| - 1].Split? then 1 else 0
  }

  ghost function LeavesOf(f: Forest): nat {
    if f == [] then 0 else LeavesOf(f[..|f| - 1]) + Leaves(f[|f| - 1])
  }

  lemma LeavesOfAppend(f: Forest, t: JoinTree)
    ensures LeavesOf(f + [t]) == LeavesOf(f) + Leaves(t)
  {
    assert (f + [t])[..|f|] == f;
  }

  /** All traces partition the leaves of the tree, and each rejection adds one piece. */
  ghost predicate Balanced(d: seq<Decision>, taken: Forest, candidates: Forest, n: nat) {
    && LeavesOf(taken) + LeavesOf(candidates) == n
    && |taken| + |candidates| == 1 + Splits(d)
    && |d| == |taken| + Splits(d)
  }

  lemma PiecesHaveLeaves(f: Forest)
    ensures |f| <= LeavesOf(f)
  {
    if f != [] {
      PiecesHaveLeaves(f[..|f| - 1]);
      TreeHasLeaf(f[|f| - 1]);
    }
  }

  lemma TreeHasLeaf(t: JoinTree)
    ensures Leaves(t) >= 1
  {}

  /** The bound for which the decision stack reserves its memory. */
  lemma DecisionStackBound(d: seq<Decision>, taken: Forest, candidates: Forest, n: nat)
    requires Balanced(d, taken, candidates, n)
    ensures |d| <= 2 * n && |taken| <= n && |candidates| <= n
  {
    PiecesHaveLeaves(taken);
    PiecesHaveLeaves(candidates);
  }

  ghost predicate AllHold(pt: Entries, f: Forest) {
    forall i :: 0 <= i < |f| ==> Holds(pt, f[i])
  }

  ghost function MapRoots(plans: seq<Forest>): seq<Plan> {
    seq(|plans|, i requires 0 <= i < |plans| => Roots(plans[i]))
  }

  /** The stacks of the running enumeration, with the trees that the subproblems stand for. */
  ghost predicate Represents(pt: Entries, plans: Plan, candidates: Plan, stack: seq<bool>,
                             d: seq<Decision>, taken: Forest, open: Forest, n: nat)
  {
    && plans == Roots(taken) && candidates == Roots(open) && stack == Decisions(d)
    && AllHold(pt, taken) && AllHold(pt, open) && (forall i :: 0 <= i < |d| && d[i].Split? ==> Holds(pt, d[i].t))
    && Consistent(d, taken, open)
    && Balanced(d, taken, open, n)
  }

  lemma RootsOfAppend(f: Forest, t: JoinTree)
    ensures Roots(f + [t]) == Roots(f) + [t.Rels()]
  {}

  lemma RootsOfInit(f: Forest)
    requires f != []
    ensures Roots(f[..|f| - 1]) == Roots(f)[..|f| - 1]
  {}

  lemma RepresentsTake(pt: Entries, plans: Plan, candidates: Plan, stack: seq<bool>,
                       d: seq<Decision>, taken: Forest, open: Forest, n: nat)
    requires Represents(pt, plans, candidates, stack, d, taken, open, n) && open != []
    ensures var k, t := |open| - 1, open[|open| - 1];
            && |candidates| == |open|
            && Represents(pt, plans + [candidates[k]], candidates[..k], stack + [true],
                          d + [Taken], taken + [t], open[..k], n)
  {
    var k, t := |open| - 1, open[|open| - 1];
    assert open == open[..k] + [t];
    TakeStep(d, taken, open[..k], t);
    LeavesOfAppend(taken, t);
    RootsOfAppend(taken, t);
    assert (d + [Taken])[..|d|] == d;
  }

  /** Popping a rejected plan: its two children are on top of the candidates and their union is
      the plan itself. */
  lemma RepresentsUnsplit(pt: Entries, plans: Plan, candidates: Plan, stack: seq<bool>,
                          d: seq<Decision>, taken: Forest, open: Forest, n: nat)
    requires Represents(pt, plans, candidates, stack, d, taken, open, n) && d != [] && d[|d| - 1].Split?
    ensures var k, c := |d| - 1, |open| - 2;
            && |stack| == |d| && !stack[k] && |candidates| == |open| && |candidates| >= 2
            && Represents(pt, plans, candidates[..c] + [candidates[c] + candidates[c + 1]], stack[..k],
                          d[..k], taken, open[..c] + [d[k].t], n)
  {
    var k, c := |d| - 1, |open| - 2;
    var t := d[k].t;
    assert open == open[..c] + [t.left] + [t.right];
    assert open[c..] == [t.left, t.right];
    LeavesOfAppend(open[..c], t.left);
    LeavesOfAppend(open[..c] + [t.left], t.right);
    LeavesOfAppend(open[..c], t);
    RootsOfAppend(open[..c], t);
    assert Roots(open[..c]) == candidates[..c];
  }

  lemma RepresentsUntakeLeaf(pt: Entries, plans: Plan, candidates: Plan, stack: seq<bool>,
                             d: seq<Decision>, taken: Forest, open: Forest, n: nat)
    requires Represents(pt, plans, candidates, stack, d, taken, open, n) && d != [] && d[|d| - 1].Taken?
    ensures var k, p := |d| - 1, |taken| - 1;
            && |stack| == |d| && stack[k] && |plans| == |taken| && plans != [] && plans[p] == taken[p].Rels()
            && Represents(pt, plans[..p], candidates + [plans[p]], stack[..k], d[..k], taken[..p], open + [taken[p]], n)
  {
    var k, p := |d| - 1, |taken| - 1;
    assert taken == taken[..p] + [taken[p]];
    LeavesOfAppend(taken[..p], taken[p]);
    LeavesOfAppend(open, taken[p]);
    RootsOfAppend(open, taken[p]);
    RootsOfInit(taken);
  }

  lemma RepresentsReject(pt: Entries, plans: Plan, candidates: Plan, stack: seq<bool>,
                         d: seq<Decision>, taken: Forest, open: Forest, n: nat)
    requires Represents(pt, plans, candidates, stack, d, taken, open, n)
    requires d != [] && d[|d| - 1].Taken? && taken != [] && taken[|taken| - 1].Join?
    ensures var k, p := |d| - 1, |taken| - 1;
            var t := taken[p];
            && |stack| == |d| && |plans| == |taken| && plans[p] in pt && plans[p] == t.Rels()
            && Represents(pt, plans[..p], candidates + [pt[plans[p]].left, pt[plans[p]].right], stack[..k] + [false],
                          d[..k] + [Split(t)], taken[..p], open + [t.left, t.right], n)
  {
    hide Plans, Complete, Remaining, JoinTree.Rels, Behind, LeavesOf, Disjoint;
    var k, p := |d| - 1, |taken| - 1;
    var t := taken[p];
    RejectStep(d, taken, open);
    hide Consistent;
    assert taken == taken[..p] + [t] && open + [t.left, t.right] == open + [t.left] + [t.right];
    LeavesOfAppend(taken[..p], t);
    LeavesOfAppend(open, t.left);
    LeavesOfAppend(open + [t.left], t.right);
    RootsOfAppend(open, t.left);
    RootsOfAppend(open + [t.left], t.right);
    RootsOfInit(taken);
    assert Holds(pt, t) && pt[t.Rels()].left == t.left.Rels() && pt[t.Rels()].right == t.right.Rels();
    assert (d[..k] + [Split(t)])[..k] == d[..k];
  }

  lemma LeafIffSingleton(t: JoinTree)
    requires Disjoint(t)
    ensures |t.Rels()| == Leaves(t) && (t.Leaf? <==> |t.Rels()| == 1)
  {
    if t.Join? {
      TreeHasLeaf(t.left);
      TreeHasLeaf(t.right);
    }
  }

  ghost predicate AllDisjoint(f: Forest) {
    forall i :: 0 <= i < |f| ==> Disjoint(f[i])
  }

  ghost predicate TracesDisjoint(d: seq<Decision>, taken: Forest, open: Forest) {
    AllDisjoint(taken) && AllDisjoint(open) && forall i :: 0 <= i < |d| && d[i].Split? ==> Disjoint(d[i].t)
  }

  /** Calls back every complete partial plan; `calls` are the callbacks in order. */
  method ForEachCompletePartialPlan(n: nat, pt: Entries, ghost t: JoinTree) returns (calls: seq<Plan>)
    requires n > 0 ==> Disjoint(t) && t.Rels() == Below(n) && Holds(pt, t)
    ensures calls == if n == 0 then [] else MapRoots(Plans([t]))
  {
    hide Plans, Complete, MapRoots, Holds, Below, Remaining, Consistent, Balanced, AllHold, TracesDisjoint;
    calls := [];
    if n == 0 {
      return;
    }
    if n == 1 {
      var root: Subproblem := {0};
      calls := [[root]];
      OneRelation(t);
      return;
    }
    FinalPlan(n, pt, t);
    var last := pt[Below(n)];
    var plans: Plan := [last.left + last.right];
    var candidates: Plan := [];
    var stack := [true];
    ghost var d, taken, open: Forest := [Taken], [t], [];
    ghost var all := Plans([t]);
    StartTrace(n, pt, t);
    while true
      invariant Represents(pt, plans, candidates, stack, d, taken, open, n) && TracesDisjoint(d, taken, open)
      invariant |calls| <= |all| && calls + MapRoots(Complete(taken, open) + Remaining(d, taken, open)) == MapRoots(all)
      decreases |all| - |calls|, SizeOf(open)
    {
      if candidates == [] {
        CallBack(calls, all, d, taken);
        calls := calls + [plans];
        var more;
        plans, candidates, stack, more, d, taken, open :=
          Unwind(n, pt, plans, candidates, stack, calls, all, d, taken, open);
        if !more {
          break;
        }
      } else {
        ghost var k := |open| - 1;
        TakeTop(d, taken, open);
        TakeKeepsShape(d, taken, open);
        RepresentsTake(pt, plans, candidates, stack, d, taken, open, n);
        var c := |candidates| - 1;
        plans, candidates, stack := plans + [candidates[c]], candidates[..c], stack + [true];
        d, taken, open := d + [Taken], taken + [open[k]], open[..k];
        DecisionStackBound(d, taken, open, n);
        assert |stack| <= 2 * n;
      }
    }
  }

  /** Unwinds the decision stack to the last plan that can be rejected. */
  method Unwind(n: nat, pt: Entries, plans0: Plan, candidates0: Plan, stack0: seq<bool>, ghost calls: seq<Plan>,
                ghost all: seq<Forest>, ghost d0: seq<Decision>, ghost taken0: Forest, ghost open0: Forest)
    returns (plans: Plan, candidates: Plan, stack: seq<bool>, more: bool,
             ghost d: seq<Decision>, ghost taken: Forest, ghost open: Forest)
    requires Represents(pt, plans0, candidates0, stack0, d0, taken0, open0, n) && TracesDisjoint(d0, taken0, open0)
    requires calls + MapRoots(Remaining(d0, taken0, open0)) == MapRoots(all)
    ensures !more ==> calls == MapRoots(all)
    ensures more ==> Represents(pt, plans, candidates, stack, d, taken, open, n) && TracesDisjoint(d, taken, open)
    ensures more ==>
              |calls| <= |all| && calls + MapRoots(Complete(taken, open) + Remaining(d, taken, open)) == MapRoots(all)
  {
    hide Plans, Complete, Roots, MapRoots, Holds, Below, Remaining, Consistent, Balanced, AllHold;
    plans, candidates, stack := plans0, candidates0, stack0;
    d, taken, open := d0, taken0, open0;
    while stack != []
      invariant Represents(pt, plans, candidates, stack, d, taken, open, n) && TracesDisjoint(d, taken, open)
      invariant calls + MapRoots(Remaining(d, taken, open)) == MapRoots(all)
      decreases |stack|
    {
      assert |d| == |stack|;
      ghost var k := |d| - 1;
      var top := |stack| - 1;
      var wasTaken := stack[top];
      assert wasTaken == d[k].Taken?;
      if !wasTaken {
        RepresentsUnsplit(pt, plans, candidates, stack, d, taken, open, n);
        assert |candidates| >= 2;
        RemainingUnwound(d, taken, open);
        var right := candidates[|candidates| - 1];
        var left := candidates[|candidates| - 2];
        stack, candidates := stack[..top], candidates[..|candidates| - 2] + [left + right];
        d, open := d[..k], open[..|open| - 2] + [d[k].t];
        continue;
      }
      RepresentsUntakeLeaf(pt, plans, candidates, stack, d, taken, open, n);
      var p := |plans| - 1;
      var plan := plans[p];
      LeafIffSingleton(taken[p]);
      if |plan| == 1 {
        RemainingUnwound(d, taken, open);
        stack, plans, candidates := stack[..top], plans[..p], candidates + [plan];
        d, taken, open := d[..k], taken[..p], open + [taken[p]];
        continue;
      }
      RepresentsReject(pt, plans, candidates, stack, d, taken, open, n);
      RejectStep(d, taken, open);
      RestLength(calls, all, Remaining(d, taken, open));
      ghost var t := taken[p];
      stack, plans := stack[..top] + [false], plans[..p];
      candidates := candidates + [pt[plan].left, pt[plan].right];
      d, taken, open := d[..k] + [Split(t)], taken[..p], open + [t.left, t.right];
      more := true;
      return;
    }
    more := false;
    NothingRemains(calls, all, taken, open);
  }

  lemma NothingRemains(calls: seq<Plan>, all: seq<Forest>, taken: Forest, open: Forest)
    requires Consistent([], taken, open) && calls + MapRoots(Remaining([], taken, open)) == MapRoots(all)
    ensures calls == MapRoots(all)
  {
    assert MapRoots([]) == [];
  }

  lemma OneRelation(t: JoinTree)
    requires Disjoint(t) && t.Rels() == Below(1)
    ensures MapRoots(Plans([t])) == [[{0}]]
  {
    BelowSize(1);
    LeafIffSingleton(t);
    assert t.rel in Below(1);
    assert Plans([]) == [[]];
    assert [t][..0] == [] && [t] + [] == [t];
    assert Prepend(t, [[]]) == [[t]];
    assert Plans([t]) == [[t]];
    assert Roots([t]) == [{0}];
  }

  lemma FinalPlan(n: nat, pt: Entries, t: JoinTree)
    requires n >= 2 && Disjoint(t) && t.Rels() == Below(n) && Holds(pt, t)
    ensures t.Join? && Below(n) in pt && pt[Below(n)].left == t.left.Rels() && pt[Below(n)].right == t.right.Rels()
  {
    BelowSize(n);
    LeafIffSingleton(t);
  }

  lemma StartTrace(n: nat, pt: Entries, t: JoinTree)
    requires Disjoint(t) && t.Rels() == Below(n) && Holds(pt, t)
    ensures Represents(pt, [t.Rels()], [], [true], [Taken], [t], [], n) && TracesDisjoint([Taken], [t], [])
    ensures Complete([t], []) + Remaining([Taken], [t], []) == Plans([t])
  {
    StartComplete(t);
    StartRepresents(n, pt, t);
    assert [] + [t] == [t] && [] + [Taken] == [Taken];
    assert Consistent([], [], [t]);
    TakeStep([], [], [], t);
    hide Plans, Complete;
    assert Remaining([], [], [t]) == [];
    assert Complete([], [t]) + [] == Complete([], [t]);
  }

  lemma StartRepresents(n: nat, pt: Entries, t: JoinTree)
    requires Disjoint(t) && t.Rels() == Below(n) && Holds(pt, t)
    ensures Represents(pt, [t.Rels()], [], [true], [Taken], [t], [], n) && TracesDisjoint([Taken], [t], [])
  {
    hide Below, Holds, JoinTree.Rels, Disjoint, Leaves;
    StartConsistent(t);
    StartBalanced(n, t);
    hide Balanced, Consistent;
    assert Roots([t]) == [t.Rels()] && Roots([]) == [];
    assert Decisions([Taken]) == [true];
  }

  lemma StartConsistent(t: JoinTree)
    ensures Consistent([Taken], [t], [])
  {
    var d := [Taken];
    assert d[..0] == [] && [t][..0] == [] && [] + [t] == [t];
    assert Consistent([], [], [t]);
  }

  lemma StartBalanced(n: nat, t: JoinTree)
    requires Disjoint(t) && t.Rels() == Below(n)
    ensures Balanced([Taken], [t], [], n)
  {
    BelowSize(n);
    LeafIffSingleton(t);
    LeavesOfOne(t);
    hide Below, JoinTree.Rels, Disjoint, Leaves, LeavesOf;
  }

  lemma LeavesOfOne(t: JoinTree)
    ensures LeavesOf([t]) == Leaves(t) && LeavesOf([]) == 0
    ensures Splits([Taken]) == 0
  {
    assert [t][..0] == [] && [Taken][..0] == [];
  }

  lemma StartComplete(t: JoinTree)
    ensures Complete([], [t]) == Plans([t])
  {
    forall i | 0 <= i < |Plans([t])| ensures [] + Plans([t])[i] == Plans([t])[i] {}
  }

  lemma CallBack(calls: seq<Plan>, all: seq<Forest>, d: seq<Decision>, taken: Forest)
    requires Consistent(d, taken, [])
    requires calls + MapRoots(Complete(taken, []) + Remaining(d, taken, [])) == MapRoots(all)
    ensures calls + [Roots(taken)] + MapRoots(Remaining(d, taken, [])) == MapRoots(all)
    ensures |calls| < |all|
  {
    assert taken + [] == taken;
    assert Complete(taken, []) == [taken];
    assert MapRoots([taken] + Remaining(d, taken, [])) == [Roots(taken)] + MapRoots(Remaining(d, taken, []));
  }

  lemma TakeTop(d: seq<Decision>, taken: Forest, open: Forest)
    requires Consistent(d, taken, open) && open != []
    ensures var k := |open| - 1;
            && Consistent(d + [Taken], taken + [open[k]], open[..k])
            && Complete(taken + [open[k]], open[..k]) + Remaining(d + [Taken], taken + [open[k]], open[..k])
               == Complete(taken, open) + Remaining(d, taken, open)
            && SizeOf(open[..k]) < SizeOf(open)
  {
    hide Consistent, Complete, Remaining;
    var k := |open| - 1;
    assert open == open[..k] + [open[k]];
    TakeStep(d, taken, open[..k], open[k]);
    TreeHasSize(open[k]);
  }

  lemma TakeKeepsShape(d: seq<Decision>, taken: Forest, open: Forest)
    requires TracesDisjoint(d, taken, open) && open != []
    ensures TracesDisjoint(d + [Taken], taken + [open[|open| - 1]], open[..|open| - 1])
  {}

  lemma TreeHasSize(t: JoinTree)
    ensures Size(t) >= 1
  {}
}
