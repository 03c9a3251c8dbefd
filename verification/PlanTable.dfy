/** Join trees, their costs, and the plan table that every enumerator fills by calls of
    `Update`.  The optimality of a table is proved once, about the sequence of calls that
    produced it; an enumerator then only has to prove facts about its calls. */
module PlanTables {
  import opened SmallBitset
  import opened AdjacencyMatrix

  datatype JoinTree = Leaf(rel: nat) | Join(left: JoinTree, right: JoinTree) {
    function Rels(): (s: Subproblem)
      ensures s != {}
    {
      match this
      case Leaf(r) => {r}
      case Join(l, r) => l.Rels() + r.Rels()
    }
  }

  /** The join trees an enumerator may build. */
  datatype SearchSpace =
    | AllJoins(n: nat)                                  // cross products allowed
    | NoCrossProducts(m: Matrix)
    | ConnectedSides(m: Matrix)                         // both sides of every join are connected
    | Contiguous(m: Matrix, order: seq<nat>)            // every node is an interval of `order`
  {
    ghost predicate Valid() {
      AllJoins? || m.Valid()
    }

    function NumSources(): nat {
      match this
      case AllJoins(n) => n
      case NoCrossProducts(m) => |m.rows|
      case ConnectedSides(m) => |m.rows|
      case Contiguous(m, _) => |m.rows|
    }

    ghost predicate Joinable(l: Subproblem, r: Subproblem) {
      && l !! r
      && match this
         case AllJoins(_) => true
         case NoCrossProducts(m) => m.Adjacent(l, r)
         case ConnectedSides(m) => m.Connected(l) && m.Connected(r)
         case Contiguous(m, order) =>
           m.Adjacent(l, r) && IsInterval(order, l) && IsInterval(order, r) && IsInterval(order, l + r)
    }

    ghost predicate Admits(t: JoinTree) {
      match t
      case Leaf(r) => r < NumSources()
      case Join(a, b) => Admits(a) && Admits(b) && Joinable(a.Rels(), b.Rels())
    }

    ghost predicate HasTree(s: Subproblem) {
      exists t :: Admits(t) && t.Rels() == s
    }
  }

  function Elements(s: seq<nat>): Subproblem {
    set x | x in s
  }

  ghost predicate IsInterval(order: seq<nat>, s: Subproblem) {
    exists i, j :: 0 <= i < j <= |order| && s == Elements(order[i..j])
  }

  lemma JoinableSymmetric(space: SearchSpace, l: Subproblem, r: Subproblem)
    requires space.Valid() && l <= Below(space.NumSources()) && r <= Below(space.NumSources())
    requires space.Joinable(l, r)
    ensures space.Joinable(r, l)
  {
    assert l + r == r + l;
    if space.NoCrossProducts? || space.Contiguous? {
      space.m.AdjacentSymmetric(l, r);
    }
  }

  lemma TreeWithinSources(space: SearchSpace, t: JoinTree)
    requires space.Admits(t)
    ensures t.Rels() <= Below(space.NumSources())
  {}

  lemma TreeSize(space: SearchSpace, t: JoinTree)
    requires space.Admits(t)
    ensures t.Join? ==> |t.Rels()| >= 2
    ensures |t.Rels()| >= 1
  {
    if t.Join? {
      TreeSize(space, t.left);
      TreeSize(space, t.right);
    }
  }

  /** Costs of a join as the cost function sees them: the two subproblems and the costs of
      their plans.  Cardinalities are functions of the subproblem. */
  datatype CostModel = CostModel(scan: nat -> real, join: (Subproblem, Subproblem, real, real) -> real) {
    ghost predicate Monotone() {
      forall l: Subproblem, r: Subproblem, c, c', d, d' ::
        c <= c' && d <= d' ==> join(l, r, c, d) <= join(l, r, c', d')
    }

    function Cost(t: JoinTree): real {
      match t
      case Leaf(r) => scan(r)
      case Join(a, b) => join(a.Rels(), b.Rels(), Cost(a), Cost(b))
    }
  }

  /** The engine's cost function C_out is such a model, for every cardinality estimate. */
  function Cout(card: Subproblem -> real): CostModel {
    CostModel(i => 0.0, (l: Subproblem, r: Subproblem, c: real, d: real) => card(l + r) + c + d)
  }

  lemma CoutMonotone(card: Subproblem -> real)
    ensures Cout(card).Monotone()
  {}

  /** The cardinalities of all intermediate results. */
  function Intermediates(card: Subproblem -> real, t: JoinTree): real {
    match t
    case Leaf(_) => 0.0
    case Join(a, b) => card(t.Rels()) + Intermediates(card, a) + Intermediates(card, b)
  }

  /** Its costs are the sum of the cardinalities of all intermediate results of a plan. */
  lemma {:induction false} CoutIsSum(card: Subproblem -> real, t: JoinTree)
    ensures Cout(card).Cost(t) == Intermediates(card, t)
  {
    match t
    case Leaf(_) =>
    case Join(a, b) =>
      CoutIsSum(card, a);
      CoutIsSum(card, b);
  }

  datatype Entry = Entry(left: Subproblem, right: Subproblem, cost: real)

  type Entries = map<Subproblem, Entry>

  /** Only the single relations have plans. */
  function Initial(cm: CostModel, n: nat): (e: Entries)
    ensures forall s :: s in e <==> exists i: nat :: i < n && s == {i}
    ensures forall i: nat :: i < n ==> {i} in e && e[{i}].cost == cm.scan(i)
  {
    map i: nat | 0 <= i < n :: {i} := Entry({}, {}, cm.scan(i))
  }

  /** The cheaper of the two orders in which the plans for `l` and `r` can be joined. */
  function Candidate(cm: CostModel, e: Entries, l: Subproblem, r: Subproblem): Entry
    requires l in e && r in e
  {
    var lr := cm.join(l, r, e[l].cost, e[r].cost);
    var rl := cm.join(r, l, e[r].cost, e[l].cost);
    if rl < lr then Entry(r, l, rl) else Entry(l, r, lr)
  }

  /** The table after considering to join `l` and `r`: the candidate replaces the entry of
      the union if there is none or it is more expensive. */
  function Updated(cm: CostModel, e: Entries, l: Subproblem, r: Subproblem): (e': Entries)
    requires l in e && r in e
  {
    var candidate := Candidate(cm, e, l, r);
    if l + r !in e || candidate.cost < e[l + r].cost then e[l + r := candidate] else e
  }

  type Calls = seq<(Subproblem, Subproblem)>

  function Replay(cm: CostModel, n: nat, log: Calls): Entries {
    if log == [] then Initial(cm, n)
    else
      var e := Replay(cm, n, log[..|log| - 1]);
      var (l, r) := log[|log| - 1];
      if l in e && r in e then Updated(cm, e, l, r) else e
  }

  lemma ReplayStep(cm: CostModel, n: nat, log: Calls, l: Subproblem, r: Subproblem)
    requires l in Replay(cm, n, log) && r in Replay(cm, n, log)
    ensures Replay(cm, n, log + [(l, r)]) == Updated(cm, Replay(cm, n, log), l, r)
  {
    assert (log + [(l, r)])[..|log|] == log;
  }

  class PlanTable {
    const n: nat
    const model: CostModel
    var entries: Entries
    ghost var log: Calls

    ghost predicate Valid()
      reads this
    {
      entries == Replay(model, n, log)
    }

    constructor (n: nat, model: CostModel)
      ensures this.n == n && this.model == model && log == [] && Valid()
    {
      this.n, this.model := n, model;
      entries := Initial(model, n);
      log := [];
    }

    predicate HasPlan(s: Subproblem)
      reads this
    {
      |s| == 1 || s in entries
    }

    method Update(l: Subproblem, r: Subproblem)
      requires Valid() && l in entries && r in entries
      modifies this
      ensures Valid() && log == old(log) + [(l, r)]
      ensures entries == Updated(model, old(entries), l, r)
    {
      var left, right := l, r;
      var cost := model.join(left, right, entries[left].cost, entries[right].cost);
      var rlCost := model.join(right, left, entries[right].cost, entries[left].cost);
      if rlCost < cost {
        cost, rlCost := rlCost, cost;
        left, right := right, left;
      }
      assert left + right == l + r;
      if left + right !in entries || cost < entries[left + right].cost {
        entries := entries[left + right := Entry(left, right, cost)];
      }
      log := log + [(l, r)];
      ReplayStep(model, n, old(log), l, r);
      hide Replay;
    }

    /** Drops the plan of a join again. */
    method Clear(s: Subproblem)
      modifies `entries
      ensures entries == old(entries) - {s}
    {
      entries := entries - {s};
    }

    /** A table with plans for the single relations only is as good as new. */
    ghost method Forget()
      requires entries == Initial(model, n)
      modifies `log
      ensures log == [] && Valid()
    {
      log := [];
    }
  }

  // ------------------------------------------------------------- optimality of call sequences

  ghost predicate Attained(space: SearchSpace, cm: CostModel, e: Entries, s: Subproblem)
    requires s in e
  {
    exists t :: space.Admits(t) && t.Rels() == s && cm.Cost(t) == e[s].cost
  }

  /** The entry of `s` is the least cost of all join trees for `s` in the search space. */
  ghost predicate Optimal(space: SearchSpace, cm: CostModel, e: Entries, s: Subproblem) {
    && s in e
    && Attained(space, cm, e, s)
    && forall t :: space.Admits(t) && t.Rels() == s ==> e[s].cost <= cm.Cost(t)
  }

  predicate PairIn(log: Calls, a: Subproblem, b: Subproblem) {
    (a, b) in log || (b, a) in log
  }

  /** A pair of subproblems that a complete enumeration has to consider: both have join trees
      and the two may be joined. */
  ghost predicate Pair(space: SearchSpace, a: Subproblem, b: Subproblem) {
    space.Joinable(a, b) && space.HasTree(a) && space.HasTree(b)
  }

  /** Every way to split `s` into two buildable parts has been considered. */
  ghost predicate Settled(space: SearchSpace, log: Calls, s: Subproblem) {
    forall a, b :: a + b == s && Pair(space, a, b) ==> PairIn(log, a, b)
  }

  /** Each call joins two buildable parts whose own splits were all considered before. */
  ghost predicate WellOrdered(space: SearchSpace, log: Calls) {
    forall i :: 0 <= i < |log| ==>
      && Pair(space, log[i].0, log[i].1)
      && Settled(space, log[..i], log[i].0) && Settled(space, log[..i], log[i].1)
  }

  ghost predicate Covers(space: SearchSpace, cm: CostModel, e: Entries, l: Subproblem, r: Subproblem) {
    && l + r in e
    && forall a, b :: space.Admits(a) && space.Admits(b) && a.Rels() == l && b.Rels() == r
                      ==> e[l + r].cost <= cm.Cost(Join(a, b)) && e[l + r].cost <= cm.Cost(Join(b, a))
  }

  lemma WellOrderedPrefix(space: SearchSpace, log: Calls, k: nat)
    requires WellOrdered(space, log) && k <= |log|
    ensures WellOrdered(space, log[..k])
  {
    forall i | 0 <= i < k
      ensures log[..k][i] == log[i] && log[..k][..i] == log[..i]
    {}
  }

  lemma WellOrderedLast(space: SearchSpace, log: Calls)
    requires WellOrdered(space, log) && log != []
    ensures var k := |log| - 1;
            var (l, r) := log[k];
            && Pair(space, l, r)
            && Settled(space, log[..k], l) && Settled(space, log[..k], r)
  {}

  lemma WellOrderedAppend(space: SearchSpace, log: Calls, l: Subproblem, r: Subproblem)
    requires WellOrdered(space, log)
    requires Pair(space, l, r)
    requires Settled(space, log, l) && Settled(space, log, r)
    ensures WellOrdered(space, log + [(l, r)])
  {
    var log' := log + [(l, r)];
    forall i | 0 <= i < |log'|
      ensures && Pair(space, log'[i].0, log'[i].1)
              && Settled(space, log'[..i], log'[i].0) && Settled(space, log'[..i], log'[i].1)
    {
      if i < |log| {
        assert log'[i] == log[i] && log'[..i] == log[..i];
      } else {
        assert log'[..i] == log;
      }
    }
  }

  /** A settled subproblem with a tree is optimal once all calls so far are covered. */
  lemma SettledIsOptimal(space: SearchSpace, cm: CostModel, e: Entries, log: Calls, s: Subproblem)
    requires space.Valid() && Settled(space, log, s) && space.HasTree(s)
    requires forall s :: s in e ==> Attained(space, cm, e, s)
    requires forall p :: p in log ==> Covers(space, cm, e, p.0, p.1)
    requires forall i: nat :: i < space.NumSources() ==> {i} in e && e[{i}].cost == cm.scan(i)
    ensures Optimal(space, cm, e, s)
  {
    forall t | space.Admits(t) && t.Rels() == s
      ensures s in e && e[s].cost <= cm.Cost(t)
    {
      match t
      case Leaf(r) =>
        assert s == {r};
      case Join(a, b) =>
        var l, r := a.Rels(), b.Rels();
        assert Pair(space, l, r);
        assert PairIn(log, l, r);
        assert l + r == r + l == s;
        assert Covers(space, cm, e, l, r) || Covers(space, cm, e, r, l) by {
          assert (l, r) in log || (r, l) in log;
        }
    }
  }

  /** One call keeps what all calls so far have established. */
  lemma UpdateCovers(space: SearchSpace, cm: CostModel, e: Entries, l: Subproblem, r: Subproblem)
    requires space.Valid() && cm.Monotone() && space.Joinable(l, r) && l in e && r in e
    requires forall s :: s in e ==> Attained(space, cm, e, s)
    requires Optimal(space, cm, e, l) && Optimal(space, cm, e, r)
    ensures var e' := Updated(cm, e, l, r);
            && e'.Keys == e.Keys + {l + r}
            && (forall s :: s in e' ==> Attained(space, cm, e', s))
            && (forall s :: s in e ==> e'[s].cost <= e[s].cost && (s != l + r ==> e'[s] == e[s]))
            && Covers(space, cm, e', l, r)
  {
    hide Candidate, SearchSpace.Admits, SearchSpace.Joinable, CostModel.Cost, JoinTree.Rels, CostModel.Monotone;
    var e' := Updated(cm, e, l, r);
    CandidateCovers(space, cm, e, l, r);
    assert Covers(space, cm, e', l, r) by {
      hide Attained, Optimal;
    }
    CandidateAttained(space, cm, e, l, r);
    assert Attained(space, cm, e', l + r) by {
      assert l + r in e && e'[l + r] == e[l + r] ==> Attained(space, cm, e, l + r);
    }
    hide Attained, Optimal;
    forall s | s in e' ensures Attained(space, cm, e', s) {
      if s != l + r {
        assert Attained(space, cm, e, s);
        SameEntry(space, cm, e, e', s);
      }
    }
  }

  lemma SameEntry(space: SearchSpace, cm: CostModel, e: Entries, e': Entries, s: Subproblem)
    requires s in e && s in e' && e[s] == e'[s]
    ensures Attained(space, cm, e, s) <==> Attained(space, cm, e', s)
  {}

  lemma CandidateCovers(space: SearchSpace, cm: CostModel, e: Entries, l: Subproblem, r: Subproblem)
    requires cm.Monotone() && Optimal(space, cm, e, l) && Optimal(space, cm, e, r)
    ensures forall a, b :: space.Admits(a) && space.Admits(b) && a.Rels() == l && b.Rels() == r
              ==> var c := Candidate(cm, e, l, r).cost; c <= cm.Cost(Join(a, b)) && c <= cm.Cost(Join(b, a))
  {
    hide SearchSpace.Admits, Attained;
    forall a, b | space.Admits(a) && space.Admits(b) && a.Rels() == l && b.Rels() == r
      ensures var c := Candidate(cm, e, l, r).cost; c <= cm.Cost(Join(a, b)) && c <= cm.Cost(Join(b, a))
    {
      assert cm.join(l, r, e[l].cost, e[r].cost) <= cm.join(l, r, cm.Cost(a), cm.Cost(b));
      assert cm.join(r, l, e[r].cost, e[l].cost) <= cm.join(r, l, cm.Cost(b), cm.Cost(a));
    }
  }

  lemma CandidateAttained(space: SearchSpace, cm: CostModel, e: Entries, l: Subproblem, r: Subproblem)
    requires space.Valid() && space.Joinable(l, r) && l in e && r in e
    requires Attained(space, cm, e, l) && Attained(space, cm, e, r)
    ensures exists t :: space.Admits(t) && t.Rels() == l + r && cm.Cost(t) == Candidate(cm, e, l, r).cost
  {
    var a :| space.Admits(a) && a.Rels() == l && cm.Cost(a) == e[l].cost;
    var b :| space.Admits(b) && b.Rels() == r && cm.Cost(b) == e[r].cost;
    BothOrdersAdmitted(space, a, b);
    if Candidate(cm, e, l, r) == Entry(l, r, cm.join(l, r, e[l].cost, e[r].cost)) {
      assert cm.Cost(Join(a, b)) == Candidate(cm, e, l, r).cost;
    } else {
      assert cm.Cost(Join(b, a)) == Candidate(cm, e, l, r).cost;
    }
  }

  lemma BothOrdersAdmitted(space: SearchSpace, a: JoinTree, b: JoinTree)
    requires space.Valid() && space.Admits(a) && space.Admits(b) && space.Joinable(a.Rels(), b.Rels())
    ensures space.Admits(Join(a, b)) && Join(a, b).Rels() == a.Rels() + b.Rels()
    ensures space.Admits(Join(b, a)) && Join(b, a).Rels() == a.Rels() + b.Rels()
  {
    TreeWithinSources(space, a);
    TreeWithinSources(space, b);
    JoinableSymmetric(space, a.Rels(), b.Rels());
  }

  ghost predicate Established(space: SearchSpace, cm: CostModel, log: Calls, e: Entries) {
    && (forall s :: s in e ==> Attained(space, cm, e, s))
    && (forall p :: p in log ==> Covers(space, cm, e, p.0, p.1))
    && (forall i: nat :: i < space.NumSources() ==> {i} in e && e[{i}].cost == cm.scan(i))
    && (forall s :: s in e <==> Planned(space.NumSources(), log, s))
  }

  /** The subproblems that have a plan after the calls `log`. */
  ghost predicate Planned(n: nat, log: Calls, s: Subproblem) {
    (exists i: nat :: i < n && s == {i}) || (exists p :: p in log && s == p.0 + p.1)
  }

  lemma {:induction false} ReplayEstablishes(space: SearchSpace, cm: CostModel, log: Calls)
    requires space.Valid() && cm.Monotone() && WellOrdered(space, log)
    ensures Established(space, cm, log, Replay(cm, space.NumSources(), log))
  {
    hide Covers, Updated, WellOrdered, Settled, PairIn, CostModel.Monotone;
    var n := space.NumSources();
    if log == [] {
      forall s | s in Initial(cm, n) ensures Attained(space, cm, Initial(cm, n), s) {
        var i: nat :| i < n && s == {i};
        assert space.Admits(Leaf(i)) && Leaf(i).Rels() == s;
      }
    } else {
      hide Attained, SearchSpace.Admits, Optimal;
      var k := |log| - 1;
      var before := log[..k];
      var (l, r) := log[k];
      var e := Replay(cm, n, before);
      WellOrderedPrefix(space, log, k);
      WellOrderedLast(space, log);
      ReplayEstablishes(space, cm, before);
      SettledIsOptimal(space, cm, e, before, l);
      SettledIsOptimal(space, cm, e, before, r);
      EstablishedStep(space, cm, before, e, l, r);
      assert log == before + [(l, r)];
    }
  }

  lemma EstablishedStep(space: SearchSpace, cm: CostModel, log: Calls, e: Entries, l: Subproblem, r: Subproblem)
    requires Established(space, cm, log, e) && space.Valid() && cm.Monotone()
    requires space.Joinable(l, r) && Optimal(space, cm, e, l) && Optimal(space, cm, e, r)
    ensures Established(space, cm, log + [(l, r)], Updated(cm, e, l, r))
  {
    hide Updated, Attained, Planned, CostModel.Monotone, SearchSpace.Admits, SearchSpace.Joinable;
    var log', e' := log + [(l, r)], Updated(cm, e, l, r);
    UpdateCovers(space, cm, e, l, r);
    forall p | p in log' ensures Covers(space, cm, e', p.0, p.1) {
      if p in log {
        assert Covers(space, cm, e, p.0, p.1);
      }
    }
    JoinableUnion(space, cm, e, l, r);
    forall s ensures s in e' <==> Planned(space.NumSources(), log', s) {
      assert s in e <==> Planned(space.NumSources(), log, s);
      PlannedStep(space.NumSources(), log, l, r, s);
    }
  }

  lemma PlannedStep(n: nat, log: Calls, l: Subproblem, r: Subproblem, s: Subproblem)
    ensures Planned(n, log + [(l, r)], s) <==> Planned(n, log, s) || s == l + r
  {
    var log' := log + [(l, r)];
    assert forall p :: p in log' <==> p in log || p == (l, r);
    assert (l, r) in log';
  }

  lemma JoinableUnion(space: SearchSpace, cm: CostModel, e: Entries, l: Subproblem, r: Subproblem)
    requires space.Joinable(l, r) && l in e && r in e && Attained(space, cm, e, l) && Attained(space, cm, e, r)
    ensures forall i: nat :: l + r != {i}
  {
    var x, y :| x in l && y in r;
    forall i: nat ensures l + r != {i} {
      assert x in l + r && y in l + r && x != y;
    }
  }

  /** The main theorem about call sequences: if every call is made after the splits of its
      operands, then every subproblem whose splits were all considered has an optimal entry. */
  lemma CallsAreOptimal(space: SearchSpace, cm: CostModel, log: Calls, s: Subproblem)
    requires space.Valid() && cm.Monotone() && WellOrdered(space, log)
    requires Settled(space, log, s) && space.HasTree(s)
    ensures Optimal(space, cm, Replay(cm, space.NumSources(), log), s)
  {
    ReplayEstablishes(space, cm, log);
    SettledIsOptimal(space, cm, Replay(cm, space.NumSources(), log), log, s);
  }
}
