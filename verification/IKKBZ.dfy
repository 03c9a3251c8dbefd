/** The enumerator `IKKBZ`: relations are linearized greedily along a spanning tree of the join
    graph, once from every root, and the cheapest linearization becomes a linear plan. */
module IKKBZ {
  import opened SmallBitset
  import opened AdjacencyMatrix
  import opened PlanTables
  import opened SpanningForest
  import opened TableTrees

  /** The relations that extend `order` by an edge of the tree. */
  ghost predicate OnFrontier(t: Matrix, order: seq<nat>, u: nat, x: nat) {
    u in order && x !in order && u < |t.rows| && x in t.rows[u]
  }

  /** `order` starts anywhere and then always takes a relation of least rank on the frontier. */
  ghost predicate Greedy(t: Matrix, rank: (nat, nat) -> real, order: seq<nat>) {
    forall k | 1 <= k < |order| :: LeastRank(t, rank, order[..k], order[k])
  }

  ghost predicate LeastRank(t: Matrix, rank: (nat, nat) -> real, order: seq<nat>, next: nat) {
    exists u :: OnFrontier(t, order, u, next)
      && forall v, x :: OnFrontier(t, order, v, x) ==> rank(u, next) <= rank(v, x)
  }

  /** Every prefix of `order` induces a connected subgraph. */
  ghost predicate PrefixConnected(m: Matrix, order: seq<nat>) {
    forall k | 1 <= k <= |order| :: m.Connected(Elements(order[..k]))
  }

  /** A permutation of all relations with connected prefixes. */
  ghost predicate Linearization(m: Matrix, order: seq<nat>) {
    order != [] && Distinct(order) && Elements(order) == m.All() && PrefixConnected(m, order)
  }

  /** The cheaper order of one join. */
  function JoinCost(cm: CostModel, l: Subproblem, r: Subproblem, c: real, d: real): real {
    var lr, rl := cm.join(l, r, c, d), cm.join(r, l, d, c);
    if rl < lr then rl else lr
  }

  /** The cost of joining the first `k` relations of `order` one after the other. */
  function LinearCost(cm: CostModel, order: seq<nat>, k: nat): real
    requires 1 <= k <= |order|
  {
    if k == 1 then cm.scan(order[0])
    else JoinCost(cm, Elements(order[..k - 1]), {order[k - 1]}, LinearCost(cm, order, k - 1), cm.scan(order[k - 1]))
  }

  lemma LinearCostPrefix(cm: CostModel, order: seq<nat>, longer: seq<nat>, k: nat)
    requires 1 <= k <= |order| && order <= longer
    ensures LinearCost(cm, order, k) == LinearCost(cm, longer, k)
  {
    if k > 1 {
      LinearCostPrefix(cm, order, longer, k - 1);
      assert order[..k - 1] == longer[..k - 1];
    }
  }

  /** The table while one root is linearized: plans for the prefixes of `order` and no others. */
  ghost predicate HoldsPrefixes(cm: CostModel, n: nat, e: Entries, order: seq<nat>, from: nat)
    requires 1 <= from
  {
    && (forall s :: s in Initial(cm, n) ==> s in e && e[s] == Initial(cm, n)[s])
    && (forall s :: s in e ==> s in Initial(cm, n) || exists k :: from < k <= |order| && s == Elements(order[..k]))
    && (forall k :: from < k <= |order| ==> Elements(order[..k]) in e
                                            && e[Elements(order[..k])].cost == LinearCost(cm, order, k))
  }

  /** The queue holds exactly the relations on the frontier, each once, with its rank. */
  ghost predicate QueueIsFrontier(t: Matrix, rank: (nat, nat) -> real, order: seq<nat>, q: seq<Edge>) {
    && (forall e :: e in q ==> OnFrontier(t, order, e.source, e.sink) && e.weight == rank(e.source, e.sink))
    && (forall u, x :: OnFrontier(t, order, u, x) ==> HasEdge(q, u, x))
    && (forall i, j :: 0 <= i < j < |q| ==> q[i].sink != q[j].sink)
  }

  lemma ElementsOfAppend(order: seq<nat>, x: nat)
    ensures Elements(order + [x]) == Elements(order) + {x}
  {}

  lemma ElementsSize(order: seq<nat>)
    requires Distinct(order)
    ensures |Elements(order)| == |order|
  {
    if order != [] {
      var k := |order| - 1;
      assert order == order[..k] + [order[k]];
      ElementsOfAppend(order[..k], order[k]);
      ElementsSize(order[..k]);
      assert order[k] !in order[..k];
    }
  }

  /** Taking `x` from the queue: it was not joined before, and its new neighbors are not queued
      yet, because the tree has no cycle. */
  lemma NewFrontier(t: Matrix, order: seq<nat>, x: nat)
    requires t.Valid() && Acyclic(t) && t.Connected(Elements(order + [x])) && x !in order
    ensures forall u, y :: OnFrontier(t, order + [x], u, y) <==>
              (u == x && x < |t.rows| && y in t.rows[x] && y !in order + [x]) || (y != x && OnFrontier(t, order, u, y))
    ensures forall u, y :: OnFrontier(t, order, u, y) && y != x && x < |t.rows| ==> y !in t.rows[x]
  {
    forall u: nat, y: nat | OnFrontier(t, order, u, y) && y != x && x < |t.rows| ensures y !in t.rows[x] {
      if y in t.rows[x] {
        assert y < |t.rows| && u in t.rows[y] && x in t.rows[y];
        OneNeighbor(t, Elements(order + [x]), u, x, y);
      }
    }
  }

  /** Adds the neighbors of the relation taken last to the queue. */
  method PushNeighbors(t: Matrix, rank: (nat, nat) -> real, x: nat, joined: Subproblem, q: seq<Edge>)
    returns (r: seq<Edge>)
    requires x < |t.rows|
    requires forall i :: 0 <= i < |q| ==> q[i].sink !in t.rows[x] - joined
    requires forall i, j :: 0 <= i < j < |q| ==> q[i].sink != q[j].sink
    ensures forall e :: e in r <==>
              e in q || (e.source == x && e.sink in t.rows[x] - joined && e.weight == rank(x, e.sink))
    ensures forall i, j :: 0 <= i < j < |r| ==> r[i].sink != r[j].sink
  {
    r := q;
    var rest := t.rows[x] - joined;
    while rest != {}
      invariant rest <= t.rows[x] - joined
      invariant forall i :: 0 <= i < |r| ==> r[i].sink !in rest
      invariant forall i, j :: 0 <= i < j < |r| ==> r[i].sink != r[j].sink
      invariant forall e :: e in r <==>
                  e in q || (e.source == x && e.sink in t.rows[x] - joined - rest && e.weight == rank(x, e.sink))
      decreases rest
    {
      var v := Min(rest);
      r := r + [Edge(x, v, rank(x, v))];
      rest := rest - {v};
    }
  }

  /** What holds between two pops of the queue. */
  ghost predicate Linearizing(m: Matrix, t: Matrix, rank: (nat, nat) -> real, cm: CostModel, e: Entries,
                              order: seq<nat>, q: seq<Edge>)
  {
    && order != [] && Distinct(order) && PrefixConnected(t, order) && Greedy(t, rank, order)
    && QueueIsFrontier(t, rank, order, q)
    && HoldsPrefixes(cm, |m.rows|, e, order, 1)
  }

  lemma StartLinearizing(m: Matrix, t: Matrix, rank: (nat, nat) -> real, cm: CostModel, root: nat, q: seq<Edge>)
    requires IsSpanningTree(t, m) && root < |m.rows|
    requires forall e :: e in q <==>
               e.source == root && e.sink in t.rows[root] - {root} && e.weight == rank(root, e.sink)
    requires forall i, j :: 0 <= i < j < |q| ==> q[i].sink != q[j].sink
    ensures Linearizing(m, t, rank, cm, Initial(cm, |m.rows|), [root], q)
  {
    var order := [root];
    t.SingletonConnected(root);
    assert order[..1] == order && Elements(order) == {root};
    forall u, x | OnFrontier(t, order, u, x) ensures HasEdge(q, u, x) {
      assert Edge(root, x, rank(root, x)) in q;
    }
  }

  /** The popped relation was not joined before, and joining it keeps the prefixes connected. */
  lemma PopIsNew(m: Matrix, t: Matrix, order: seq<nat>, u: nat, x: nat)
    requires IsSpanningTree(t, m) && PrefixConnected(t, order) && order != [] && Distinct(order)
    requires OnFrontier(t, order, u, x)
    ensures x !in order && x < |m.rows| && Distinct(order + [x])
    ensures t.Adjacent(Elements(order), {x}) && t.Connected(Elements(order)) && t.Connected(Elements(order + [x]))
    ensures PrefixConnected(t, order + [x])
  {
    var longer := order + [x];
    assert order[..|order|] == order;
    assert t.Connected(Elements(order));
    hide Matrix.Connected;
    assert x < |t.rows|;
    assert u in t.rows[x] && u in Elements(order) && x in {x};
    t.SingletonConnected(x);
    assert t.Adjacent(Elements(order), {x});
    t.ConnectedUnion(Elements(order), {x});
    ElementsOfAppend(order, x);
    forall k | 1 <= k <= |longer| ensures t.Connected(Elements(longer[..k])) {
      assert longer[..k] == if k <= |order| then order[..k] else longer;
    }
  }

  lemma PopIsGreedy(t: Matrix, rank: (nat, nat) -> real, order: seq<nat>, q: seq<Edge>, e: Edge)
    requires QueueIsFrontier(t, rank, order, q) && Greedy(t, rank, order)
    requires e in q && forall f | f in q :: e.weight <= f.weight
    ensures OnFrontier(t, order, e.source, e.sink) && Greedy(t, rank, order + [e.sink])
  {
    var x, longer := e.sink, order + [e.sink];
    assert OnFrontier(t, order, e.source, x);
    forall v, y | OnFrontier(t, order, v, y) ensures rank(e.source, x) <= rank(v, y) {
      assert HasEdge(q, v, y);
    }
    assert LeastRank(t, rank, order, x);
    forall k | 1 <= k < |longer| ensures LeastRank(t, rank, longer[..k], longer[k]) {
      assert longer[..k] == if k < |order| then order[..k] else order;
    }
  }

  lemma PopKeepsQueue(m: Matrix, t: Matrix, rank: (nat, nat) -> real, order: seq<nat>, q: seq<Edge>, e: Edge,
                      rest: seq<Edge>, r: seq<Edge>)
    requires IsSpanningTree(t, m) && QueueIsFrontier(t, rank, order, q)
    requires e in q && multiset(q) == multiset(rest) + multiset{e} && e.sink < |t.rows| && e.sink !in order
    requires t.Connected(Elements(order + [e.sink]))
    requires forall f :: f in r <==>
               f in rest || (f.source == e.sink && f.sink in t.rows[e.sink] - Elements(order + [e.sink])
                   && f.weight == rank(e.sink, f.sink))
    requires forall i, j :: 0 <= i < j < |r| ==> r[i].sink != r[j].sink
    ensures QueueIsFrontier(t, rank, order + [e.sink], r)
  {
    var x, longer := e.sink, order + [e.sink];
    NewFrontier(t, order, x);
    RestOfQueue(q, rest, e);
    forall f | f in r ensures OnFrontier(t, longer, f.source, f.sink) && f.weight == rank(f.source, f.sink) {
      if f in rest {
        assert f in q && f.sink != x;
      }
    }
    forall u, y | OnFrontier(t, longer, u, y) ensures HasEdge(r, u, y) {
      if u == x && y in t.rows[x] && y !in longer {
        assert Edge(x, y, rank(x, y)) in r;
      } else {
        assert HasEdge(q, u, y);
        var f :| f in q && f.source == u && f.sink == y;
        assert f in rest;
      }
    }
  }

  /** The rest of the queue lacks the popped element, whose sink no other element has. */
  lemma RestOfQueue(q: seq<Edge>, rest: seq<Edge>, e: Edge)
    requires multiset(q) == multiset(rest) + multiset{e}
    requires forall i, j :: 0 <= i < j < |q| ==> q[i].sink != q[j].sink
    ensures forall f :: f in rest <==> f in q && f != e
    ensures forall f :: f in rest ==> f.sink != e.sink
    ensures forall i, j :: 0 <= i < j < |rest| ==> rest[i].sink != rest[j].sink
  {
    SinksOccurOnce(q, e.sink);
    forall f ensures multiset(q)[f] <= 1 {
      SinksOccurOnce(q, f.sink);
    }
    assert e in multiset(q);
    forall f ensures f in rest <==> f in q && f != e {
      assert f in q <==> f in multiset(q);
      assert f in rest <==> f in multiset(rest);
      assert multiset(q)[f] <= 1;
    }
    forall i, j | 0 <= i < j < |rest| ensures rest[i].sink != rest[j].sink {
      DuplicateCounts(rest, i, j);
      assert multiset(q)[rest[i]] <= 1;
      SinksOccurOnce(q, rest[i].sink);
      assert rest[i] in q && rest[j] in q;
    }
  }

  lemma SinksOccurOnce(q: seq<Edge>, x: nat)
    requires forall i, j :: 0 <= i < j < |q| ==> q[i].sink != q[j].sink
    ensures forall f: Edge :: f.sink == x ==> multiset(q)[f] <= 1
    ensures forall f, g :: f in q && g in q && f.sink == g.sink ==> f == g
  {
    if q != [] {
      var k := |q| - 1;
      SinksOccurOnce(q[..k], x);
      assert q == q[..k] + [q[k]];
      assert forall f :: f in q[..k] ==> f.sink != q[k].sink;
    }
  }

  lemma DuplicateCounts(q: seq<Edge>, i: nat, j: nat)
    requires i < j < |q|
    ensures q[i] == q[j] ==> multiset(q)[q[i]] >= 2
  {
    assert q == q[..j] + [q[j]] + q[j + 1..];
    assert q[i] in q[..j];
  }

  /** The update for the popped relation adds the plan of the longer prefix. */
  lemma PopKeepsTable(cm: CostModel, n: nat, e: Entries, order: seq<nat>, x: nat)
    requires HoldsPrefixes(cm, n, e, order, 1) && order != [] && Distinct(order) && x !in order
    requires x < n && forall i | 0 <= i < |order| :: order[i] < n
    ensures Elements(order) in e && {x} in e
    ensures HoldsPrefixes(cm, n, Updated(cm, e, Elements(order), {x}), order + [x], 1)
  {
    hide HoldsPrefixes, LinearCost, Elements, Initial;
    var l := Elements(order);
    ElementsOfAppend(order, x);
    JoinedHasPlan(cm, n, e, order);
    SingleHasPlan(cm, n, e, order, x);
    LinearCostStep(cm, order, x);
    LongerIsNew(cm, n, e, order, x);
    AddPrefix(cm, n, e, order, x, Candidate(cm, e, l, {x}));
  }

  lemma SingleHasPlan(cm: CostModel, n: nat, e: Entries, order: seq<nat>, x: nat)
    requires HoldsPrefixes(cm, n, e, order, 1) && x < n
    ensures {x} in e && e[{x}].cost == cm.scan(x)
  {
    assert {x} in Initial(cm, n);
  }

  lemma LinearCostStep(cm: CostModel, order: seq<nat>, x: nat)
    requires order != []
    ensures LinearCost(cm, order + [x], |order| + 1)
            == JoinCost(cm, Elements(order), {x}, LinearCost(cm, order, |order|), cm.scan(x))
  {
    hide Elements, JoinCost;
    var longer := order + [x];
    assert longer[..|order|] == order;
    LinearCostPrefix(cm, order, longer, |order|);
  }

  lemma JoinedHasPlan(cm: CostModel, n: nat, e: Entries, order: seq<nat>)
    requires HoldsPrefixes(cm, n, e, order, 1) && order != [] && order[0] < n
    ensures Elements(order) in e && e[Elements(order)].cost == LinearCost(cm, order, |order|)
  {
    assert order[..|order|] == order;
    if |order| == 1 {
      assert Elements(order) == {order[0]};
      assert {order[0]} in Initial(cm, n);
    }
  }

  lemma LongerIsNew(cm: CostModel, n: nat, e: Entries, order: seq<nat>, x: nat)
    requires HoldsPrefixes(cm, n, e, order, 1) && order != [] && x !in order
    ensures Elements(order + [x]) !in e
  {
    var s := Elements(order + [x]);
    assert order[0] in s && x in s && order[0] != x;
    forall k | 1 < k <= |order| ensures Elements(order[..k]) != s {
      assert x !in Elements(order[..k]);
    }
    forall i: nat ensures s != {i} {}
  }

  lemma AddPrefix(cm: CostModel, n: nat, e: Entries, order: seq<nat>, x: nat, c: Entry)
    requires HoldsPrefixes(cm, n, e, order, 1) && order != [] && Elements(order + [x]) !in e
    requires c.cost == LinearCost(cm, order + [x], |order| + 1)
    ensures HoldsPrefixes(cm, n, e[Elements(order + [x]) := c], order + [x], 1)
  {
    hide LinearCost, Elements, Initial;
    var longer := order + [x];
    var e' := e[Elements(longer) := c];
    assert longer[..|longer|] == longer;
    forall k | 1 < k <= |longer|
      ensures Elements(longer[..k]) in e' && e'[Elements(longer[..k])].cost == LinearCost(cm, longer, k)
    {
      if k <= |order| {
        assert longer[..k] == order[..k];
        LinearCostPrefix(cm, order, longer, k);
      }
    }
    forall s | s in e'
      ensures s in Initial(cm, n) || exists k :: 1 < k <= |longer| && s == Elements(longer[..k])
    {
      if s in e && s !in Initial(cm, n) {
        var k :| 1 < k <= |order| && s == Elements(order[..k]);
        assert longer[..k] == order[..k];
      }
    }
  }

  lemma LinearizingFacts(m: Matrix, t: Matrix, rank: (nat, nat) -> real, cm: CostModel, e: Entries, order: seq<nat>,
                         q: seq<Edge>)
    requires IsSpanningTree(t, m) && Linearizing(m, t, rank, cm, e, order, q)
    ensures forall i | 0 <= i < |order| :: order[i] < |m.rows|
    ensures t.Connected(Elements(order)) && Elements(order) <= m.All()
    ensures |order| <= |m.rows|
  {
    assert order[..|order|] == order;
    assert t.Connected(Elements(order));
    forall i | 0 <= i < |order| ensures order[i] < |m.rows| {
      assert order[i] in Elements(order) && order[i] in t.All();
    }
    ElementsSize(order);
    BelowSize(|m.rows|);
    SubsetSize(Elements(order), Below(|m.rows|));
  }

  lemma SubsetSize(a: set<nat>, b: set<nat>)
    requires a <= b
    ensures |a| <= |b|
  {
    assert b == a + (b - a);
  }

  /** An empty queue means that everything was joined. */
  lemma EmptyQueueMeansDone(m: Matrix, t: Matrix, rank: (nat, nat) -> real, cm: CostModel, e: Entries, order: seq<nat>)
    requires IsSpanningTree(t, m) && Linearizing(m, t, rank, cm, e, order, [])
    ensures Linearization(t, order)
  {
    LinearizingFacts(m, t, rank, cm, e, order, []);
    var joined := Elements(order);
    assert order[0] in joined;
    forall y | y in t.All() ensures y in joined {
      assert t.Reaches(order[0], y, t.All());
      var p :| t.IsPath(p, t.All()) && p[0] == order[0] && p[|p| - 1] == y;
      forall u, x | u in joined && u < |t.rows| && x in t.All() && x in t.rows[u] ensures x in joined {
        assert x !in order ==> OnFrontier(t, order, u, x);
        assert x !in order ==> HasEdge([], u, x);
      }
      t.PathStays(p, t.All(), joined);
    }
  }

  /** Joins all relations along the tree, starting at `root`; the plans stay in the table. */
  method LinearizeFrom(pt: PlanTable, m: Matrix, t: Matrix, rank: (nat, nat) -> real, root: nat)
    returns (order: seq<nat>)
    requires IsSpanningTree(t, m) && pt.n == |m.rows| && root < pt.n && pt.Valid() && pt.log == []
    modifies pt
    ensures order != [] && Linearization(t, order) && order[0] == root && Greedy(t, rank, order)
    ensures HoldsPrefixes(pt.model, pt.n, pt.entries, order, 1)
  {
    order := [root];
    var q := PushNeighbors(t, rank, root, {root}, []);
    var joined := {root};
    StartLinearizing(m, t, rank, pt.model, root, q);
    hide IsSpanningTree, Linearizing, Replay, Greedy, QueueIsFrontier, PrefixConnected, HoldsPrefixes;
    while q != []
      invariant order != [] && order[0] == root && joined == Elements(order) && pt.Valid()
      invariant Linearizing(m, t, rank, pt.model, pt.entries, order, q)
      decreases pt.n - |order|
    {
      var e, rest := PopLeast(q);
      LinearizingStep(m, t, rank, pt.model, pt.entries, order, q, e, rest);
      assert joined * {e.sink} == {} && t.Adjacent(joined, {e.sink});
      ghost var before := pt.entries;
      pt.Update(joined, {e.sink});
      joined := joined + {e.sink};
      var next := PushNeighbors(t, rank, e.sink, joined, rest);
      LinearizingAfter(m, t, rank, pt.model, before, order, q, e, rest, next);
      order, q := order + [e.sink], next;
      LinearizingFacts(m, t, rank, pt.model, pt.entries, order, q);
    }
    EmptyQueueMeansDone(m, t, rank, pt.model, pt.entries, order);
    LinearizingHolds(m, t, rank, pt.model, pt.entries, order, q);
  }

  lemma LinearizingHolds(m: Matrix, t: Matrix, rank: (nat, nat) -> real, cm: CostModel, e: Entries, order: seq<nat>,
                         q: seq<Edge>)
    requires Linearizing(m, t, rank, cm, e, order, q)
    ensures Greedy(t, rank, order) && HoldsPrefixes(cm, |m.rows|, e, order, 1)
  {}

  lemma LinearizingStep(m: Matrix, t: Matrix, rank: (nat, nat) -> real, cm: CostModel, e: Entries, order: seq<nat>,
                        q: seq<Edge>, top: Edge, rest: seq<Edge>)
    requires IsSpanningTree(t, m) && Linearizing(m, t, rank, cm, e, order, q)
    requires top in q && multiset(q) == multiset(rest) + multiset{top}
    ensures top.sink !in order && top.sink < |t.rows| == |m.rows| && t.Adjacent(Elements(order), {top.sink})
    ensures Elements(order) in e && {top.sink} in e
    ensures Elements(order) + {top.sink} == Elements(order + [top.sink])
    ensures forall i :: 0 <= i < |rest| ==> rest[i].sink !in t.rows[top.sink] - Elements(order + [top.sink])
    ensures forall i, j :: 0 <= i < j < |rest| ==> rest[i].sink != rest[j].sink
  {
    var x := top.sink;
    LinearizingFacts(m, t, rank, cm, e, order, q);
    PopIsNew(m, t, order, top.source, x);
    ElementsOfAppend(order, x);
    JoinedHasPlan(cm, |m.rows|, e, order);
    assert {x} in Initial(cm, |m.rows|);
    RestOfQueue(q, rest, top);
    NewFrontier(t, order, x);
    forall i | 0 <= i < |rest| ensures rest[i].sink !in t.rows[x] - Elements(order + [x]) {
      assert rest[i] in q;
      assert OnFrontier(t, order, rest[i].source, rest[i].sink);
    }
  }

  lemma LinearizingAfter(m: Matrix, t: Matrix, rank: (nat, nat) -> real, cm: CostModel, e: Entries, order: seq<nat>,
                         q: seq<Edge>, top: Edge, rest: seq<Edge>, next: seq<Edge>)
    requires IsSpanningTree(t, m) && Linearizing(m, t, rank, cm, e, order, q)
    requires top in q && multiset(q) == multiset(rest) + multiset{top} && forall f | f in q :: top.weight <= f.weight
    requires top.sink < |t.rows| && Elements(order) in e && {top.sink} in e
    requires forall f :: f in next <==>
               f in rest || (f.source == top.sink && f.sink in t.rows[top.sink] - Elements(order + [top.sink])
                             && f.weight == rank(top.sink, f.sink))
    requires forall i, j :: 0 <= i < j < |next| ==> next[i].sink != next[j].sink
    ensures Linearizing(m, t, rank, cm, Updated(cm, e, Elements(order), {top.sink}), order + [top.sink], next)
  {
    LinearizingFacts(m, t, rank, cm, e, order, q);
    hide Updated, HoldsPrefixes;
    PopIsGreedy(t, rank, order, q, top);
    PopIsNew(m, t, order, top.source, top.sink);
    PopKeepsQueue(m, t, rank, order, q, top, rest, next);
    PopKeepsTable(cm, |m.rows|, e, order, top.sink);
  }

  /** Removes the plans of the prefixes again, shortest first. */
  method ClearPrefixes(pt: PlanTable, order: seq<nat>, root: nat)
    requires order != [] && order[0] == root && Distinct(order)
    requires HoldsPrefixes(pt.model, pt.n, pt.entries, order, 1)
    modifies pt
    ensures pt.entries == Initial(pt.model, pt.n) && pt.log == [] && pt.Valid()
  {
    hide HoldsPrefixes, Elements, Initial, Replay;
    var runner := {root};
    var i := 1;
    SingletonElements(order[..1]);
    while i != |order|
      invariant 1 <= i <= |order| && runner == Elements(order[..i])
      invariant HoldsPrefixes(pt.model, pt.n, pt.entries, order, i)
      decreases |order| - i
    {
      PrefixStep(order, i);
      assert order[i] !in runner;
      runner := runner + {order[i]};
      ClearKeepsOthers(pt.model, pt.n, pt.entries, order, i);
      pt.Clear(runner);
      i := i + 1;
    }
    NothingHeld(pt.model, pt.n, pt.entries, order);
    pt.Forget();
  }

  lemma SingletonElements(order: seq<nat>)
    requires |order| == 1
    ensures Elements(order) == {order[0]}
  {}

  lemma PrefixStep(order: seq<nat>, i: nat)
    requires i < |order| && Distinct(order)
    ensures order[i] !in Elements(order[..i]) && Elements(order[..i + 1]) == Elements(order[..i]) + {order[i]}
  {
    assert order[..i + 1] == order[..i] + [order[i]];
  }

  lemma NothingHeld(cm: CostModel, n: nat, e: Entries, order: seq<nat>)
    requires |order| >= 1 && HoldsPrefixes(cm, n, e, order, |order|)
    ensures e == Initial(cm, n)
  {}

  lemma ClearKeepsOthers(cm: CostModel, n: nat, e: Entries, order: seq<nat>, i: nat)
    requires 1 <= i < |order| && Distinct(order) && HoldsPrefixes(cm, n, e, order, i)
    ensures Elements(order[..i + 1]) in e && |Elements(order[..i + 1])| != 1
    ensures HoldsPrefixes(cm, n, e - {Elements(order[..i + 1])}, order, i + 1)
  {
    hide Elements, LinearCost, Initial, Distinct;
    var s := Elements(order[..i + 1]);
    OtherPrefixes(order, i);
    NotInitial(cm, n, s);
  }

  lemma OtherPrefixes(order: seq<nat>, i: nat)
    requires 1 <= i < |order| && Distinct(order)
    ensures |Elements(order[..i + 1])| == i + 1
    ensures forall k :: i + 1 < k <= |order| ==> Elements(order[..k]) != Elements(order[..i + 1])
  {
    hide Elements;
    ElementsSize(order[..i + 1]);
    forall k | i + 1 < k <= |order| ensures Elements(order[..k]) != Elements(order[..i + 1]) {
      ElementsSize(order[..k]);
    }
  }

  lemma NotInitial(cm: CostModel, n: nat, s: Subproblem)
    requires |s| > 1
    ensures s !in Initial(cm, n)
  {
    forall j: nat ensures s != {j} {
      assert |{j}| == 1;
    }
  }

  lemma TreeHasRelations(m: Matrix, t: Matrix)
    requires IsSpanningTree(t, m)
    ensures |m.rows| >= 1
  {
    var x :| x in t.All();
  }

  lemma LinearizationFacts(t: Matrix, order: seq<nat>)
    requires Linearization(t, order)
    ensures order != [] && Distinct(order) && order[0] < |t.rows|
  {
    assert order[0] in Elements(order);
  }

  /** Linearizes along the tree from every root and returns the cheapest linearization; `tried`
      are all of them. */
  method Linearize(pt: PlanTable, m: Matrix, t: Matrix, rank: (nat, nat) -> real)
    returns (best: seq<nat>, tried: seq<seq<nat>>)
    requires IsSpanningTree(t, m) && pt.n == |m.rows| && pt.Valid() && pt.log == []
    modifies pt
    ensures pt.entries == old(pt.entries) && pt.log == [] && pt.Valid()
    ensures |tried| == pt.n && forall r :: 0 <= r < |tried| ==>
              tried[r] != [] && Linearization(t, tried[r]) && tried[r][0] == r && Greedy(t, rank, tried[r])
    ensures best in tried && best != []
    ensures forall order :: order in tried ==>
              order != [] && LinearCost(pt.model, best, |best|) <= LinearCost(pt.model, order, |order|)
  {
    hide IsSpanningTree, Linearization, Greedy, Replay, HoldsPrefixes, LinearCost, Initial;
    TreeHasRelations(m, t);
    tried := [];
    best := [];
    var leastCost := 0.0;
    var root := 0;
    while root != pt.n
      invariant 0 <= root <= pt.n && |tried| == root && pt.entries == old(pt.entries) && pt.log == [] && pt.Valid()
      invariant forall r :: 0 <= r < |tried| ==>
                  tried[r] != [] && Linearization(t, tried[r]) && tried[r][0] == r && Greedy(t, rank, tried[r])
      invariant root > 0 ==> best in tried && best != [] && leastCost == LinearCost(pt.model, best, |best|)
      invariant forall order :: order in tried ==> order != [] && leastCost <= LinearCost(pt.model, order, |order|)
    {
      var order := LinearizeFrom(pt, m, t, rank, root);
      LinearizationFacts(t, order);
      JoinedHasPlan(pt.model, pt.n, pt.entries, order);
      var joined := Elements(order);
      var cost := pt.entries[joined].cost;
      ClearPrefixes(pt, order, root);
      if root == 0 || cost < leastCost {
        best, leastCost := order, cost;
      }
      tried := tried + [order];
      root := root + 1;
    }
  }

  lemma ReconstructStep(cm: CostModel, n: nat, e: Entries, order: seq<nat>, i: nat)
    requires 1 <= i < |order| && Distinct(order) && (forall j | 0 <= j < |order| :: order[j] < n)
    requires HoldsPrefixes(cm, n, e, order[..i], 1)
    ensures {order[i]} in e && Elements(order[..i]) in e
    ensures {order[i]} !! Elements(order[..i]) && {order[i]} + Elements(order[..i]) !in e
    ensures HoldsPrefixes(cm, n, Updated(cm, e, {order[i]}, Elements(order[..i])), order[..i + 1], 1)
    ensures {order[i]} + Elements(order[..i]) == Elements(order[..i + 1])
  {
    hide HoldsPrefixes, LinearCost, Elements, Initial, Distinct;
    var prefix, x := order[..i], order[i];
    var l := Elements(prefix);
    PrefixStep(order, i);
    assert prefix + [x] == order[..i + 1] && {x} + l == l + {x};
    DistinctPrefix(order, i);
    SingleHasPlan(cm, n, e, prefix, x);
    JoinedHasPlan(cm, n, e, prefix);
    LinearCostStep(cm, prefix, x);
    LongerIsNew(cm, n, e, prefix, x);
    AddPrefix(cm, n, e, prefix, x, Candidate(cm, e, {x}, l));
  }

  lemma DistinctPrefix(order: seq<nat>, i: nat)
    requires i < |order| && Distinct(order)
    ensures order[i] !in order[..i]
  {}

  /** Join ordering by IK/KBZ along a minimum spanning tree: the plan of the full set costs as much as
      the cheapest of the greedy linearizations, one from each root. */
  method Enumerate(pt: PlanTable, m: Matrix, selectivity: (nat, nat) -> real, rank: (nat, nat) -> real)
    returns (order: seq<nat>, tried: seq<seq<nat>>, ghost tree: Matrix)
    requires m.Valid() && m.Connected(m.All()) && (forall i :: 0 <= i < |m.rows| ==> i !in m.rows[i])
    requires pt.n == |m.rows| && pt.Valid() && pt.log == []
    modifies pt
    ensures IsSpanningTree(tree, m) && order in tried && Linearization(m, order) && |tried| == pt.n
    ensures Symmetric(selectivity) && Nonnegative(selectivity) ==>
              forall h :: Spans(h, m) ==> TotalWeight(selectivity, tree) <= TotalWeight(selectivity, h)
    ensures forall r :: 0 <= r < |tried| ==>
              Linearization(m, tried[r]) && tried[r][0] == r && Greedy(tree, rank, tried[r])
    ensures forall other :: other in tried ==>
              other != [] && LinearCost(pt.model, order, |order|) <= LinearCost(pt.model, other, |other|)
    ensures m.All() in pt.entries && pt.entries[m.All()].cost == LinearCost(pt.model, order, |order|)
    ensures pt.Valid() && DisjointCalls(pt.log)
    ensures forall s :: s in pt.entries ==> Spelled(pt.model, pt.n, pt.entries, s, true)
  {
    hide Replay, LinearCost, Initial, HoldsPrefixes, Greedy, IsSpanningTree, Linearization, Matrix.Valid,
        Matrix.Reaches;
    hide Spelled, DisjointCalls, EachIsNew;
    hide Symmetric, Nonnegative, Spans, TotalWeight;
    var mst := MinimumSpanningForest(m, selectivity);
    tree := mst;
    order, tried := Linearize(pt, m, mst, rank);
    forall r | 0 <= r < |tried| ensures Linearization(m, tried[r]) && tried[r] != [] {
      AlongTheGraph(m, mst, tried[r]);
    }
    Reconstruct(pt, m, order);
  }

  /** Joins the relations one after the other in the order of the linearization. */
  method Reconstruct(pt: PlanTable, m: Matrix, order: seq<nat>)
    requires Linearization(m, order) && pt.n == |m.rows| && pt.Valid() && pt.log == []
    modifies pt
    ensures pt.Valid() && m.All() in pt.entries && pt.entries[m.All()].cost == LinearCost(pt.model, order, |order|)
    ensures DisjointCalls(pt.log) && forall s :: s in pt.entries ==> Spelled(pt.model, pt.n, pt.entries, s, true)
  {
    NewTable(pt);
    hide *;
    NoCalls(pt.model, pt.n);
    LinearizationFacts(m, order);
    WithinGraph(m, order);
    var right := {order[0]};
    SingletonElements(order[..1]);
    StartPrefixes(pt.model, pt.n, pt.entries, order);
    var i := 1;
    while i < |order|
      invariant 1 <= i <= |order| && right == Elements(order[..i]) && pt.Valid()
      invariant HoldsPrefixes(pt.model, pt.n, pt.entries, order[..i], 1)
      invariant EachIsNew(pt.model, pt.n, pt.log) && DisjointCalls(pt.log)
    {
      right := JoinNext(pt, order, i, right);
      i := i + 1;
    }
    assert order[..|order|] == order;
    JoinedHasPlan(pt.model, pt.n, pt.entries, order);
    TableIsSpelled(pt);
  }

  /** Joins the next relation of the linearization. */
  method JoinNext(pt: PlanTable, order: seq<nat>, i: nat, right: Subproblem) returns (joined: Subproblem)
    requires 1 <= i < |order| && Distinct(order) && forall j | 0 <= j < |order| :: order[j] < pt.n
    requires right == Elements(order[..i]) && pt.Valid() && HoldsPrefixes(pt.model, pt.n, pt.entries, order[..i], 1)
    requires EachIsNew(pt.model, pt.n, pt.log) && DisjointCalls(pt.log)
    modifies pt
    ensures joined == Elements(order[..i + 1]) && pt.Valid()
    ensures HoldsPrefixes(pt.model, pt.n, pt.entries, order[..i + 1], 1)
    ensures EachIsNew(pt.model, pt.n, pt.log) && DisjointCalls(pt.log)
  {
    hide *;
    var left := {order[i]};
    ReconstructStep(pt.model, pt.n, pt.entries, order, i);
    ValidReplays(pt);
    OneMoreCall(pt.model, pt.n, pt.log, (left, right));
    pt.Update(left, right);
    joined := left + right;
  }

  lemma ValidReplays(pt: PlanTable)
    requires pt.Valid()
    ensures pt.entries == Replay(pt.model, pt.n, pt.log)
  {}

  lemma NoCalls(cm: CostModel, n: nat)
    ensures EachIsNew(cm, n, []) && DisjointCalls([])
  {}

  lemma NewTable(pt: PlanTable)
    requires pt.Valid() && pt.log == []
    ensures pt.entries == Initial(pt.model, pt.n)
  {}

  lemma StartPrefixes(cm: CostModel, n: nat, e: Entries, order: seq<nat>)
    requires e == Initial(cm, n) && order != []
    ensures HoldsPrefixes(cm, n, e, order[..1], 1)
  {}

  lemma WithinGraph(m: Matrix, order: seq<nat>)
    requires Linearization(m, order)
    ensures Elements(order) == m.All() && forall j | 0 <= j < |order| :: order[j] < |m.rows|
  {
    forall j | 0 <= j < |order| ensures order[j] < |m.rows| {
      assert order[j] in Elements(order) && order[j] in m.All();
    }
  }

  /** A linearization along the tree is one along the join graph. */
  lemma AlongTheGraph(m: Matrix, t: Matrix, order: seq<nat>)
    requires IsSpanningTree(t, m) && Linearization(t, order)
    ensures order != [] && Linearization(m, order)
  {
    forall k | 1 <= k <= |order| ensures m.Connected(Elements(order[..k])) {
      var s := Elements(order[..k]);
      assert t.Connected(s);
      forall x, y | x in s && y in s ensures m.Reaches(x, y, s) {
        ReachesInSupergraph(t, m, x, y, s);
      }
    }
  }
}
