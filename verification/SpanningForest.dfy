/** Trees in a join graph: cycles, simple paths, and Prim's algorithm as the engine runs it to
    find the tree along which IK/KBZ linearizes. */
module SpanningForest {
  import opened SmallBitset
  import opened AdjacencyMatrix

  predicate Distinct(p: seq<nat>) {
    forall i, j :: 0 <= i < j < |p| ==> p[i] != p[j]
  }

  /** A walk through at least three different relations that closes. */
  ghost predicate IsCycle(m: Matrix, p: seq<nat>) {
    && |p| >= 3 && Distinct(p)
    && m.IsPath(p, m.All())
    && p[0] in m.rows[p[|p| - 1]]
  }

  ghost predicate Acyclic(m: Matrix) {
    && (forall p :: !IsCycle(m, p))
    && (forall i :: 0 <= i < |m.rows| ==> i !in m.rows[i])
  }

  ghost predicate IsSpanningTree(t: Matrix, m: Matrix) {
    && t.Valid() && |t.rows| == |m.rows|
    && (forall i :: 0 <= i < |m.rows| ==> t.rows[i] <= m.rows[i])
    && t.Connected(t.All())
    && Acyclic(t)
  }

  /** A walk can be shortened to one without repetitions. */
  lemma SimplePath(m: Matrix, p: seq<nat>, s: Subproblem) returns (q: seq<nat>)
    requires m.IsPath(p, s)
    ensures m.IsPath(q, s) && Distinct(q) && q[0] == p[0] && q[|q| - 1] == p[|p| - 1]
    decreases |p|
  {
    if Distinct(p) {
      q := p;
    } else {
      var i, j :| 0 <= i < j < |p| && p[i] == p[j];
      var r := p[..i] + p[j..];
      assert r[|r| - 1] == p[|p| - 1];
      assert forall k :: 0 <= k < |r| ==> r[k] == if k < i then p[k] else p[k + j - i];
      q := SimplePath(m, r, s);
    }
  }

  /** In an acyclic graph a relation outside a connected set has at most one neighbor in it. */
  lemma OneNeighbor(m: Matrix, s: Subproblem, u: nat, v: nat, x: nat)
    requires m.Valid() && Acyclic(m) && m.Connected(s)
    requires x < |m.rows| && x !in s && u in s && v in s && u in m.rows[x] && v in m.rows[x]
    ensures u == v
  {
    if u != v {
      TwoNeighborsCloseCycle(m, s, u, v, x);
    }
  }

  lemma TwoNeighborsCloseCycle(m: Matrix, s: Subproblem, u: nat, v: nat, x: nat)
    requires m.Valid() && m.Connected(s) && u != v
    requires x < |m.rows| && x !in s && u in s && v in s && u in m.rows[x] && v in m.rows[x]
    ensures exists c :: IsCycle(m, c)
  {
    assert m.Reaches(u, v, s);
    var p :| m.IsPath(p, s) && p[0] == u && p[|p| - 1] == v;
    var q := SimplePath(m, p, s);
    assert u in m.All() && v in m.All() && x in m.rows[v];
    CloseCycle(m, q, s, x);
  }

  lemma CloseCycle(m: Matrix, q: seq<nat>, s: Subproblem, x: nat)
    requires m.Valid() && m.IsPath(q, s) && Distinct(q) && |q| >= 2 && s <= m.All() && x !in s && x < |m.rows|
    requires x in m.rows[q[|q| - 1]] && q[0] in m.rows[x]
    ensures IsCycle(m, q + [x])
  {
    var c := q + [x];
    assert forall i :: 0 <= i < |q| ==> c[i] == q[i] && q[i] in s;
    assert m.IsPath(c, m.All());
  }

  /** The graph with the edge between `u` and `v` added. */
  function WithEdge(m: Matrix, u: nat, v: nat): (r: Matrix)
    requires u < |m.rows| && v < |m.rows| && u != v
    ensures |r.rows| == |m.rows|
    ensures forall i, j: nat :: 0 <= i < |m.rows| ==>
              (j in r.rows[i] <==> j in m.rows[i] || (i == u && j == v) || (i == v && j == u))
  {
    Matrix(m.rows[u := m.rows[u] + {v}][v := m.rows[v] + {u}])
  }

  /** Attaching an isolated relation closes no cycle. */
  lemma PendantKeepsAcyclic(m: Matrix, u: nat, v: nat)
    requires m.Valid() && Acyclic(m) && u < |m.rows| && v < |m.rows| && u != v && m.rows[v] == {}
    ensures Acyclic(WithEdge(m, u, v)) && WithEdge(m, u, v).Valid()
  {
    var r := WithEdge(m, u, v);
    forall p ensures !IsCycle(r, p) {
      if IsCycle(r, p) {
        CycleWithoutPendant(m, u, v, p);
      }
    }
  }

  /** A cycle would enter and leave the attached relation over the same neighbor. */
  lemma CycleWithoutPendant(m: Matrix, u: nat, v: nat, p: seq<nat>)
    requires m.Valid() && u < |m.rows| && v < |m.rows| && u != v && m.rows[v] == {}
    requires IsCycle(WithEdge(m, u, v), p)
    ensures IsCycle(m, p)
  {
    var r := WithEdge(m, u, v);
    forall k | 0 <= k < |p| ensures p[k] != v {
      var before, after := if k == 0 then |p| - 1 else k - 1, if k == |p| - 1 then 0 else k + 1;
      assert p[k] in r.rows[p[before]] && p[after] in r.rows[p[k]];
      assert p[before] != p[after];
    }
    forall i | 0 <= i < |p| - 1 ensures p[i + 1] in m.rows[p[i]] {
      assert p[i + 1] in r.rows[p[i]];
    }
  }

  lemma ReachesInSupergraph(m: Matrix, r: Matrix, x: nat, y: nat, s: Subproblem)
    requires |m.rows| == |r.rows| && forall i :: 0 <= i < |m.rows| ==> m.rows[i] <= r.rows[i]
    requires m.Reaches(x, y, s)
    ensures r.Reaches(x, y, s)
  {
    var p :| m.IsPath(p, s) && p[0] == x && p[|p| - 1] == y;
    assert r.IsPath(p, s);
  }

  /** If the ends of every edge of `m` are connected in `t`, so are the ends of every walk. */
  lemma ReachesEverywhere(m: Matrix, t: Matrix, p: seq<nat>)
    requires |t.rows| == |m.rows| && m.IsPath(p, m.All())
    requires forall u: nat, v :: u < |m.rows| && v in m.rows[u] ==> t.Reaches(u, v, t.All())
    ensures t.Reaches(p[0], p[|p| - 1], t.All())
    decreases |p|
  {
    if |p| == 1 {
      assert t.IsPath(p, t.All());
    } else {
      ReachesEverywhere(m, t, p[1..]);
      t.ReachesTrans(p[0], p[1], p[|p| - 1], t.All());
    }
  }

  datatype Edge = Edge(source: nat, sink: nat, weight: real)

  /** Removes a least element, as `std::priority_queue` with `std::greater` does. */
  method PopLeast(q: seq<Edge>) returns (least: Edge, rest: seq<Edge>)
    requires q != []
    ensures least in q && forall e | e in q :: least.weight <= e.weight
    ensures multiset(q) == multiset(rest) + multiset{least}
    ensures |rest| == |q| - 1
  {
    var k, i := 0, 1;
    while i < |q|
      invariant 0 <= k < i <= |q|
      invariant forall j | 0 <= j < i :: q[k].weight <= q[j].weight
    {
      if q[i].weight < q[k].weight {
        k := i;
      }
      i := i + 1;
    }
    least, rest := q[k], q[..k] + q[k + 1..];
    assert q == q[..k] + [q[k]] + q[k + 1..];
  }

  /** The state of Prim's algorithm: `remaining` vertices are isolated in `msf`, the visited ones
      of the current run are the connected set `tree`, and finished runs are closed. */
  ghost predicate PrimState(m: Matrix, msf: Matrix, remaining: Subproblem, tree: Subproblem) {
    && |msf.rows| == |m.rows| && msf.Valid() && Acyclic(msf)
    && (forall i :: 0 <= i < |m.rows| ==> msf.rows[i] <= m.rows[i])
    && remaining <= m.All() && tree <= m.All() && tree !! remaining
    && (forall i :: i in remaining ==> msf.rows[i] == {})
    && (tree != {} ==> msf.Connected(tree))
    && (forall u: nat, v :: u < |m.rows| && u !in remaining && u !in tree && v in m.rows[u]
                            ==> v !in remaining && v !in tree && msf.Reaches(u, v, msf.All()))
  }

  ghost predicate HasEdge(q: seq<Edge>, u: nat, v: nat) {
    exists e :: e in q && e.source == u && e.sink == v
  }

  ghost predicate Weighted(weight: (nat, nat) -> real, q: seq<Edge>) {
    forall e :: e in q ==> e.weight == weight(e.source, e.sink)
  }

  /** Every edge that leaves the explored part of the tree is queued. */
  ghost predicate Queued(m: Matrix, remaining: Subproblem, explored: Subproblem, q: seq<Edge>) {
    && (forall u, v :: u in explored && u < |m.rows| && v in m.rows[u] && v in remaining ==> HasEdge(q, u, v))
    && (forall e :: e in q ==> e.source in explored && e.source < |m.rows| && e.sink in m.rows[e.source])
  }

  /** A forest that links whatever `m` links; it weighs no more than any other such part of `m`, if
      weights are not negative and do not depend on the direction of an edge. */
  method MinimumSpanningForest(m: Matrix, weight: (nat, nat) -> real) returns (msf: Matrix)
    requires m.Valid() && forall i :: 0 <= i < |m.rows| ==> i !in m.rows[i]
    ensures |msf.rows| == |m.rows| && msf.Valid() && Acyclic(msf)
    ensures forall i :: 0 <= i < |m.rows| ==> msf.rows[i] <= m.rows[i]
    ensures forall x, y :: m.Reaches(x, y, m.All()) ==> msf.Reaches(x, y, msf.All())
    ensures m.Connected(m.All()) ==> IsSpanningTree(msf, m)
    ensures Symmetric(weight) && Nonnegative(weight) ==> forall h :: Spans(h, m) ==>
              TotalWeight(weight, msf) <= TotalWeight(weight, h)
  {
    msf := Matrix(seq(|m.rows|, _ => {}));
    NoEdgesAcyclic(msf);
    NoEdgesPromising(m, weight, msf);
    var remaining := m.All();
    while remaining != {}
      invariant PrimState(m, msf, remaining, {}) && Promising(m, weight, msf)
      decreases remaining
    {
      hide Promising;
      var next := Min(remaining);
      StartTree(m, msf, remaining, next);
      remaining := remaining - {next};
      msf, remaining := GrowTree(m, weight, msf, remaining, next);
    }
    forall x, y | m.Reaches(x, y, m.All()) ensures msf.Reaches(x, y, msf.All()) {
      var p :| m.IsPath(p, m.All()) && p[0] == x && p[|p| - 1] == y;
      ReachesEverywhere(m, msf, p);
    }
    if Symmetric(weight) && Nonnegative(weight) {
      PromisingIsLeast(m, weight, msf);
    }
  }

  lemma CycleHasEdge(m: Matrix, p: seq<nat>)
    requires IsCycle(m, p)
    ensures m.rows[p[0]] != {}
  {
    assert p[1] in m.rows[p[0]];
  }

  lemma NoEdgesAcyclic(m: Matrix)
    requires forall i :: 0 <= i < |m.rows| ==> m.rows[i] == {}
    ensures Acyclic(m) && m.Valid()
  {
    forall p ensures !IsCycle(m, p) {
      if IsCycle(m, p) {
        CycleHasEdge(m, p);
      }
    }
  }

  lemma StartTree(m: Matrix, msf: Matrix, remaining: Subproblem, v: nat)
    requires PrimState(m, msf, remaining, {}) && v in remaining
    ensures v < |m.rows| && PrimState(m, msf, remaining - {v}, {v})
  {
    assert v in m.All();
    msf.SingletonConnected(v);
  }

  /** One run of Prim's algorithm, from the vertex `start`. */
  method GrowTree(m: Matrix, weight: (nat, nat) -> real, forest: Matrix, unvisited: Subproblem, start: nat)
    returns (msf: Matrix, remaining: Subproblem)
    requires m.Valid() && PrimState(m, forest, unvisited, {start}) && start < |m.rows|
    requires forall i :: 0 <= i < |m.rows| ==> i !in m.rows[i]
    requires Promising(m, weight, forest)
    ensures PrimState(m, msf, remaining, {}) && remaining <= unvisited && Promising(m, weight, msf)
  {
    hide PrimState, Queued, Weighted, Acyclic, Matrix.Valid, Matrix.Connected, WithEdge, Promising, LeastCrossing;
    EmptyQueue(m, weight, unvisited);
    msf, remaining := forest, unvisited;
    var q: seq<Edge> := [];
    var next: nat := start;
    ghost var explored: Subproblem := {};
    assert explored + {next} == {start};
    while true
      invariant PrimState(m, msf, remaining, explored + {next}) && remaining <= unvisited && Promising(m, weight, msf)
      invariant next < |m.rows| && Queued(m, remaining, explored, q) && Weighted(weight, q)
      decreases remaining
    {
      q := Explore(m, weight, remaining, next, explored, q);
      explored := explored + {next};
      var e := Edge(next, next, 0.0);
      var found := false;
      while !found && q != []
        invariant Queued(m, if found then remaining - {e.sink} else remaining, explored, q) && Weighted(weight, q)
        invariant found ==>
                    e.source in explored && e.source < |m.rows| && e.sink in m.rows[e.source] && e.sink in remaining
        invariant found ==> LeastCrossing(m, weight, remaining, explored, e.source, e.sink)
        decreases |q|, !found
      {
        var rest;
        e, rest := PopLeast(q);
        found := e.sink in remaining;
        PoppedQueue(m, remaining, explored, q, rest, e);
        PoppedLeast(m, weight, remaining, explored, q, rest, e);
        q := rest;
      }
      if !found {
        FinishTree(m, msf, remaining, explored);
        return;
      }
      AttachVertex(m, msf, remaining, explored, e.source, e.sink);
      AttachLeast(m, weight, msf, remaining, explored, e.source, e.sink);
      remaining := remaining - {e.sink};
      msf := WithEdge(msf, e.source, e.sink);
      next := e.sink;
    }
  }

  lemma EmptyQueue(m: Matrix, weight: (nat, nat) -> real, remaining: Subproblem)
    ensures Queued(m, remaining, {}, []) && Weighted(weight, [])
  {}

  /** Queues the edges of `next` to unvisited vertices. */
  method Explore(m: Matrix, weight: (nat, nat) -> real, remaining: Subproblem, next: nat, ghost explored: Subproblem,
                 q: seq<Edge>)
    returns (r: seq<Edge>)
    requires next < |m.rows| && Queued(m, remaining, explored, q) && Weighted(weight, q)
    ensures Queued(m, remaining, explored + {next}, r) && Weighted(weight, r)
  {
    r := q;
    var rest := m.rows[next] * remaining;
    while rest != {}
      invariant rest <= m.rows[next] * remaining
      invariant q <= r && Weighted(weight, r)
      invariant forall e :: e in r ==> e in q || (e.source == next && e.sink in m.rows[next])
      invariant forall v :: v in m.rows[next] * remaining ==> v in rest || HasEdge(r, next, v)
      decreases rest
    {
      var v := Min(rest);
      var e := Edge(next, v, weight(next, v));
      assert e in r + [e] && forall f :: f in r ==> f in r + [e];
      forall w | HasEdge(r, next, w) ensures HasEdge(r + [e], next, w) {}
      r := r + [e];
      rest := rest - {v};
    }
    forall u, v | u in explored + {next} && u < |m.rows| && v in m.rows[u] && v in remaining
      ensures HasEdge(r, u, v)
    {
      if u != next {
        assert HasEdge(q, u, v);
        assert forall f :: f in q ==> f in r;
      } else {
        assert v in m.rows[next] * remaining;
      }
    }
  }

  lemma PoppedQueue(m: Matrix, remaining: Subproblem, explored: Subproblem, q: seq<Edge>, rest: seq<Edge>, e: Edge)
    requires Queued(m, remaining, explored, q) && multiset(q) == multiset(rest) + multiset{e}
    ensures Queued(m, if e.sink in remaining then remaining - {e.sink} else remaining, explored, rest)
    ensures e.source in explored && e.source < |m.rows| && e.sink in m.rows[e.source]
  {
    assert e in multiset(q);
    forall f ensures f in q <==> f in rest || f == e {
      assert f in q <==> f in multiset(q);
    }
    forall u, v | v != e.sink && HasEdge(q, u, v) ensures HasEdge(rest, u, v) {
      var f :| f in q && f.source == u && f.sink == v;
      assert f in rest;
    }
  }

  lemma FinishTree(m: Matrix, msf: Matrix, remaining: Subproblem, tree: Subproblem)
    requires m.Valid() && PrimState(m, msf, remaining, tree) && tree != {}
    requires Queued(m, remaining, tree, [])
    ensures PrimState(m, msf, remaining, {})
  {
    forall u: nat, v | u < |m.rows| && u !in remaining && v in m.rows[u]
      ensures v !in remaining && msf.Reaches(u, v, msf.All())
    {
      if u in tree {
        assert v < |m.rows| && u in m.rows[v];
        assert v in remaining ==> HasEdge([], u, v);
        assert v in tree && msf.Reaches(u, v, tree);
        msf.ReachesMonotone(u, v, tree, msf.All());
      }
    }
  }

  lemma AttachVertex(m: Matrix, msf: Matrix, remaining: Subproblem, tree: Subproblem, u: nat, v: nat)
    requires m.Valid() && PrimState(m, msf, remaining, tree)
    requires u in tree && u < |m.rows| && v in m.rows[u] && v in remaining
    ensures u != v && v < |m.rows| && PrimState(m, WithEdge(msf, u, v), remaining - {v}, tree + {v})
  {
    var r := WithEdge(msf, u, v);
    PendantKeepsAcyclic(msf, u, v);
    AttachConnected(msf, tree, u, v);
    forall a: nat, b | a < |m.rows| && a !in remaining - {v} && a !in tree + {v} && b in m.rows[a]
      ensures b !in remaining - {v} && b !in tree + {v} && r.Reaches(a, b, r.All())
    {
      ReachesInSupergraph(msf, r, a, b, msf.All());
    }
  }

  lemma AttachConnected(m: Matrix, tree: Subproblem, u: nat, v: nat)
    requires m.Valid() && m.Connected(tree) && u in tree && u < |m.rows| && v < |m.rows| && v !in tree
    requires WithEdge(m, u, v).Valid()
    ensures WithEdge(m, u, v).Connected(tree + {v})
  {
    var r := WithEdge(m, u, v);
    forall x, y | x in tree && y in tree ensures r.Reaches(x, y, tree) {
      ReachesInSupergraph(m, r, x, y, tree);
    }
    assert r.Connected(tree);
    r.SingletonConnected(v);
    assert u in r.rows[v];
    assert r.Adjacent(tree, {v});
    r.ConnectedUnion(tree, {v});
  }

  // -------------------------------------------------------------------------------- weights

  ghost predicate Symmetric(weight: (nat, nat) -> real) {
    forall u, v :: weight(u, v) == weight(v, u)
  }

  ghost predicate Nonnegative(weight: (nat, nat) -> real) {
    forall u, v :: weight(u, v) >= 0.0
  }

  ghost function RowWeight(weight: (nat, nat) -> real, row: Subproblem, i: nat, k: nat): real {
    if k == 0 then 0.0 else RowWeight(weight, row, i, k - 1) + if k - 1 in row then weight(i, k - 1) else 0.0
  }

  /** The weight of the edges among the first `k` vertices. */
  ghost function WeightBelow(weight: (nat, nat) -> real, m: Matrix, k: nat): real
    requires k <= |m.rows|
  {
    if k == 0 then 0.0 else WeightBelow(weight, m, k - 1) + RowWeight(weight, m.rows[k - 1], k - 1, k - 1)
  }

  ghost function TotalWeight(weight: (nat, nat) -> real, m: Matrix): real {
    WeightBelow(weight, m, |m.rows|)
  }

  lemma {:induction false} RowWeightAdd(weight: (nat, nat) -> real, row: Subproblem, more: Subproblem, x: nat, i: nat,
                                        k: nat)
    requires x !in row && more == row + {x}
    ensures RowWeight(weight, more, i, k) == RowWeight(weight, row, i, k) + if x < k then weight(i, x) else 0.0
  {
    if k > 0 {
      RowWeightAdd(weight, row, more, x, i, k - 1);
    }
  }

  lemma {:induction false} RowWeightSame(weight: (nat, nat) -> real, row: Subproblem, other: Subproblem, i: nat, k: nat)
    requires forall x: nat | x < k :: x in row <==> x in other
    ensures RowWeight(weight, row, i, k) == RowWeight(weight, other, i, k)
  {
    if k > 0 {
      RowWeightSame(weight, row, other, i, k - 1);
    }
  }

  /** A new edge between `u` and `v`, with `v < u`, adds its weight. */
  lemma {:induction false} WeightBelowAdd(weight: (nat, nat) -> real, m: Matrix, r: Matrix, u: nat, v: nat, k: nat)
    requires v < u < |m.rows| == |r.rows| && k <= |m.rows| && v !in m.rows[u] && r.rows[u] == m.rows[u] + {v}
    requires forall i :: 0 <= i < |m.rows| && i != u ==> forall x: nat :: x < i ==> (x in r.rows[i] <==> x in m.rows[i])
    ensures WeightBelow(weight, r, k) == WeightBelow(weight, m, k) + if u < k then weight(u, v) else 0.0
  {
    if k > 0 {
      WeightBelowAdd(weight, m, r, u, v, k - 1);
      if k - 1 == u {
        RowWeightAdd(weight, m.rows[u], r.rows[u], v, u, u);
      } else {
        RowWeightSame(weight, r.rows[k - 1], m.rows[k - 1], k - 1, k - 1);
      }
    }
  }

  lemma WeightOfEdge(weight: (nat, nat) -> real, m: Matrix, u: nat, v: nat)
    requires m.Valid() && Symmetric(weight) && u < |m.rows| && v < |m.rows| && u != v && v !in m.rows[u]
    ensures TotalWeight(weight, WithEdge(m, u, v)) == TotalWeight(weight, m) + weight(u, v)
  {
    var r := WithEdge(m, u, v);
    assert u !in m.rows[v];
    if v < u {
      assert r.rows[u] == m.rows[u] + {v};
      WeightBelowAdd(weight, m, r, u, v, |m.rows|);
    } else {
      assert r.rows[v] == m.rows[v] + {u};
      WeightBelowAdd(weight, m, r, v, u, |m.rows|);
    }
  }

  lemma {:induction false} RowWeightGrows(weight: (nat, nat) -> real, row: Subproblem, more: Subproblem, i: nat, k: nat)
    requires Nonnegative(weight) && row <= more
    ensures RowWeight(weight, row, i, k) <= RowWeight(weight, more, i, k)
  {
    if k > 0 {
      RowWeightGrows(weight, row, more, i, k - 1);
    }
  }

  lemma {:induction false} WeightGrows(weight: (nat, nat) -> real, m: Matrix, h: Matrix, k: nat)
    requires Nonnegative(weight) && PartOf(m, h) && k <= |m.rows|
    ensures WeightBelow(weight, m, k) <= WeightBelow(weight, h, k)
  {
    if k > 0 {
      WeightGrows(weight, m, h, k - 1);
      RowWeightGrows(weight, m.rows[k - 1], h.rows[k - 1], k - 1, k - 1);
    }
  }

  // ------------------------------------------------------------------------------- exchange

  ghost predicate PartOf(a: Matrix, b: Matrix) {
    |a.rows| == |b.rows| && forall i :: 0 <= i < |a.rows| ==> a.rows[i] <= b.rows[i]
  }

  /** A part of `m` that links whatever `m` links. */
  ghost predicate Spans(h: Matrix, m: Matrix) {
    && h.Valid() && PartOf(h, m)
    && forall a: nat, b :: a < |m.rows| && b in m.rows[a] ==> h.Reaches(a, b, h.All())
  }

  ghost predicate Improves(m: Matrix, weight: (nat, nat) -> real, forest: Matrix, h: Matrix, better: Matrix) {
    Spans(better, m) && PartOf(forest, better) && TotalWeight(weight, better) <= TotalWeight(weight, h)
  }

  /** Whatever spans `m` can be exchanged for something no heavier that contains the forest. */
  ghost predicate Promising(m: Matrix, weight: (nat, nat) -> real, forest: Matrix) {
    Symmetric(weight) ==> forall h :: Spans(h, m) ==> exists better :: Improves(m, weight, forest, h, better)
  }

  lemma NoEdgesPromising(m: Matrix, weight: (nat, nat) -> real, forest: Matrix)
    requires |forest.rows| == |m.rows| && forall i :: 0 <= i < |m.rows| ==> forest.rows[i] == {}
    ensures Promising(m, weight, forest)
  {
    forall h | Spans(h, m) ensures exists better :: Improves(m, weight, forest, h, better) {
      assert Improves(m, weight, forest, h, h);
    }
  }

  lemma PromisingIsLeast(m: Matrix, weight: (nat, nat) -> real, msf: Matrix)
    requires Promising(m, weight, msf) && Symmetric(weight) && Nonnegative(weight)
    ensures forall h :: Spans(h, m) ==> TotalWeight(weight, msf) <= TotalWeight(weight, h)
  {
    hide *;
    forall h | Spans(h, m) ensures TotalWeight(weight, msf) <= TotalWeight(weight, h) {
      var better := ImprovedBy(m, weight, msf, h);
      ForestIsLighter(m, weight, msf, h, better);
    }
  }

  lemma ImprovedBy(m: Matrix, weight: (nat, nat) -> real, forest: Matrix, h: Matrix) returns (better: Matrix)
    requires Promising(m, weight, forest) && Symmetric(weight) && Spans(h, m)
    ensures Improves(m, weight, forest, h, better)
  {
    hide Spans, Improves, Symmetric;
    better :| Improves(m, weight, forest, h, better);
  }

  lemma ForestIsLighter(m: Matrix, weight: (nat, nat) -> real, forest: Matrix, h: Matrix, better: Matrix)
    requires Improves(m, weight, forest, h, better) && Nonnegative(weight)
    ensures TotalWeight(weight, forest) <= TotalWeight(weight, h)
  {
    hide Spans, WeightBelow, Nonnegative;
    WeightGrows(weight, forest, better, |forest.rows|);
  }

  /** No edge from the explored vertices to the remaining ones is lighter. */
  ghost predicate LeastCrossing(m: Matrix, weight: (nat, nat) -> real, remaining: Subproblem, explored: Subproblem,
                                u: nat, v: nat) {
    forall x: nat, y :: x in explored && x < |m.rows| && y in m.rows[x] && y in remaining ==>
        weight(u, v) <= weight(x, y)
  }

  lemma PoppedLeast(m: Matrix, weight: (nat, nat) -> real, remaining: Subproblem, explored: Subproblem, q: seq<Edge>,
                    rest: seq<Edge>, e: Edge)
    requires Queued(m, remaining, explored, q) && Weighted(weight, q) && multiset(q) == multiset(rest) + multiset{e}
    requires e in q && forall f | f in q :: e.weight <= f.weight
    ensures Weighted(weight, rest) && LeastCrossing(m, weight, remaining, explored, e.source, e.sink)
  {
    forall f | f in rest ensures f in q {
      assert f in multiset(q);
    }
    forall x: nat, y | x in explored && x < |m.rows| && y in m.rows[x] && y in remaining
      ensures weight(e.source, e.sink) <= weight(x, y)
    {
      assert HasEdge(q, x, y);
    }
  }

  /** The graph with the edge between `u` and `v` removed. */
  function WithoutEdge(m: Matrix, u: nat, v: nat): (r: Matrix)
    requires u < |m.rows| && v < |m.rows| && u != v
    ensures |r.rows| == |m.rows|
    ensures forall i, j: nat :: 0 <= i < |m.rows| ==>
              (j in r.rows[i] <==> j in m.rows[i] && !(i == u && j == v) && !(i == v && j == u))
  {
    Matrix(m.rows[u := m.rows[u] - {v}][v := m.rows[v] - {u}])
  }

  lemma EdgeBack(m: Matrix, x: nat, y: nat)
    requires m.Valid() && x < |m.rows| && y < |m.rows| && x != y && y in m.rows[x]
    ensures WithoutEdge(m, x, y).Valid() && WithEdge(WithoutEdge(m, x, y), x, y) == m
  {
    var r := WithoutEdge(m, x, y);
    assert x in m.rows[y];
    assert forall i :: 0 <= i < |m.rows| ==> WithEdge(r, x, y).rows[i] == m.rows[i];
  }

  /** A simple path crosses from the explored vertices to the remaining ones. */
  lemma {:induction false} CrossingStep(m: Matrix, p: seq<nat>, explored: Subproblem) returns (i: nat)
    requires p != [] && p[0] in explored && p[|p| - 1] !in explored
    ensures i + 1 < |p| && p[i] in explored && p[i + 1] !in explored
  {
    i := 0;
    while p[i + 1] in explored
      invariant i + 1 < |p| && p[i] in explored
      decreases |p| - i
    {
      i := i + 1;
    }
  }

  /** Part of a path that does not meet `y` is a path without the edge between `x` and `y`. */
  lemma PathWithout(h: Matrix, x: nat, y: nat, p: seq<nat>)
    requires h.Valid() && x < |h.rows| && y < |h.rows| && x != y && h.IsPath(p, h.All())
    requires x !in p || y !in p
    ensures WithoutEdge(h, x, y).IsPath(p, h.All())
  {}

  ghost function Exchanged(h: Matrix, x: nat, y: nat, u: nat, v: nat): (r: Matrix)
    requires x < |h.rows| && y < |h.rows| && x != y && u < |h.rows| && v < |h.rows| && u != v
    ensures |r.rows| == |h.rows|
  {
    WithEdge(WithoutEdge(h, x, y), u, v)
  }

  lemma PathInTwo(h: Matrix, p: seq<nat>, i: nat)
    requires h.IsPath(p, h.All()) && Distinct(p) && i + 1 < |p|
    ensures p[i] < |h.rows| && p[i + 1] < |h.rows| && p[i] != p[i + 1] && p[i + 1] in h.rows[p[i]]
    ensures h.IsPath(p[..i + 1], h.All()) && p[i + 1] !in p[..i + 1]
    ensures h.IsPath(p[i + 1..], h.All()) && p[i] !in p[i + 1..]
  {}

  /** A simple path without one of its edges links its ends to the ends of the edge. */
  lemma PathAround(h: Matrix, p: seq<nat>, i: nat)
    requires h.Valid() && h.IsPath(p, h.All()) && Distinct(p) && i + 1 < |p|
    ensures p[i] < |h.rows| && p[i + 1] < |h.rows| && p[i] != p[i + 1] && p[i + 1] in h.rows[p[i]]
    ensures WithoutEdge(h, p[i], p[i + 1]).Reaches(p[0], p[i], h.All())
    ensures WithoutEdge(h, p[i], p[i + 1]).Reaches(p[i + 1], p[|p| - 1], h.All())
  {
    var x, y := p[i], p[i + 1];
    var front, back := p[..i + 1], p[i + 1..];
    PathInTwo(h, p, i);
    hide WithoutEdge, Distinct, Matrix.Valid;
    PathWithout(h, x, y, front);
    PathWithout(h, x, y, back);
    hide Matrix.IsPath;
    assert front[0] == p[0] && front[|front| - 1] == x && back[0] == y && back[|back| - 1] == p[|p| - 1];
  }

  lemma ExchangedIsValid(h: Matrix, x: nat, y: nat, u: nat, v: nat)
    requires h.Valid() && x < |h.rows| && y in h.rows[x] && y < |h.rows| && x != y && u < |h.rows| && v < |h.rows|
             && u != v
    ensures Exchanged(h, x, y, u, v).Valid() && v in Exchanged(h, x, y, u, v).rows[u]
    ensures forall i :: 0 <= i < |h.rows| ==> WithoutEdge(h, x, y).rows[i] <= Exchanged(h, x, y, u, v).rows[i]
  {
    EdgeBack(h, x, y);
  }

  /** The ends of the edge taken out are linked by the rest of the path and the edge put in. */
  lemma ExchangedReaches(h: Matrix, p: seq<nat>, i: nat, u: nat, v: nat)
    requires h.Valid() && h.IsPath(p, h.All()) && Distinct(p) && i + 1 < |p| && p[0] == u && p[|p| - 1] == v && u != v
    ensures p[i] < |h.rows| && p[i + 1] < |h.rows| && p[i] != p[i + 1] && u < |h.rows| && v < |h.rows|
    ensures Exchanged(h, p[i], p[i + 1], u, v).Valid()
    ensures Exchanged(h, p[i], p[i + 1], u, v).Reaches(p[i], p[i + 1], h.All())
  {
    var x, y := p[i], p[i + 1];
    PathAround(h, p, i);
    assert u in h.All() && v in h.All();
    ExchangedIsValid(h, x, y, u, v);
    hide Matrix.Valid, Matrix.IsPath, Matrix.Reaches, Distinct, Exchanged;
    var w, r, all := WithoutEdge(h, x, y), Exchanged(h, x, y, u, v), h.All();
    ReachesInSupergraph(w, r, u, x, all);
    ReachesInSupergraph(w, r, y, v, all);
    r.ReachesReverse(u, x, all);
    r.ReachesReverse(y, v, all);
    r.ReachesStep(x, u, v, all);
    r.ReachesTrans(x, v, y, all);
  }

  lemma ExchangedSpans(m: Matrix, h: Matrix, p: seq<nat>, i: nat, u: nat, v: nat)
    requires m.Valid() && Spans(h, m) && u < |m.rows| && v in m.rows[u] && u in m.rows[v]
    requires h.IsPath(p, h.All()) && Distinct(p) && i + 1 < |p| && p[0] == u && p[|p| - 1] == v && u != v
    ensures p[i] < |h.rows| && p[i + 1] < |h.rows| && p[i] != p[i + 1] && v < |h.rows|
    ensures Spans(Exchanged(h, p[i], p[i + 1], u, v), m)
  {
    var x, y := p[i], p[i + 1];
    ExchangedReaches(h, p, i, u, v);
    var r := Exchanged(h, x, y, u, v);
    forall a: nat, b | a < |h.rows| && b in h.rows[a] ensures r.Reaches(a, b, r.All()) {
      if a == x && b == y {
      } else if a == y && b == x {
        r.ReachesReverse(x, y, r.All());
      } else {
        assert b in r.rows[a];
        r.ReachesItself(a, r.All());
        r.ReachesStep(a, a, b, r.All());
      }
    }
    forall a: nat, b | a < |m.rows| && b in m.rows[a] ensures r.Reaches(a, b, r.All()) {
      var path :| h.IsPath(path, h.All()) && path[0] == a && path[|path| - 1] == b;
      ReachesEverywhere(h, r, path);
    }
    assert PartOf(r, m);
  }

  lemma ExchangedWeight(weight: (nat, nat) -> real, h: Matrix, x: nat, y: nat, u: nat, v: nat)
    requires h.Valid() && Symmetric(weight) && x < |h.rows| && y in h.rows[x] && y < |h.rows| && x != y
    requires u < |h.rows| && v < |h.rows| && u != v && v !in h.rows[u] && weight(u, v) <= weight(x, y)
    ensures TotalWeight(weight, Exchanged(h, x, y, u, v)) <= TotalWeight(weight, h)
  {
    var w := WithoutEdge(h, x, y);
    EdgeBack(h, x, y);
    WeightOfEdge(weight, w, x, y);
    WeightOfEdge(weight, w, u, v);
  }

  /** The forest with the least crossing edge is still promising. */
  lemma AttachLeast(m: Matrix, weight: (nat, nat) -> real, msf: Matrix, remaining: Subproblem, explored: Subproblem,
                    u: nat, v: nat)
    requires m.Valid() && PrimState(m, msf, remaining, explored) && Promising(m, weight, msf)
    requires u in explored && u < |m.rows| && v in m.rows[u] && v in remaining && u != v && v < |m.rows|
    requires LeastCrossing(m, weight, remaining, explored, u, v)
    ensures Promising(m, weight, WithEdge(msf, u, v))
  {
    assert |msf.rows| == |m.rows|;
    hide Spans, Improves, Symmetric, PrimState, Matrix.Valid, LeastCrossing, WithEdge;
    if Symmetric(weight) {
      forall h | Spans(h, m) ensures exists better :: Improves(m, weight, WithEdge(msf, u, v), h, better) {
        var other := ImprovedBy(m, weight, msf, h);
        ImprovesMeans(m, weight, msf, h, other);
        var better := ExchangeOne(m, weight, msf, remaining, explored, u, v, other);
        ImprovesFurther(m, weight, msf, WithEdge(msf, u, v), h, other, better);
      }
    }
  }

  lemma ImprovesMeans(m: Matrix, weight: (nat, nat) -> real, forest: Matrix, h: Matrix, better: Matrix)
    requires Improves(m, weight, forest, h, better)
    ensures Spans(better, m) && PartOf(forest, better)
  {}

  lemma ImprovesFurther(m: Matrix, weight: (nat, nat) -> real, forest: Matrix, more: Matrix, h: Matrix, other: Matrix,
                        better: Matrix)
    requires Improves(m, weight, forest, h, other) && Improves(m, weight, more, other, better)
    ensures Improves(m, weight, more, h, better)
  {
    hide Spans, PartOf, TotalWeight;
  }

  lemma ExchangeOne(m: Matrix, weight: (nat, nat) -> real, msf: Matrix, remaining: Subproblem, explored: Subproblem,
                    u: nat, v: nat, h: Matrix)
    returns (better: Matrix)
    requires m.Valid() && PrimState(m, msf, remaining, explored) && Symmetric(weight) && Spans(h, m) && PartOf(msf, h)
    requires u in explored && u < |m.rows| && v in m.rows[u] && v in remaining && u != v && v < |m.rows|
    requires LeastCrossing(m, weight, remaining, explored, u, v)
    ensures Improves(m, weight, WithEdge(msf, u, v), h, better)
  {
    if v in h.rows[u] {
      better := h;
      assert u in h.rows[v];
    } else {
      assert h.Reaches(u, v, h.All());
      var walk :| h.IsPath(walk, h.All()) && walk[0] == u && walk[|walk| - 1] == v;
      var p := SimplePath(h, walk, h.All());
      var i := CrossingStep(h, p, explored);
      var x, y := p[i], p[i + 1];
      assert y in h.rows[x] && x < |h.rows|;
      better := Exchanged(h, x, y, u, v);
      hide Matrix.IsPath, Matrix.Reaches, Matrix.Valid, TotalWeight, Exchanged, Symmetric;
      CrossesToRemaining(m, msf, remaining, explored, x, y);
      ExchangedSpans(m, h, p, i, u, v);
      ExchangedWeight(weight, h, x, y, u, v);
      ForestInExchanged(m, msf, remaining, explored, h, x, y, u, v);
    }
  }

  /** The edge taken out is none of the forest, because its end is isolated there. */
  lemma ForestInExchanged(m: Matrix, msf: Matrix, remaining: Subproblem, explored: Subproblem, h: Matrix, x: nat,
                          y: nat, u: nat, v: nat)
    requires PrimState(m, msf, remaining, explored) && PartOf(msf, h) && y in remaining
    requires x < |h.rows| && y < |h.rows| && x != y && u < |h.rows| && v < |h.rows| && u != v
    ensures PartOf(WithEdge(msf, u, v), Exchanged(h, x, y, u, v))
  {
    assert msf.rows[y] == {};
    forall i: nat, j: nat | i < |h.rows| && j in msf.rows[i] ensures j in WithoutEdge(h, x, y).rows[i] {
      assert i in msf.rows[j];
    }
  }

  lemma CrossesToRemaining(m: Matrix, msf: Matrix, remaining: Subproblem, explored: Subproblem, x: nat, y: nat)
    requires m.Valid() && PrimState(m, msf, remaining, explored) && x in explored && x < |m.rows| && y in m.rows[x]
             && y !in explored
    ensures y in remaining
  {
    assert x in m.rows[y];
  }
}
