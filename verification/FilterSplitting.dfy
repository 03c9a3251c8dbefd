/** Splitting the filter of a data source into a stack of small filters, cheap clauses first. */
module FilterSplitting {
  import opened Cnf
  import opened Relations
  import opened Plans
  import opened Orders

  const MAX_WEIGHT: nat := 12

  /** What evaluating a clause costs. */
  type Weights = Clause -> nat

  function TotalWeight(w: Weights, f: CNF): nat {
    if f == [] then 0 else TotalWeight(w, f[..|f| - 1]) + w(f[|f| - 1])
  }

  function Flatten(filters: seq<CNF>): CNF {
    if filters == [] then [] else Flatten(filters[..|filters| - 1]) + filters[|filters| - 1]
  }

  ghost predicate Ascending(w: Weights, f: CNF) {
    forall i, j :: 0 <= i < j < |f| ==> w(f[i]) <= w(f[j])
  }

  /** A filter of bounded weight, or of a single clause. */
  ghost predicate Chunk(w: Weights, f: CNF) {
    f != [] && (|f| == 1 || TotalWeight(w, f) <= MAX_WEIGHT)
  }

  /** The clause does not fit into the filter any more. */
  ghost predicate Full(w: Weights, f: CNF, next: Clause) {
    TotalWeight(w, f) + w(next) > MAX_WEIGHT
  }

  ghost predicate Split(w: Weights, filters: seq<CNF>) {
    && (forall i :: 0 <= i < |filters| ==> Chunk(w, filters[i]))
    && forall i :: 0 < i < |filters| ==> Full(w, filters[i - 1], filters[i][0])
  }

  function Gather(f: CNF, order: seq<nat>): (g: CNF)
    requires forall i :: 0 <= i < |order| ==> order[i] < |f|
    ensures |g| == |order| && forall i :: 0 <= i < |order| ==> g[i] == f[order[i]]
  {
    if order == [] then [] else Gather(f, order[..|order| - 1]) + [f[order[|order| - 1]]]
  }

  /** A permutation of the indices by ascending weight; clauses of equal weight may come in any
      order. */
  method SortByWeight(weights: seq<nat>) returns (order: seq<nat>)
    ensures multiset(order) == multiset(Iota(|weights|))
    ensures Sorted(weights, order, |weights|)
  {
    order := [];
    var n := 0;
    while n < |weights|
      invariant 0 <= n <= |weights| && multiset(order) == multiset(Iota(n))
      invariant Sorted(weights, order, n)
    {
      IotaStep(n);
      hide Iota, Inserted;
      var k := 0;
      while k < |order| && weights[order[k]] <= weights[n]
        invariant 0 <= k <= |order|
        invariant forall i :: 0 <= i < k ==> weights[order[i]] <= weights[n]
      {
        k := k + 1;
      }
      InsertSorted(weights, order, k, n);
      InsertedBag(order, k, n);
      order := Inserted(order, k, n);
      n := n + 1;
    }
  }

  ghost predicate Sorted(weights: seq<nat>, order: seq<nat>, n: nat)
    requires n <= |weights|
  {
    && (forall i :: 0 <= i < |order| ==> order[i] < n)
    && forall i, j :: 0 <= i < j < |order| ==> weights[order[i]] <= weights[order[j]]
  }

  lemma InsertSorted(weights: seq<nat>, order: seq<nat>, k: nat, n: nat)
    requires n < |weights| && k <= |order| && Sorted(weights, order, n)
    requires forall i :: 0 <= i < k ==> weights[order[i]] <= weights[n]
    requires k < |order| ==> weights[n] <= weights[order[k]]
    ensures Sorted(weights, Inserted(order, k, n), n + 1)
  {
    var longer := Inserted(order, k, n);
    InsertedAt(order, k, n, 0);
    hide Inserted;
    forall i | 0 <= i < |longer| ensures longer[i] < n + 1 {
      InsertedAt(order, k, n, i);
    }
    forall i, j | 0 <= i < j < |longer| ensures weights[longer[i]] <= weights[longer[j]] {
      InsertedAt(order, k, n, i);
      InsertedAt(order, k, n, j);
    }
  }

  lemma {:induction false} GatherPermutes(f: CNF, a: seq<nat>, b: seq<nat>)
    requires multiset(a) == multiset(b)
    requires (forall i :: 0 <= i < |a| ==> a[i] < |f|) && forall i :: 0 <= i < |b| ==> b[i] < |f|
    ensures multiset(Gather(f, a)) == multiset(Gather(f, b))
    decreases |a|
  {
    if a == [] {
      assert |b| == |multiset(b)| == |multiset(a)| == 0;
    } else {
      var n := |a| - 1;
      assert a[n] in multiset(b);
      var k :| 0 <= k < |b| && b[k] == a[n];
      var rest := b[..k] + b[k + 1..];
      WithoutOne(a, n);
      WithoutOne(b, k);
      assert a[..n] + a[n + 1..] == a[..n];
      SameRest(multiset(a[..n]), multiset(rest), a[n]);
      hide Gather;
      GatherPermutes(f, a[..n], rest);
      GatherStep(f, a, n);
      GatherSplit(f, b, k);
      WithoutOne(Gather(f, b), k);
    }
  }

  lemma GatherStep(f: CNF, a: seq<nat>, n: nat)
    requires |a| == n + 1 && forall i :: 0 <= i < |a| ==> a[i] < |f|
    ensures multiset(Gather(f, a)) == multiset(Gather(f, a[..n])) + multiset{f[a[n]]}
  {}

  lemma GatherSplit(f: CNF, b: seq<nat>, k: nat)
    requires k < |b| && forall i :: 0 <= i < |b| ==> b[i] < |f|
    ensures Gather(f, b[..k] + b[k + 1..]) == Gather(f, b)[..k] + Gather(f, b)[k + 1..]
  {
    hide Gather;
    var g, c := Gather(f, b), b[..k] + b[k + 1..];
    assert forall i :: 0 <= i < |c| ==> c[i] == b[if i < k then i else i + 1];
    assert |Gather(f, c)| == |g[..k] + g[k + 1..]|;
    forall i | 0 <= i < |c| ensures Gather(f, c)[i] == (g[..k] + g[k + 1..])[i] {}
  }

  lemma GatherAll(f: CNF, order: seq<nat>)
    requires multiset(order) == multiset(Iota(|f|)) && forall i :: 0 <= i < |order| ==> order[i] < |f|
    ensures multiset(Gather(f, order)) == multiset(f)
    ensures |order| == |f|
  {
    assert |order| == |multiset(order)| == |multiset(Iota(|f|))| == |f|;
    GatherPermutes(f, order, Iota(|f|));
    assert Gather(f, Iota(|f|)) == f;
  }

  /** Whatever is closed so far is split well, and the open filter continues it. */
  ghost predicate Splitting(w: Weights, filters: seq<CNF>, current: CNF) {
    && Split(w, filters)
    && (current == [] ==> filters == [])
    && (current != [] ==> Split(w, filters + [current]))
  }

  lemma CloseFilter(w: Weights, filters: seq<CNF>, current: CNF, c: Clause)
    requires Splitting(w, filters, current) && current != [] && Full(w, current, c)
    ensures Splitting(w, filters + [current], [c])
    ensures Flatten(filters + [current]) + [c] == Flatten(filters) + current + [c]
  {
    FlattenStep(filters, current);
    hide Full, TotalWeight, Flatten;
    var longer := filters + [current];
    var all := longer + [[c]];
    assert forall i :: 0 <= i < |longer| ==> all[i] == longer[i];
  }

  lemma ExtendFilter(w: Weights, filters: seq<CNF>, current: CNF, c: Clause)
    requires Splitting(w, filters, current) && (current != [] ==> !Full(w, current, c))
    ensures Splitting(w, filters, current + [c])
    ensures Flatten(filters) + (current + [c]) == Flatten(filters) + current + [c]
  {
    hide Flatten;
    var wider := current + [c];
    assert wider[..|wider| - 1] == current;
    assert Chunk(w, wider);
    hide TotalWeight, Chunk;
    var all := filters + [wider];
    assert forall i :: 0 <= i < |filters| ==> all[i] == filters[i];
    if current != [] {
      assert wider[0] == current[0];
      assert forall i :: 0 <= i < |filters| ==> (filters + [current])[i] == filters[i];
      if filters != [] {
        assert Full(w, (filters + [current])[|filters| - 1], (filters + [current])[|filters|][0]);
      }
    }
  }

  /** The weights of the clauses and an order by ascending weight; `sorted` are the clauses in
      this order. */
  method OrderClauses(filter: CNF, w: Weights) returns (weights: seq<nat>, order: seq<nat>, ghost sorted: CNF)
    ensures |weights| == |order| == |sorted| == |filter|
    ensures forall i :: 0 <= i < |order| ==> order[i] < |filter| && sorted[i] == filter[order[i]]
    ensures forall i :: 0 <= i < |weights| ==> weights[i] == w(filter[i])
    ensures multiset(sorted) == multiset(filter) && Ascending(w, sorted)
  {
    weights := [];
    var i := 0;
    while i < |filter|
      invariant 0 <= i <= |filter| && |weights| == i
      invariant forall j :: 0 <= j < i ==> weights[j] == w(filter[j])
    {
      weights := weights + [w(filter[i])];
      i := i + 1;
    }
    order := SortByWeight(weights);
    GatherAll(filter, order);
    sorted := Gather(filter, order);
    SortedAscends(filter, w, weights, order);
  }

  /** The clauses of the filter, sorted by weight and cut greedily into filters. */
  method OptimizeFilter(filter: CNF, w: Weights) returns (filters: seq<CNF>)
    requires Proper(filter)
    ensures multiset(Flatten(filters)) == multiset(filter)
    ensures Ascending(w, Flatten(filters))
    ensures Split(w, filters) && filters != []
  {
    hide Flatten, Split, Ascending, Full, Splitting, TotalWeight;
    var weights, order, sorted := OrderClauses(filter, w);
    filters := [];
    var current: CNF, currentWeight := [], 0;
    StartSplitting(w);
    var i := 0;
    while i < |filter|
      invariant 0 <= i <= |filter|
      invariant Flatten(filters) + current == sorted[..i]
      invariant currentWeight == TotalWeight(w, current)
      invariant Splitting(w, filters, current) && (i > 0 ==> current != [])
    {
      var clause := filter[order[i]];
      var clauseWeight := weights[order[i]];
      assert sorted[..i + 1] == sorted[..i] + [clause];
      FullMeans(w, current, clause);
      WeightStep(w, current, clause);
      if current != [] && currentWeight + clauseWeight > MAX_WEIGHT {
        CloseFilter(w, filters, current, clause);
        filters := filters + [current];
        current, currentWeight := [clause], clauseWeight;
      } else {
        ExtendFilter(w, filters, current, clause);
        current, currentWeight := current + [clause], currentWeight + clauseWeight;
      }
      i := i + 1;
    }
    assert sorted[..i] == sorted;
    if current != [] {
      FinishSplitting(w, filters, current);
      filters := filters + [current];
    }
  }

  lemma StartSplitting(w: Weights)
    ensures Splitting(w, [], []) && Flatten([]) == [] && TotalWeight(w, []) == 0
  {}

  lemma FinishSplitting(w: Weights, filters: seq<CNF>, current: CNF)
    requires Splitting(w, filters, current) && current != []
    ensures Split(w, filters + [current]) && Flatten(filters + [current]) == Flatten(filters) + current
  {
    FlattenStep(filters, current);
  }

  lemma FullMeans(w: Weights, f: CNF, c: Clause)
    ensures Full(w, f, c) <==> TotalWeight(w, f) + w(c) > MAX_WEIGHT
  {}

  lemma SortedAscends(filter: CNF, w: Weights, weights: seq<nat>, order: seq<nat>)
    requires |weights| == |filter| && forall i :: 0 <= i < |filter| ==> weights[i] == w(filter[i])
    requires Sorted(weights, order, |weights|)
    ensures Ascending(w, Gather(filter, order))
  {}

  lemma FlattenStep(filters: seq<CNF>, last: CNF)
    ensures Flatten(filters + [last]) == Flatten(filters) + last
  {
    assert (filters + [last])[..|filters|] == filters;
  }

  lemma WeightStep(w: Weights, f: CNF, c: Clause)
    ensures TotalWeight(w, f + [c]) == TotalWeight(w, f) + w(c)
    ensures TotalWeight(w, [c]) == w(c)
  {
    assert (f + [c])[..|f|] == f;
    assert [c][..0] == [];
  }

  // ---------------------------------------------------------------------- the stack of filters

  /** The filters on top of a plan, the last one topmost.  A single clause of several predicates becomes
      a disjunctive filter. */
  function Stacked(filters: seq<CNF>, source: Plan): Plan {
    if filters == [] then source
    else
      var f, below := filters[|filters| - 1], Stacked(filters[..|filters| - 1], source);
      if |f| == 1 && |f[0]| > 1 then FilterByAny(f[0], below) else FilterBy(f, below)
  }

  /** The plan of a data source: its scan, or nested plan, under the filters. */
  method OptimizeSource(filter: CNF, w: Weights, source: Plan, ghost m: Atoms, ghost base: Tables)
    returns (p: Plan, ghost split: seq<CNF>)
    requires filter != [] ==> Proper(filter)
    ensures multiset(Flatten(split)) == multiset(filter) && Ascending(w, Flatten(split)) && Split(w, split)
    ensures p == Stacked(split, source)
    ensures Rows(m, base, p) == Filter(m, filter, Rows(m, base, source))
  {
    p, split := source, [];
    hide *;
    NothingStacked(m, base, source, w);
    if |filter| > 0 {
      var filters := OptimizeFilter(filter, w);
      split := filters;
      var i := 0;
      assert filters[..0] == [];
      while i < |filters|
        invariant 0 <= i <= |filters|
        invariant Rows(m, base, p) == Filter(m, Flatten(filters[..i]), Rows(m, base, source))
        invariant p == Stacked(filters[..i], source)
      {
        StackedStep(m, base, filters, i, source, p);
        var f := filters[i];
        if |f| == 1 && |f[0]| > 1 {
          p := FilterByAny(f[0], p);
        } else {
          p := FilterBy(f, p);
        }
        i := i + 1;
      }
      assert filters[..i] == filters;
      SameClauses(filter, Flatten(filters));
      SameClausesSameFilter(m, Flatten(filters), filter, Rows(m, base, source));
    }
  }

  lemma NothingStacked(m: Atoms, base: Tables, source: Plan, w: Weights)
    ensures Stacked([], source) == source && Flatten([]) == [] && Ascending(w, []) && Split(w, [])
    ensures Rows(m, base, source) == Filter(m, [], Rows(m, base, source))
  {
    FilterNothing(m, Rows(m, base, source));
  }

  /** One more filter, in either form. */
  lemma StackedStep(m: Atoms, base: Tables, filters: seq<CNF>, i: nat, source: Plan, p: Plan)
    requires i < |filters| && p == Stacked(filters[..i], source)
    requires Rows(m, base, p) == Filter(m, Flatten(filters[..i]), Rows(m, base, source))
    ensures var f := filters[i];
            var next := if |f| == 1 && |f[0]| > 1 then FilterByAny(f[0], p) else FilterBy(f, p);
            && next == Stacked(filters[..i + 1], source)
            && Rows(m, base, next) == Filter(m, Flatten(filters[..i + 1]), Rows(m, base, source))
  {
    hide *;
    var f := filters[i];
    assert filters[..i + 1] == filters[..i] + [f];
    StackOneMore(filters[..i], f, source);
    StackStep(m, filters[..i], f, Rows(m, base, source));
    if |f| == 1 && |f[0]| > 1 {
      RowsByAny(m, base, f[0], p);
      assert [f[0]] == f;
    } else {
      RowsByFilter(m, base, f, p);
    }
  }

  lemma StackOneMore(filters: seq<CNF>, f: CNF, source: Plan)
    ensures Stacked(filters + [f], source)
            == if |f| == 1 && |f[0]| > 1 then FilterByAny(f[0], Stacked(filters, source))
               else FilterBy(f, Stacked(filters, source))
  {
    assert (filters + [f])[..|filters|] == filters;
  }

  lemma RowsByFilter(m: Atoms, base: Tables, f: CNF, p: Plan)
    ensures Rows(m, base, FilterBy(f, p)) == Filter(m, f, Rows(m, base, p))
  {}

  lemma RowsByAny(m: Atoms, base: Tables, c: Clause, p: Plan)
    ensures Rows(m, base, FilterByAny(c, p)) == Filter(m, [c], Rows(m, base, p))
  {
    FilterAnyIsFilter(m, c, Rows(m, base, p));
    hide Filter, FilterAny;
  }

  lemma StackStep(m: Atoms, filters: seq<CNF>, f: CNF, rows: seq<Row>)
    ensures Filter(m, f, Filter(m, Flatten(filters), rows)) == Filter(m, Flatten(filters + [f]), rows)
  {
    FlattenStep(filters, f);
    FilterTwice(m, Flatten(filters), f, rows);
  }

  lemma SameClauses(f: CNF, g: CNF)
    requires multiset(f) == multiset(g)
    ensures forall c :: c in f <==> c in g
  {
    forall c ensures c in f <==> c in g {
      assert c in multiset(f) <==> c in multiset(g);
    }
  }
}
