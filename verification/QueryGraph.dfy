/** From the WHERE clause of a statement to the filters and joins of its query graph, and from
    there, through a plan table, to an operator tree. */
module QueryGraph {
  import opened SmallBitset
  import opened Cnf
  import opened Relations
  import opened Plans
  import opened PlanTables
  import opened TableTrees
  import opened JoinOrder
  import opened FilterSplitting

  // ------------------------------------------------------------------- the map of bound clauses

  /** Clauses are compared as sets of predicates. */
  predicate SameClause(c: Clause, d: Clause) {
    (forall p :: p in c ==> p in d) && forall p :: p in d ==> p in c
  }

  ghost predicate HasTrue(m: Atoms, c: Clause, r: Row) {
    exists p :: p in c && EvalPredicate(p, m.On(r)) == True
  }

  lemma {:induction false} TrueClause(m: Atoms, c: Clause, r: Row)
    ensures EvalClause(c, m.On(r)) == True <==> HasTrue(m, c, r)
  {
    if c != [] {
      TrueClause(m, c[1..], r);
      assert forall p :: p in c <==> p == c[0] || p in c[1..];
      hide EvalPredicate;
    }
  }

  lemma SameClauseSameTruth(m: Atoms, c: Clause, d: Clause, r: Row)
    requires SameClause(c, d)
    ensures EvalClause(c, m.On(r)) == True <==> EvalClause(d, m.On(r)) == True
  {
    TrueClause(m, c, r);
    TrueClause(m, d, r);
    hide EvalPredicate, EvalClause;
  }

  /** The clauses of `bound` stand for those of `f`: none is new, and each is there up to equality
      of clauses. */
  ghost predicate Represents(bound: seq<Clause>, f: CNF) {
    && (forall c :: c in bound ==> c in f)
    && forall c :: c in f ==> exists d :: d in bound && SameClause(c, d)
  }

  /** No clause is bound twice. */
  ghost predicate BoundOnce(bound: seq<Clause>) {
    forall i, j :: 0 <= i < j < |bound| ==> bound[i] != bound[j]
  }

  lemma InsertKeepsOnce(bound: seq<Clause>, k: nat, c: Clause)
    requires BoundOnce(bound) && k <= |bound| && c !in bound
    ensures BoundOnce(bound[..k] + [c] + bound[k..])
  {
    var longer := bound[..k] + [c] + bound[k..];
    forall i, j | 0 <= i < j < |longer| ensures longer[i] != longer[j] {
      assert i != k ==> longer[i] == bound[if i < k then i else i - 1];
      assert j != k ==> longer[j] == bound[if j < k then j else j - 1];
    }
  }

  lemma SameAsItself(c: Clause)
    ensures SameClause(c, c)
  {}

  lemma FoundKeeps(bound: seq<Clause>, c: Clause, before: CNF)
    requires Represents(bound, before) && exists d :: d in bound && SameClause(c, d)
    ensures Represents(bound, before + [c])
  {
    hide SameClause;
  }

  lemma EmplaceKeeps(bound: seq<Clause>, k: nat, c: Clause, before: CNF)
    requires Represents(bound, before) && BoundOnce(bound) && k <= |bound| && c !in bound && SameClause(c, c)
    ensures var more := bound[..k] + [c] + bound[k..];
            && Represents(more, before + [c]) && BoundOnce(more) && |more| == |bound| + 1 && c in more
            && forall d :: d in bound ==> d in more
  {
    InsertKeepsOnce(bound, k, c);
    hide BoundOnce, SameClause;
    var more := bound[..k] + [c] + bound[k..];
    assert bound == bound[..k] + bound[k..];
    assert forall d :: d in more <==> d in bound || d == c;
    forall e | e in before + [c] ensures exists d :: d in more && SameClause(e, d) {
      if e in before {
        var d :| d in bound && SameClause(e, d);
        assert d in more;
      } else {
        assert c in more;
      }
    }
  }

  lemma RepresentedTruth(m: Atoms, bound: seq<Clause>, f: CNF, r: Row)
    requires Represents(bound, f)
    ensures AllTrue(m, bound, r) <==> AllTrue(m, f, r)
  {
    hide SameClause, EvalClause;
    if AllTrue(m, bound, r) {
      forall c | c in f ensures EvalClause(c, m.On(r)) == True {
        var d :| d in bound && SameClause(c, d);
        SameClauseSameTruth(m, c, d, r);
      }
    }
  }

  // ----------------------------------------------------------------------- the query graph

  /** A clause stands in the filter of a source or in the condition of a join. */
  ghost predicate Assigned(filters: seq<CNF>, joins: seq<JoinCondition>, c: Clause) {
    (exists i :: 0 <= i < |filters| && c in filters[i]) || exists j :: j in joins && c in j.condition
  }

  /** The clauses that a graph over `n` sources can hold: without any source there is no place for
      a clause. */
  ghost predicate Holds(filters: seq<CNF>, joins: seq<JoinCondition>, clauses: CNF) {
    forall c :: Assigned(filters, joins, c) <==> c in clauses && filters != []
  }

  ghost predicate FiltersLocal(m: Atoms, filters: seq<CNF>) {
    forall i :: 0 <= i < |filters| ==> m.Within(filters[i], {i}) && (filters[i] != [] ==> Proper(filters[i]))
  }

  ghost predicate JoinsLocal(m: Atoms, joins: seq<JoinCondition>, n: nat) {
    forall k :: 0 <= k < |joins| ==>
      m.Within(joins[k].condition, joins[k].sources) && joins[k].sources <= Below(n) && |joins[k].sources| >= 2
  }

  /** The sources that the predicates of a clause mention. */
  ghost function Mentioned(m: Atoms, c: Clause): Subproblem {
    set p, s | p in c && s in m.sources(p.id) :: s
  }

  lemma {:induction false} ClauseSourcesAreMentioned(m: Atoms, c: Clause)
    ensures m.ClauseSources(c) == Mentioned(m, c)
  {
    if c != [] {
      ClauseSourcesAreMentioned(m, c[1..]);
      assert forall p :: p in c <==> p == c[0] || p in c[1..];
    }
  }

  /** The clauses that mention no source but `i`, in order: those without any source filter all of
      them. */
  ghost function Selections(m: Atoms, clauses: CNF, i: nat): CNF {
    if clauses == [] then []
    else
      var k := |clauses| - 1;
      Selections(m, clauses[..k], i) + if Mentioned(m, clauses[k]) <= {i} then [clauses[k]] else []
  }

  /** The clauses that mention several sources, in order, each as a join of just these sources. */
  ghost function Crossings(m: Atoms, clauses: CNF): seq<JoinCondition> {
    if clauses == [] then []
    else
      var k := |clauses| - 1;
      var s := Mentioned(m, clauses[k]);
      Crossings(m, clauses[..k]) + if |s| >= 2 then [JoinCondition([clauses[k]], s)] else []
  }

  /** Every clause is where the sources that it mentions say. */
  ghost predicate Dispatched(m: Atoms, filters: seq<CNF>, joins: seq<JoinCondition>, clauses: CNF) {
    && (forall i :: 0 <= i < |filters| ==> filters[i] == Selections(m, clauses, i))
    && joins == Crossings(m, clauses)
  }

  lemma SelectionsStep(m: Atoms, clauses: CNF, c: Clause, i: nat)
    ensures Selections(m, clauses + [c], i)
            == Selections(m, clauses, i) + if Mentioned(m, c) <= {i} then [c] else []
  {
    assert (clauses + [c])[..|clauses|] == clauses;
  }

  lemma CrossingsStep(m: Atoms, clauses: CNF, c: Clause)
    ensures Crossings(m, clauses + [c])
            == Crossings(m, clauses) + if |Mentioned(m, c)| >= 2 then [JoinCondition([c], Mentioned(m, c))] else []
  {
    assert (clauses + [c])[..|clauses|] == clauses;
  }

  lemma {:induction false} SelectionsMembers(m: Atoms, clauses: CNF, i: nat, c: Clause)
    ensures c in Selections(m, clauses, i) <==> c in clauses && Mentioned(m, c) <= {i}
  {
    if clauses != [] {
      SelectionsMembers(m, clauses[..|clauses| - 1], i, c);
      assert clauses == clauses[..|clauses| - 1] + [clauses[|clauses| - 1]];
      hide Mentioned;
    }
  }

  lemma {:induction false} CrossingsMembers(m: Atoms, clauses: CNF, j: JoinCondition)
    ensures j in Crossings(m, clauses)
            <==> exists c :: c in clauses && |Mentioned(m, c)| >= 2 && j == JoinCondition([c], Mentioned(m, c))
  {
    if clauses != [] {
      var init, c := clauses[..|clauses| - 1], clauses[|clauses| - 1];
      CrossingsMembers(m, init, j);
      CrossingsStep(m, init, c);
      assert clauses == init + [c] && forall d :: d in clauses <==> d in init || d == c;
      hide Mentioned, Crossings;
    }
  }

  class GraphBuilder {
    const m: Atoms
    var filters: seq<CNF>
    var joins: seq<JoinCondition>
    var boundClauses: seq<Clause>

    constructor (m: Atoms, n: nat)
      ensures this.m == m && |filters| == n && joins == [] && boundClauses == []
      ensures forall i :: 0 <= i < n ==> filters[i] == []
    {
      this.m := m;
      filters := seq(n, i => []);
      joins, boundClauses := [], [];
    }

    ghost predicate Valid()
      reads this
    {
      FiltersLocal(m, filters) && JoinsLocal(m, joins, |filters|)
    }

    /** Adds the clause unless an equal one is found.  The same clause is always found; one with the
        same predicates in another order may have another hash and then is kept apart.  The order of
        iteration is arbitrary. */
    method TryEmplace(c: Clause, ghost before: CNF)
      requires Represents(boundClauses, before) && BoundOnce(boundClauses)
      modifies `boundClauses
      ensures Represents(boundClauses, before + [c]) && BoundOnce(boundClauses)
      ensures c in old(boundClauses) ==> boundClauses == old(boundClauses)
      ensures (forall d :: d in old(boundClauses) ==> !SameClause(c, d)) ==> c in boundClauses
      ensures |boundClauses| <= |old(boundClauses)| + 1 && forall d :: d in old(boundClauses) ==> d in boundClauses
    {
      hide *;
      SameAsItself(c);
      if exists d :: d in boundClauses && SameClause(c, d) {
        var keep := *;
        if c in boundClauses || !keep {
          FoundKeeps(boundClauses, c, before);
          return;
        }
      }
      var k :| 0 <= k <= |boundClauses|;
      EmplaceKeeps(boundClauses, k, c, before);
      boundClauses := boundClauses[..k] + [c] + boundClauses[k..];
    }

    method UpdateFilter(i: nat, c: Clause)
      requires i < |filters| && Valid() && c != [] && m.ClauseSources(c) <= {i}
      modifies `filters
      ensures Valid() && filters == old(filters)[i := old(filters)[i] + [c]]
    {
      WithinAppend(m, filters[i], [c], {i});
      hide Atoms.ClauseSources;
      filters := filters[i := filters[i] + [c]];
    }

    /** A clause over no source filters every source, one over a single source filters this
        source, and any other is a join of its sources. */
    method Dispatch(c: Clause, ghost before: CNF)
      requires Valid() && c != [] && (forall id: nat :: m.sources(id) <= Below(|filters|))
      requires Dispatched(m, filters, joins, before)
      modifies `filters, `joins
      ensures Valid() && |filters| == old(|filters|)
      ensures Dispatched(m, filters, joins, before + [c])
    {
      var sources := m.ClauseSources(c);
      ClauseSourcesAreMentioned(m, c);
      MentionedWithin(m, c, |filters|);
      ghost var n, f, g := |filters|, filters, joins;
      hide FiltersLocal, JoinsLocal, Dispatched, Atoms.ClauseSources, Mentioned;
      if sources == {} {
        var i := 0;
        while i < |filters|
          invariant 0 <= i <= |filters| == n && Valid() && joins == g
          invariant forall k :: 0 <= k < n ==> filters[k] == if k < i then f[k] + [c] else f[k]
        {
          UpdateFilter(i, c);
          i := i + 1;
        }
      } else if |sources| == 1 {
        var i :| i in sources;
        assert sources == {i} by { OneElement(sources, i); }
        UpdateFilter(i, c);
      } else {
        MoreThanOne(sources);
        SeveralSources(m, joins, c, sources, n);
        joins := joins + [JoinCondition([c], sources)];
      }
      OneMoreDispatched(m, f, g, before, c, filters, joins);
    }

    /** Collects the clauses of the formula. */
    method ProcessSelections(cnf: CNF)
      requires boundClauses == []
      modifies `boundClauses
      ensures Represents(boundClauses, cnf) && BoundOnce(boundClauses)
    {
      NothingRepresented();
      hide Represents, BoundOnce, SameClause;
      var i := 0;
      while i < |cnf|
        invariant 0 <= i <= |cnf| && Represents(boundClauses, cnf[..i]) && BoundOnce(boundClauses)
      {
        TryEmplace(cnf[i], cnf[..i]);
        assert cnf[..i] + [cnf[i]] == cnf[..i + 1];
        i := i + 1;
      }
      assert cnf[..i] == cnf;
    }

    method DispatchAll()
      requires Valid() && (forall id: nat :: m.sources(id) <= Below(|filters|))
      requires Dispatched(m, filters, joins, [])
      requires forall c :: c in boundClauses ==> c != []
      modifies `filters, `joins
      ensures boundClauses == old(boundClauses)
      ensures Valid() && |filters| == old(|filters|)
      ensures Dispatched(m, filters, joins, boundClauses)
    {
      hide Dispatched, FiltersLocal, JoinsLocal, GraphBuilder.Valid;
      var i := 0;
      while i < |boundClauses|
        invariant 0 <= i <= |boundClauses| && Valid() && |filters| == old(|filters|)
        invariant boundClauses == old(boundClauses) && Dispatched(m, filters, joins, boundClauses[..i])
      {
        assert boundClauses[i] in boundClauses;
        Dispatch(boundClauses[i], boundClauses[..i]);
        assert boundClauses[..i] + [boundClauses[i]] == boundClauses[..i + 1];
        i := i + 1;
      }
      assert boundClauses[..i] == boundClauses;
    }

    /** The WHERE clause, split into the filters and joins of the graph.  The clauses of its normal
        form, up to equality of clauses, are where the sources that they mention say. */
    method ProcessWhere(where: Expr)
      requires joins == [] && boundClauses == [] && forall i :: 0 <= i < |filters| ==> filters[i] == []
      requires forall id: nat :: m.sources(id) <= Below(|filters|)
      modifies this
      ensures Valid() && |filters| == old(|filters|)
      ensures Represents(boundClauses, ToCnf(where, false)) && BoundOnce(boundClauses)
      ensures Dispatched(m, filters, joins, boundClauses)
      ensures forall r :: GraphKeeps(m, filters, joins, r) <==> filters == [] || Eval(where, m.On(r)) == True
    {
      var cnf := ConvertToCnf(where);
      EmptyGraph(m, filters, joins);
      hide Represents, Holds, Dispatched, GraphKeeps, FiltersLocal, JoinsLocal, BoundOnce;
      ProcessSelections(cnf);
      BoundProper(boundClauses, cnf);
      DispatchAll();
      DispatchedHolds(m, filters, joins, boundClauses);
      forall r ensures GraphKeeps(m, filters, joins, r) <==> filters == [] || Eval(where, m.On(r)) == True {
        HeldClausesDecide(m, filters, joins, boundClauses, r);
        RepresentedTruth(m, boundClauses, cnf, r);
        KeepsAllClauses(m, cnf, r);
      }
    }
  }

  /** A joined row passes all filters and all join conditions. */
  ghost predicate GraphKeeps(m: Atoms, filters: seq<CNF>, joins: seq<JoinCondition>, r: Row) {
    (forall i :: 0 <= i < |filters| ==> AllTrue(m, filters[i], r)) && forall j :: j in joins ==>
        AllTrue(m, j.condition, r)
  }

  lemma OneElement(s: Subproblem, x: nat)
    requires |s| == 1 && x in s
    ensures s == {x}
  {
    assert |s - {x}| == 0;
  }

  lemma NothingRepresented()
    ensures Represents([], []) && BoundOnce([])
  {}

  lemma EmptyGraph(m: Atoms, filters: seq<CNF>, joins: seq<JoinCondition>)
    requires joins == [] && forall i :: 0 <= i < |filters| ==> filters[i] == []
    ensures Dispatched(m, filters, joins, []) && FiltersLocal(m, filters) && JoinsLocal(m, joins, |filters|)
  {}

  lemma BoundProper(bound: seq<Clause>, f: CNF)
    requires Represents(bound, f) && Proper(f)
    ensures bound != [] && forall c :: c in bound ==> c != []
  {
    hide SameClause;
    assert f[0] in f;
    var d :| d in bound && SameClause(f[0], d);
  }

  lemma HeldClausesDecide(m: Atoms, filters: seq<CNF>, joins: seq<JoinCondition>, clauses: CNF, r: Row)
    requires Holds(filters, joins, clauses)
    ensures GraphKeeps(m, filters, joins, r) <==> filters == [] || AllTrue(m, clauses, r)
  {
    hide EvalClause;
    if GraphKeeps(m, filters, joins, r) && filters != [] {
      forall c | c in clauses ensures EvalClause(c, m.On(r)) == True {
        assert Assigned(filters, joins, c);
      }
    }
    if filters == [] || AllTrue(m, clauses, r) {
      forall i | 0 <= i < |filters| ensures AllTrue(m, filters[i], r) {
        forall c | c in filters[i] ensures EvalClause(c, m.On(r)) == True {
          assert Assigned(filters, joins, c);
        }
      }
      forall j | j in joins ensures AllTrue(m, j.condition, r) {
        forall c | c in j.condition ensures EvalClause(c, m.On(r)) == True {
          assert Assigned(filters, joins, c);
        }
      }
    }
  }

  lemma MentionedWithin(m: Atoms, c: Clause, n: nat)
    requires forall id: nat :: m.sources(id) <= Below(n)
    ensures Mentioned(m, c) <= Below(n)
  {}

  lemma MoreThanOne(s: Subproblem)
    requires s != {} && |s| != 1
    ensures |s| >= 2
  {
    var x :| x in s;
    assert |s| == |s - {x}| + 1;
  }

  lemma OneMoreDispatched(m: Atoms, f: seq<CNF>, g: seq<JoinCondition>, before: CNF, c: Clause, filters: seq<CNF>,
                          joins: seq<JoinCondition>)
    requires Dispatched(m, f, g, before) && |filters| == |f| && Mentioned(m, c) <= Below(|f|)
    requires forall k :: 0 <= k < |f| ==>
               filters[k] == f[k] + if Mentioned(m, c) == {} || Mentioned(m, c) == {k} then [c] else []
    requires joins == g + if |Mentioned(m, c)| >= 2 then [JoinCondition([c], Mentioned(m, c))] else []
    ensures Dispatched(m, filters, joins, before + [c])
  {
    hide Mentioned;
    forall k: nat | k < |f| ensures filters[k] == Selections(m, before + [c], k) {
      SelectionsStep(m, before, c, k);
      assert Mentioned(m, c) <= {k} <==> Mentioned(m, c) == {} || Mentioned(m, c) == {k};
    }
    CrossingsStep(m, before, c);
  }

  lemma SeveralSources(m: Atoms, joins: seq<JoinCondition>, c: Clause, s: Subproblem, n: nat)
    requires JoinsLocal(m, joins, n) && s == m.ClauseSources(c) && s <= Below(n) && |s| >= 2
    ensures JoinsLocal(m, joins + [JoinCondition([c], s)], n)
  {
    hide Atoms.ClauseSources;
  }

  /** Every clause has its place if there is any source. */
  lemma DispatchedHolds(m: Atoms, filters: seq<CNF>, joins: seq<JoinCondition>, clauses: CNF)
    requires Dispatched(m, filters, joins, clauses) && forall id: nat :: m.sources(id) <= Below(|filters|)
    ensures Holds(filters, joins, clauses)
  {
    hide Dispatched, Assigned, Mentioned;
    forall c ensures Assigned(filters, joins, c) <==> c in clauses && filters != [] {
      if Assigned(filters, joins, c) {
        AssignedIsClause(m, filters, joins, clauses, c);
      }
      if c in clauses && filters != [] {
        ClauseIsAssigned(m, filters, joins, clauses, c);
      }
    }
  }

  lemma AssignedIsClause(m: Atoms, filters: seq<CNF>, joins: seq<JoinCondition>, clauses: CNF, c: Clause)
    requires Dispatched(m, filters, joins, clauses) && forall id: nat :: m.sources(id) <= Below(|filters|)
    requires Assigned(filters, joins, c)
    ensures c in clauses && filters != []
  {
    hide Mentioned, Crossings, Selections;
    if i :| 0 <= i < |filters| && c in filters[i] {
      SelectionsMembers(m, clauses, i, c);
    } else {
      var j :| j in joins && c in j.condition;
      CrossingsMembers(m, clauses, j);
      MentionedWithin(m, c, |filters|);
      assert filters == [] ==> Mentioned(m, c) == {};
    }
  }

  lemma ClauseIsAssigned(m: Atoms, filters: seq<CNF>, joins: seq<JoinCondition>, clauses: CNF, c: Clause)
    requires Dispatched(m, filters, joins, clauses) && forall id: nat :: m.sources(id) <= Below(|filters|)
    requires c in clauses && filters != []
    ensures Assigned(filters, joins, c)
  {
    var s := Mentioned(m, c);
    MentionedWithin(m, c, |filters|);
    hide Mentioned, Crossings, Selections;
    if |s| >= 2 {
      var j := JoinCondition([c], s);
      CrossingsMembers(m, clauses, j);
      assert j in joins && c in j.condition;
    } else {
      var i := if s == {} then 0 else Min(s);
      SourceOf(s, i, |filters|);
      SelectionsMembers(m, clauses, i, c);
      assert c in filters[i];
    }
  }

  lemma SourceOf(s: Subproblem, i: nat, n: nat)
    requires |s| < 2 && s <= Below(n) && n > 0 && (if s == {} then i == 0 else i == Min(s))
    ensures s <= {i} && i < n
  {
    if s != {} {
      assert |s - {i}| == |s| - 1;
      assert i in Below(n);
    }
  }

  // ------------------------------------------------------------------------- from graph to plan

  /** The rows for which the WHERE clause is TRUE. */
  function Select(m: Atoms, where: Expr, rows: seq<Row>): seq<Row> {
    if rows == [] then []
    else (if Eval(where, m.On(rows[0])) == True then [rows[0]] else []) + Select(m, where, rows[1..])
  }

  lemma {:induction false} FilterIsSelect(m: Atoms, f: CNF, where: Expr, rows: seq<Row>)
    requires forall r :: m.Keeps(f, r) <==> Eval(where, m.On(r)) == True
    ensures Filter(m, f, rows) == Select(m, where, rows)
  {
    hide Atoms.Keeps, Eval;
    if rows != [] {
      FilterIsSelect(m, f, where, rows[1..]);
    }
  }

  /** Filtering the sources before the cross product is filtering their cross product. */
  lemma {:induction false} ProductOfFiltered(m: Atoms, base: Tables, rows: Tables, filters: seq<CNF>, k: nat)
    requires m.Local() && FiltersLocal(m, filters) && WellFormed(base) && k <= |filters|
    requires forall i: nat :: i < k ==> rows(i) == Filter(m, filters[i], base(i))
    ensures Product(rows, k) == Filter(m, Flatten(filters[..k]), Product(base, k))
    ensures m.Within(Flatten(filters[..k]), Below(k))
  {
    hide Atoms.Local, WellFormed, Cross, Over, Atoms.ClauseSources, Flatten, Filter, Product;
    ProductSteps(base, k);
    ProductSteps(rows, k);
    if k == 0 {
      EmptyFormula(m, Product(base, 0));
    } else {
      ProductOfFiltered(m, base, rows, filters, k - 1);
      ProductOver(base, k - 1);
      OverSource(base, k - 1);
      var f, g := Flatten(filters[..k - 1]), filters[k - 1];
      assert filters[..k] == filters[..k - 1] + [g];
      FlattenStep(filters[..k - 1], g);
      assert m.Within(g, {k - 1});
      hide FiltersLocal;
      FilteredStep(m, f, g, Product(base, k - 1), base(k - 1), k - 1);
    }
  }

  lemma ProductSteps(rows: Tables, k: nat)
    ensures Product(rows, k) == if k == 0 then [map[]] else Cross(Product(rows, k - 1), rows(k - 1))
  {}

  lemma EmptyFormula(m: Atoms, rows: seq<Row>)
    ensures Flatten([]) == [] && Filter(m, [], rows) == rows
  {
    FilterNothing(m, rows);
  }

  lemma FilteredStep(m: Atoms, f: CNF, g: CNF, xs: seq<Row>, ys: seq<Row>, k: nat)
    requires m.Local() && m.Within(f, Below(k)) && m.Within(g, {k}) && Over(xs, Below(k)) && Over(ys, {k})
    ensures Cross(Filter(m, f, xs), Filter(m, g, ys)) == Filter(m, f + g, Cross(xs, ys))
    ensures m.Within(f + g, Below(k + 1))
  {
    hide Atoms.Local, Atoms.Within, Over, Cross, Filter;
    FilterCross(m, f, g, xs, ys, Below(k), {k});
    WithinMore(m, f, Below(k), Below(k + 1));
    WithinMore(m, g, {k}, Below(k + 1));
    WithinAppend(m, f, g, Below(k + 1));
  }

  lemma {:induction false} FlattenMembers(filters: seq<CNF>, c: Clause)
    ensures c in Flatten(filters) <==> exists i :: 0 <= i < |filters| && c in filters[i]
  {
    if filters != [] {
      var k := |filters| - 1;
      FlattenMembers(filters[..k], c);
      assert forall i :: 0 <= i < k ==> filters[..k][i] == filters[i];
    }
  }

  /** The filters and join conditions together keep what the graph keeps. */
  lemma GraphAsFormula(m: Atoms, filters: seq<CNF>, joins: seq<JoinCondition>, r: Row)
    ensures m.Keeps(Flatten(filters) + AllConditions(joins), r) <==> GraphKeeps(m, filters, joins, r)
  {
    var all := Flatten(filters) + AllConditions(joins);
    KeepsAllClauses(m, all, r);
    forall c ensures c in all <==> Assigned(filters, joins, c) {
      FlattenMembers(filters, c);
      AllMembers(joins, c);
    }
    hide EvalClause, Flatten, AllConditions, Atoms.Keeps;
    if AllTrue(m, all, r) {
      forall i | 0 <= i < |filters| ensures AllTrue(m, filters[i], r) {
        assert forall c :: c in filters[i] ==> c in all;
      }
      forall j | j in joins ensures AllTrue(m, j.condition, r) {
        assert forall c :: c in j.condition ==> c in all;
      }
    }
    if GraphKeeps(m, filters, joins, r) {
      forall c | c in all ensures EvalClause(c, m.On(r)) == True {
        assert Assigned(filters, joins, c);
      }
    }
  }

  lemma {:induction false} AdmittedIsDisjoint(space: SearchSpace, t: JoinTree)
    requires space.Admits(t)
    ensures Disjoint(t)
  {
    if t.Join? {
      AdmittedIsDisjoint(space, t.left);
      AdmittedIsDisjoint(space, t.right);
    }
  }

  lemma JoinsCovered(m: Atoms, joins: seq<JoinCondition>, t: JoinTree, n: nat)
    requires JoinsLocal(m, joins, n) && t.Rels() == Below(n)
    ensures Nonempty(joins) && WithinSources(m, joins) && forall j :: j in joins ==> Covered(t, j)
  {
    hide Atoms.Within;
    if t.Leaf? && joins != [] {
      SubsetOfOne(joins[0].sources, t.rel);
    }
  }

  lemma SubsetOfOne(s: Subproblem, x: nat)
    requires s <= {x}
    ensures |s| <= 1
  {
    if x in s {
      assert s == {x};
    } else {
      assert s == {};
    }
  }

  /** What the plan computes is what the WHERE clause selects. */
  lemma PlanMeansWhere(m: Atoms, base: Tables, filters: seq<CNF>, joins: seq<JoinCondition>, where: Expr,
                       sources: seq<Plan>, t: JoinTree)
    requires m.Local() && WellFormed(base) && FiltersLocal(m, filters) && JoinsLocal(m, joins, |filters|)
    requires forall r :: GraphKeeps(m, filters, joins, r) <==> Eval(where, m.On(r)) == True
    requires |sources| == |filters| && forall i: nat :: i < |sources| ==>
               Rows(m, base, sources[i]) == Filter(m, filters[i], base(i))
    requires Disjoint(t) && t.Rels() == Below(|sources|)
    ensures multiset(Rows(m, base, PlanOf(sources, t, joins))) == multiset(Select(m, where, Product(base, |sources|)))
  {
    var n, rows := |sources|, SourceRows(m, base, sources);
    hide GraphKeeps, JoinsLocal, Atoms.Local, Disjoint, Covered, PlanOf;
    SourcesWellFormed(m, base, filters, sources);
    JoinsCovered(m, joins, t, n);
    PlanMeansJoin(m, base, sources, t, joins);
    ProductOfFiltered(m, base, rows, filters, n);
    assert filters[..n] == filters;
    hide FiltersLocal, WellFormed, Filter, Product, Flatten, AllConditions, Select, Rows;
    FilterTwice(m, Flatten(filters), AllConditions(joins), Product(base, n));
    forall r ensures m.Keeps(Flatten(filters) + AllConditions(joins), r) <==> Eval(where, m.On(r)) == True {
      GraphAsFormula(m, filters, joins, r);
    }
    FilterIsSelect(m, Flatten(filters) + AllConditions(joins), where, Product(base, n));
  }

  lemma SourcesWellFormed(m: Atoms, base: Tables, filters: seq<CNF>, sources: seq<Plan>)
    requires WellFormed(base) && |sources| == |filters|
    requires forall i: nat :: i < |sources| ==> Rows(m, base, sources[i]) == Filter(m, filters[i], base(i))
    ensures WellFormed(SourceRows(m, base, sources))
  {
    hide Filter, Rows;
    forall i: nat ensures Over(SourceRows(m, base, sources)(i), {i}) {
      if i < |sources| {
        FilterOver(m, filters[i], base(i), {i});
      }
    }
  }

  /** What the stages between a WHERE clause and its plan hand on: the distinct clauses, the filters of the
      sources, the joins, and how every filter was split into the plan of its source. */
  datatype Stages = Stages(bound: CNF, filters: seq<CNF>, joins: seq<JoinCondition>, splits: seq<seq<CNF>>,
                           sources: seq<Plan>)

  /** The plan of a source is its scan under the filters into which its formula was split. */
  ghost predicate IsSourcePlan(w: Weights, filter: CNF, i: nat, split: seq<CNF>, p: Plan) {
    && multiset(Flatten(split)) == multiset(filter) && Ascending(w, Flatten(split)) && Split(w, split)
    && p == Stacked(split, Scan(i))
  }

  lemma IsPlanned(w: Weights, filter: CNF, i: nat, split: seq<CNF>, p: Plan)
    requires multiset(Flatten(split)) == multiset(filter) && Ascending(w, Flatten(split)) && Split(w, split)
    requires p == Stacked(split, Scan(i))
    ensures IsSourcePlan(w, filter, i, split, p)
  {}

  ghost predicate SourcePlans(w: Weights, filters: seq<CNF>, splits: seq<seq<CNF>>, sources: seq<Plan>) {
    && |filters| == |splits| == |sources|
    && forall i: nat :: i < |filters| ==> IsSourcePlan(w, filters[i], i, splits[i], sources[i])
  }

  ghost predicate Staged(m: Atoms, where: Expr, w: Weights, n: nat, s: Stages) {
    && Represents(s.bound, ToCnf(where, false)) && BoundOnce(s.bound)
    && |s.filters| == n && Dispatched(m, s.filters, s.joins, s.bound)
    && SourcePlans(w, s.filters, s.splits, s.sources)
  }

  /** The plans of the data sources. */
  method OptimizeSources(builder: GraphBuilder, w: Weights, ghost base: Tables)
    returns (sources: seq<Plan>, ghost splits: seq<seq<CNF>>)
    requires FiltersLocal(builder.m, builder.filters)
    ensures SourcePlans(w, builder.filters, splits, sources)
    ensures forall i: nat :: i < |sources| ==>
              Rows(builder.m, base, sources[i]) == Filter(builder.m, builder.filters[i], base(i))
  {
    sources, splits := [], [];
    var i := 0;
    hide FiltersLocal, Rows, Filter, IsSourcePlan;
    while i < |builder.filters|
      invariant 0 <= i <= |builder.filters| && |sources| == |splits| == i
      invariant forall k: nat :: k < i ==> IsSourcePlan(w, builder.filters[k], k, splits[k], sources[k])
      invariant forall k: nat :: k < i ==>
                  Rows(builder.m, base, sources[k]) == Filter(builder.m, builder.filters[k], base(k))
    {
      FilterProper(builder.m, builder.filters, i);
      ScanRows(builder.m, base, i);
      var source, split := OptimizeSource(builder.filters[i], w, Scan(i), builder.m, base);
      IsPlanned(w, builder.filters[i], i, split, source);
      sources, splits := sources + [source], splits + [split];
      i := i + 1;
    }
  }

  /** End to end: conversion, dispatch, splitting of filters and placement of joins yield a plan
      for exactly the rows of the cross product for which the WHERE clause is TRUE, whatever
      plan table an enumeration has left: only the sides of every join have to be disjoint. */
  method PlanWhere(m: Atoms, where: Expr, w: Weights, pt: PlanTable, ghost base: Tables)
    returns (p: Plan, ghost t: JoinTree, ghost stages: Stages)
    requires m.Local() && WellFormed(base)
    requires pt.n >= 1 && forall id: nat :: m.sources(id) <= Below(pt.n)
    requires pt.Valid() && DisjointCalls(pt.log) && Below(pt.n) in pt.entries
    ensures multiset(Rows(m, base, p)) == multiset(Select(m, where, Product(base, pt.n)))
    ensures Spells(pt.entries, Below(pt.n), t) && Disjoint(t) && t.Rels() == Below(pt.n)
    ensures Staged(m, where, w, pt.n, stages) && p == PlanOf(stages.sources, t, stages.joins)
  {
    hide Rows, Select, Product, WellFormed, Atoms.Local, PlanOf, Spells, Disjoint, JoinTree.Rels, Staged;
    t := SpelledTree(pt, Below(pt.n));
    p, stages := PlanWhereAlong(m, where, w, pt.entries, pt.n, t, base);
  }

  lemma SpelledTree(pt: PlanTable, s: Subproblem) returns (t: JoinTree)
    requires pt.Valid() && DisjointCalls(pt.log) && s in pt.entries
    ensures Spells(pt.entries, s, t) && Disjoint(t) && t.Rels() == s
  {
    AnyTableSpellsTrees(pt.model, pt.n, pt.log, false);
    assert Spelled(pt.model, pt.n, pt.entries, s, false);
    hide Replay, SearchSpace.Admits, CostModel.Monotone, Spells, Disjoint;
    t :| SpelledBy(pt.model, pt.n, pt.entries, s, false, t);
    AdmittedIsDisjoint(AllJoins(pt.n), t);
    SpelledRels(pt.entries, s, t);
  }

  lemma SpelledRels(e: Entries, s: Subproblem, t: JoinTree)
    requires Spells(e, s, t)
    ensures t.Rels() == s
  {}

  method PlanWhereAlong(m: Atoms, where: Expr, w: Weights, entries: Entries, n: nat, ghost t: JoinTree,
                        ghost base: Tables)
    returns (p: Plan, ghost stages: Stages)
    requires m.Local() && WellFormed(base)
    requires n >= 1 && forall id: nat :: m.sources(id) <= Below(n)
    requires Spells(entries, Below(n), t) && Disjoint(t) && t.Rels() == Below(n)
    ensures multiset(Rows(m, base, p)) == multiset(Select(m, where, Product(base, n)))
    ensures Staged(m, where, w, n, stages) && |stages.sources| == n && p == PlanOf(stages.sources, t, stages.joins)
  {
    hide Spells, Disjoint, Rows, Select, Product, WellFormed, Atoms.Local, PlanOf, Without, JoinTree.Rels;
    var builder := new GraphBuilder(m, n);
    builder.ProcessWhere(where);
    hide FiltersLocal, JoinsLocal, GraphKeeps, Filter;
    var sources;
    ghost var splits;
    sources, splits := OptimizeSources(builder, w, base);
    stages := Stages(builder.boundClauses, builder.filters, builder.joins, splits, sources);
    JoinsCovered(m, builder.joins, t, n);
    PlanMeansWhere(m, base, builder.filters, builder.joins, where, sources, t);
    var construction := new Construction(sources, entries, builder.joins);
    p := construction.Build(Below(n), t);
  }

  lemma ScanRows(m: Atoms, base: Tables, i: nat)
    ensures Rows(m, base, Scan(i)) == base(i)
  {}

  lemma FilterProper(m: Atoms, filters: seq<CNF>, i: nat)
    requires FiltersLocal(m, filters) && i < |filters|
    ensures filters[i] != [] ==> Proper(filters[i])
  {}

  /** Without any source a WHERE clause is lost: the single empty row is kept although the clause
      is not TRUE. */
  lemma NoSourceLosesWhere() returns (m: Atoms, where: Expr)
    ensures m.Local() && (forall id: nat :: m.sources(id) == {})
    ensures GraphKeeps(m, [], [], map[]) && Eval(where, m.On(map[])) != True
  {
    m := Atoms((_: nat) => {}, (_: nat, _: Row) => False);
    where := Atom(0);
  }
}
