/** From a filled plan table to the operator tree of all joins. */
module JoinOrder {
  import opened SmallBitset
  import opened Cnf
  import opened Relations
  import opened Plans
  import opened PlanTables
  import opened TableTrees

  /** A join of the query graph: a condition and the data sources that it mentions. */
  datatype JoinCondition = JoinCondition(condition: CNF, sources: Subproblem)

  // ------------------------------------------------------------------- where conditions belong

  /** Single sources are no joins, so nothing is placed there. */
  predicate Covered(t: JoinTree, j: JoinCondition) {
    t.Join? && j.sources <= t.Rels()
  }

  /** The node is the lowest one that covers the sources of the join. */
  predicate PlacedAt(t: JoinTree, j: JoinCondition)
    requires t.Join?
  {
    Covered(t, j) && !Covered(t.left, j) && !Covered(t.right, j)
  }

  function ConditionAt(t: JoinTree, joins: seq<JoinCondition>): CNF
    requires t.Join?
  {
    if joins == [] then []
    else (if PlacedAt(t, joins[0]) then joins[0].condition else []) + ConditionAt(t, joins[1..])
  }

  /** The operator tree of a join tree: each join condition stands at its lowest covering node. */
  function PlanOf(sources: seq<Plan>, t: JoinTree, joins: seq<JoinCondition>): Plan
    requires t.Rels() <= Below(|sources|)
  {
    match t
    case Leaf(i) => sources[i]
    case Join(a, b) => JoinOn(ConditionAt(t, joins), PlanOf(sources, a, joins), PlanOf(sources, b, joins))
  }

  /** The number of nodes at which a join is placed. */
  function Placements(t: JoinTree, j: JoinCondition): nat {
    if t.Leaf? then 0
    else (if PlacedAt(t, j) then 1 else 0) + Placements(t.left, j) + Placements(t.right, j)
  }

  /** Every join is placed exactly once, provided the tree covers it. */
  lemma {:induction false} PlacedOnce(t: JoinTree, j: JoinCondition)
    requires Disjoint(t) && j.sources != {}
    ensures Placements(t, j) == if Covered(t, j) then 1 else 0
  {
    if t.Join? {
      PlacedOnce(t.left, j);
      PlacedOnce(t.right, j);
      var x :| x in j.sources;
    }
  }

  // ------------------------------------------------------------------------ the construction

  function Taken(joins: seq<JoinCondition>, s: Subproblem): CNF {
    if joins == [] then []
    else (if joins[0].sources <= s then joins[0].condition else []) + Taken(joins[1..], s)
  }

  function Kept(joins: seq<JoinCondition>, s: Subproblem): seq<JoinCondition> {
    if joins == [] then []
    else (if joins[0].sources <= s then [] else [joins[0]]) + Kept(joins[1..], s)
  }

  /** The joins left over after the construction for `t`. */
  function Without(joins: seq<JoinCondition>, t: JoinTree): seq<JoinCondition> {
    if t.Leaf? then joins else Kept(joins, t.Rels())
  }

  lemma {:induction false} KeptStep(joins: seq<JoinCondition>, s: Subproblem)
    requires joins != []
    ensures Kept(joins, s) == (if joins[0].sources <= s then [] else [joins[0]]) + Kept(joins[1..], s)
    ensures Taken(joins, s) == (if joins[0].sources <= s then joins[0].condition else []) + Taken(joins[1..], s)
  {}

  lemma {:induction false} WithoutStep(joins: seq<JoinCondition>, t: JoinTree)
    requires joins != []
    ensures Without(joins, t) == (if Covered(t, joins[0]) then [] else [joins[0]]) + Without(joins[1..], t)
    ensures Without([], t) == []
  {
    assert joins == [joins[0]] + joins[1..];
  }

  lemma KeptCons(j: JoinCondition, joins: seq<JoinCondition>, s: Subproblem)
    ensures Kept([j] + joins, s) == (if j.sources <= s then [] else [j]) + Kept(joins, s)
    ensures Taken([j] + joins, s) == (if j.sources <= s then j.condition else []) + Taken(joins, s)
  {
    assert ([j] + joins)[1..] == joins;
  }

  /** What the loop finds at a node, after the construction of both children, is what belongs
      there; and what it leaves is what a single pass for the node would have left. */
  lemma {:induction false} NodeTakesItsOwn(t: JoinTree, joins: seq<JoinCondition>)
    requires t.Join?
    ensures Taken(Without(Without(joins, t.left), t.right), t.Rels()) == ConditionAt(t, joins)
    ensures Kept(Without(Without(joins, t.left), t.right), t.Rels()) == Without(joins, t)
  {
    if joins == [] {
    } else {
      var j, rest := joins[0], joins[1..];
      NodeTakesItsOwn(t, rest);
      WithoutStep(joins, t.left);
      WithoutStep(joins, t);
      hide Kept, Taken, Without, JoinTree.Rels;
      var few := Without(rest, t.left);
      NodeRels(t);
      if Covered(t.left, j) {
        assert Without(joins, t.left) == few;
      } else {
        assert Without(joins, t.left) == [j] + few;
        WithoutStep([j] + few, t.right);
        assert ([j] + few)[1..] == few;
        if Covered(t.right, j) {
          assert Without([j] + few, t.right) == Without(few, t.right);
        } else {
          assert Without([j] + few, t.right) == [j] + Without(few, t.right);
          KeptCons(j, Without(few, t.right), t.Rels());
        }
      }
    }
  }

  lemma NodeRels(t: JoinTree)
    requires t.Join?
    ensures t.Rels() == t.left.Rels() + t.right.Rels()
  {}

  ghost predicate Nonempty(joins: seq<JoinCondition>) {
    forall i :: 0 <= i < |joins| ==> joins[i].sources != {}
  }

  /** The joins consumed for one side do not belong anywhere on the other side. */
  lemma {:induction false} OtherSideUnaffected(t: JoinTree, joins: seq<JoinCondition>, other: JoinTree)
    requires t.Join? && Nonempty(joins) && t.Rels() !! other.Rels()
    ensures ConditionAt(t, Without(joins, other)) == ConditionAt(t, joins)
  {
    if joins == [] {
    } else {
      var j, rest := joins[0], joins[1..];
      OtherSideUnaffected(t, rest, other);
      WithoutStep(joins, other);
      hide Without, JoinTree.Rels;
      if Covered(other, j) {
        var x :| x in j.sources;
        assert !PlacedAt(t, j) by {
          assert x in other.Rels() && x !in t.Rels();
        }
        assert [] + Without(rest, other) == Without(rest, other);
      } else {
        assert ([j] + Without(rest, other))[1..] == Without(rest, other);
      }
    }
  }

  lemma {:induction false} OtherPlanUnaffected(sources: seq<Plan>, t: JoinTree, joins: seq<JoinCondition>,
                                               other: JoinTree)
    requires t.Rels() <= Below(|sources|) && Nonempty(joins) && t.Rels() !! other.Rels()
    ensures PlanOf(sources, t, Without(joins, other)) == PlanOf(sources, t, joins)
  {
    hide ConditionAt, Without, Nonempty;
    if t.Join? {
      OtherSideUnaffected(t, joins, other);
      OtherPlanUnaffected(sources, t.left, joins, other);
      OtherPlanUnaffected(sources, t.right, joins, other);
    }
  }

  lemma {:induction false} WithoutStaysNonempty(joins: seq<JoinCondition>, t: JoinTree)
    requires Nonempty(joins)
    ensures Nonempty(Without(joins, t))
  {
    if joins != [] {
      WithoutStaysNonempty(joins[1..], t);
      WithoutStep(joins, t);
    }
  }

  /** The construction and the list of joins that it has not consumed yet. */
  class Construction {
    const sources: seq<Plan>
    const entries: Entries
    var joins: seq<JoinCondition>

    constructor (sources: seq<Plan>, entries: Entries, joins: seq<JoinCondition>)
      ensures this.sources == sources && this.entries == entries && this.joins == joins
    {
      this.sources, this.entries, this.joins := sources, entries, joins;
    }

    method Build(s: Subproblem, ghost t: JoinTree) returns (p: Plan)
      requires Spells(entries, s, t) && Disjoint(t) && s <= Below(|sources|) && Nonempty(joins)
      modifies this
      ensures p == PlanOf(sources, t, old(joins))
      ensures joins == Without(old(joins), t)
      decreases t
    {
      var entry := entries[s];
      hide ConditionAt, Without, Nonempty;
      if entry.left == {} && entry.right == {} {
        p := sources[Min(s)];
        LeafIsMin(s, t);
      } else {
        NodeRels(t);
        WithoutStaysNonempty(joins, t.left);
        OtherPlanUnaffected(sources, t.right, joins, t.left);
        NodeTakesItsOwn(t, joins);
        var left := Build(entry.left, t.left);
        var right := Build(entry.right, t.right);
        var condition := TakeJoins(s);
        p := JoinOn(condition, left, right);
      }
    }

    /** Erases the joins whose sources all lie in `s` and combines their conditions. */
    method TakeJoins(s: Subproblem) returns (condition: CNF)
      modifies this
      ensures condition == Taken(old(joins), s) && joins == Kept(old(joins), s)
    {
      condition := [];
      var i := 0;
      while i < |joins|
        invariant 0 <= i <= |joins|
        invariant condition + Taken(joins[i..], s) == Taken(old(joins), s)
        invariant joins[..i] + Kept(joins[i..], s) == Kept(old(joins), s)
        decreases |joins| - i
      {
        KeptStep(joins[i..], s);
        assert joins[i..][1..] == joins[i + 1..];
        hide Taken, Kept;
        if joins[i].sources <= s {
          condition := condition + joins[i].condition;
          ghost var rest := joins[i + 1..];
          joins := joins[..i] + joins[i + 1..];
          assert joins[i..] == rest;
        } else {
          assert joins[..i + 1] == joins[..i] + [joins[i]];
          i := i + 1;
        }
      }
      assert joins[..i] == joins;
    }
  }

  lemma LeafIsMin(s: Subproblem, t: JoinTree)
    requires t.Rels() == s && t.Leaf?
    ensures s == {t.rel} && Min(s) == t.rel
  {}

  // ------------------------------------------------------------------ what the plan computes

  /** The cross product of the sources in the shape of the tree. */
  function CrossOf(rows: Tables, t: JoinTree): seq<Row> {
    match t
    case Leaf(i) => rows(i)
    case Join(a, b) => Cross(CrossOf(rows, a), CrossOf(rows, b))
  }

  function TotalCondition(t: JoinTree, joins: seq<JoinCondition>): CNF {
    if t.Leaf? then []
    else TotalCondition(t.left, joins) + TotalCondition(t.right, joins) + ConditionAt(t, joins)
  }

  function AllConditions(joins: seq<JoinCondition>): CNF {
    if joins == [] then [] else joins[0].condition + AllConditions(joins[1..])
  }

  ghost predicate WithinSources(m: Atoms, joins: seq<JoinCondition>) {
    forall i :: 0 <= i < |joins| ==> m.Within(joins[i].condition, joins[i].sources)
  }

  lemma {:induction false} ConditionWithin(m: Atoms, t: JoinTree, joins: seq<JoinCondition>)
    requires t.Join? && WithinSources(m, joins)
    ensures m.Within(ConditionAt(t, joins), t.Rels())
  {
    if joins == [] {
    } else {
      ConditionWithin(m, t, joins[1..]);
      assert m.Within(joins[0].condition, joins[0].sources);
      WithinAppend(m, if PlacedAt(t, joins[0]) then joins[0].condition else [], ConditionAt(t, joins[1..]), t.Rels());
      hide ConditionAt, Atoms.ClauseSources;
      assert PlacedAt(t, joins[0]) ==> joins[0].sources <= t.Rels();
    }
  }

  lemma WithinAppend(m: Atoms, f: CNF, g: CNF, s: Subproblem)
    ensures m.Within(f + g, s) <==> m.Within(f, s) && m.Within(g, s)
  {
    hide Atoms.ClauseSources;
    if m.Within(f + g, s) {
      assert forall i :: 0 <= i < |f| ==> (f + g)[i] == f[i];
      assert forall i :: 0 <= i < |g| ==> (f + g)[|f| + i] == g[i];
    }
  }

  lemma WithinMore(m: Atoms, f: CNF, s: Subproblem, t: Subproblem)
    requires m.Within(f, s) && s <= t
    ensures m.Within(f, t)
  {
    hide Atoms.ClauseSources;
  }

  lemma {:induction false} TotalWithin(m: Atoms, t: JoinTree, joins: seq<JoinCondition>)
    requires WithinSources(m, joins)
    ensures m.Within(TotalCondition(t, joins), t.Rels())
  {
    hide WithinSources, Atoms.ClauseSources;
    if t.Join? {
      TotalWithin(m, t.left, joins);
      TotalWithin(m, t.right, joins);
      ConditionWithin(m, t, joins);
      hide Atoms.Within;
      WithinMore(m, TotalCondition(t.left, joins), t.left.Rels(), t.Rels());
      WithinMore(m, TotalCondition(t.right, joins), t.right.Rels(), t.Rels());
      WithinAppend(m, TotalCondition(t.left, joins), TotalCondition(t.right, joins), t.Rels());
      WithinAppend(m, TotalCondition(t.left, joins) + TotalCondition(t.right, joins), ConditionAt(t, joins), t.Rels());
    }
  }

  ghost predicate Belongs(t: JoinTree, joins: seq<JoinCondition>, c: Clause) {
    exists j :: j in joins && Covered(t, j) && c in j.condition
  }

  lemma {:induction false} ConditionMembers(t: JoinTree, joins: seq<JoinCondition>, c: Clause)
    requires t.Join?
    ensures c in ConditionAt(t, joins) <==> exists j :: j in joins && PlacedAt(t, j) && c in j.condition
  {
    if joins == [] {
    } else {
      ConditionMembers(t, joins[1..], c);
      hide PlacedAt;
      assert joins[0] in joins && forall j :: j in joins <==> j == joins[0] || j in joins[1..];
    }
  }

  /** The clauses of the whole plan are those of the joins that the tree covers. */
  lemma {:induction false} TotalMembers(t: JoinTree, joins: seq<JoinCondition>, c: Clause)
    ensures c in TotalCondition(t, joins) <==> Belongs(t, joins, c)
  {
    if t.Join? {
      TotalMembers(t.left, joins, c);
      TotalMembers(t.right, joins, c);
      ConditionMembers(t, joins, c);
      hide ConditionAt;
      BelongsSomewhere(t, joins, c);
    }
  }

  lemma BelongsSomewhere(t: JoinTree, joins: seq<JoinCondition>, c: Clause)
    requires t.Join?
    ensures Belongs(t, joins, c) <==>
              || Belongs(t.left, joins, c) || Belongs(t.right, joins, c)
              || exists j :: j in joins && PlacedAt(t, j) && c in j.condition
  {
    NodeRels(t);
    hide JoinTree.Rels;
    if Belongs(t.left, joins, c) {
      var j :| j in joins && Covered(t.left, j) && c in j.condition;
      assert Covered(t, j);
    }
    if Belongs(t.right, joins, c) {
      var j :| j in joins && Covered(t.right, j) && c in j.condition;
      assert Covered(t, j);
    }
    if Belongs(t, joins, c) {
      var j :| j in joins && Covered(t, j) && c in j.condition;
      assert Covered(t.left, j) || Covered(t.right, j) || PlacedAt(t, j);
    }
  }

  lemma {:induction false} AllMembers(joins: seq<JoinCondition>, c: Clause)
    ensures c in AllConditions(joins) <==> exists j :: j in joins && c in j.condition
  {
    if joins != [] {
      AllMembers(joins[1..], c);
      assert joins[0] in joins && forall j :: j in joins <==> j == joins[0] || j in joins[1..];
    }
  }

  lemma {:induction false} CrossOfOver(rows: Tables, t: JoinTree)
    requires WellFormed(rows)
    ensures Over(CrossOf(rows, t), t.Rels())
  {
    if t.Join? {
      CrossOfOver(rows, t.left);
      CrossOfOver(rows, t.right);
      CrossOver(CrossOf(rows, t.left), CrossOf(rows, t.right), t.left.Rels(), t.right.Rels());
      hide Over, Cross;
    } else {
      assert Over(rows(t.rel), {t.rel});
    }
  }

  /** The rows that the source plans yield. */
  function SourceRows(m: Atoms, base: Tables, sources: seq<Plan>): Tables {
    (i: nat) => if i < |sources| then Rows(m, base, sources[i]) else []
  }

  /** A plan computes, row for row, its cross product filtered by all its conditions. */
  lemma {:induction false} PlanFiltersProduct(m: Atoms, base: Tables, sources: seq<Plan>, t: JoinTree,
                                              joins: seq<JoinCondition>)
    requires m.Local() && WithinSources(m, joins) && Disjoint(t) && t.Rels() <= Below(|sources|)
    requires WellFormed(SourceRows(m, base, sources))
    ensures Rows(m, base, PlanOf(sources, t, joins))
            == Filter(m, TotalCondition(t, joins), CrossOf(SourceRows(m, base, sources), t))
  {
    var rows := SourceRows(m, base, sources);
    hide WithinSources, Atoms.Local, WellFormed, ConditionAt, Over, Cross, Atoms.Within;
    if t.Leaf? {
      FilterNothing(m, rows(t.rel));
    } else {
      var a, b := t.left, t.right;
      PlanFiltersProduct(m, base, sources, a, joins);
      PlanFiltersProduct(m, base, sources, b, joins);
      TotalWithin(m, a, joins);
      TotalWithin(m, b, joins);
      CrossOfOver(rows, a);
      CrossOfOver(rows, b);
      hide Filter;
      FilterCross(m, TotalCondition(a, joins), TotalCondition(b, joins), CrossOf(rows, a), CrossOf(rows, b), a.Rels(),
                  b.Rels());
      FilterTwice(m, TotalCondition(a, joins) + TotalCondition(b, joins), ConditionAt(t, joins), CrossOf(rows, t));
    }
  }

  lemma {:induction false} CopiesInCross(rows: Tables, t: JoinTree, r: Row, n: nat)
    requires WellFormed(rows) && Disjoint(t) && t.Rels() <= Below(n) && r.Keys == t.Rels()
    ensures Copies(CrossOf(rows, t), r) == Multiplicity(rows, t.Rels(), r, n)
  {
    match t
    case Leaf(i) =>
      assert i in Below(n);
      assert Restrict(r, {i}) == r;
      MultiplicityOfOne(rows, i, r, n);
    case Join(a, b) =>
      var s, u := a.Rels(), b.Rels();
      hide Copies, Multiplicity, WellFormed, Over, Cross, Times;
      CrossOfOver(rows, a);
      CrossOfOver(rows, b);
      RestrictKeys(r, s);
      RestrictKeys(r, u);
      hide Restrict;
      CopiesInCross(rows, a, Restrict(r, s), n);
      CopiesInCross(rows, b, Restrict(r, u), n);
      CopiesCross(CrossOf(rows, a), CrossOf(rows, b), s, u, r);
      MultiplicityIsLocal(rows, s, r, s, n);
      MultiplicityIsLocal(rows, u, r, u, n);
      MultiplicityOfUnion(rows, s, u, r, n);
  }

  lemma RestrictKeys(r: Row, s: Subproblem)
    requires s <= r.Keys
    ensures Restrict(r, s).Keys == s
  {}

  lemma {:induction false} CopiesInProduct(rows: Tables, r: Row, k: nat)
    requires WellFormed(rows) && r.Keys == Below(k)
    ensures Copies(Product(rows, k), r) == Multiplicity(rows, Below(k), r, k)
  {
    hide WellFormed, Over, Cross, Times;
    if k == 0 {
      assert r == map[] && Product(rows, 0) == [r];
    } else {
      hide Copies;
      var s := Below(k - 1);
      assert Below(k) == s + {k - 1};
      RestrictKeys(r, s);
      CopiesInProduct(rows, Restrict(r, s), k - 1);
      ProductStep(rows, r, s, k - 1);
      hide Product;
      MultiplicityIsLocal(rows, s, r, s, k - 1);
      MultiplicityIgnores(rows, s, Below(k), r, k - 1);
    }
  }

  lemma ProductStep(rows: Tables, r: Row, s: Subproblem, k: nat)
    requires WellFormed(rows) && s == Below(k) && r.Keys == s + {k}
    ensures Copies(Product(rows, k + 1), r)
            == Times(Copies(Product(rows, k), Restrict(r, s)), Copies(rows(k), Restrict(r, {k})))
  {
    hide Copies, WellFormed, Over, Cross, Times, Restrict;
    ProductOver(rows, k);
    OverSource(rows, k);
    CopiesCross(Product(rows, k), rows(k), s, {k}, r);
  }

  lemma OverSource(rows: Tables, i: nat)
    requires WellFormed(rows)
    ensures Over(rows(i), {i})
  {}

  lemma {:induction false} MultiplicityIgnores(rows: Tables, s: Subproblem, t: Subproblem, r: Row, k: nat)
    requires forall i: nat | i < k :: i in s <==> i in t
    ensures Multiplicity(rows, s, r, k) == Multiplicity(rows, t, r, k)
  {
    if k > 0 {
      MultiplicityIgnores(rows, s, t, r, k - 1);
    }
  }

  /** All join trees over the same sources have the same cross product, as a bag. */
  lemma CrossIsProduct(rows: Tables, t: JoinTree, n: nat)
    requires WellFormed(rows) && Disjoint(t) && t.Rels() == Below(n)
    ensures multiset(CrossOf(rows, t)) == multiset(Product(rows, n))
  {
    hide Over, Copies;
    CrossOfOver(rows, t);
    ProductOver(rows, n);
    forall r ensures Copies(CrossOf(rows, t), r) == Copies(Product(rows, n), r) {
      if r.Keys == Below(n) {
        CopiesInCross(rows, t, r, n);
        CopiesInProduct(rows, r, n);
      } else {
        CopiesElsewhere(CrossOf(rows, t), Below(n), r);
        CopiesElsewhere(Product(rows, n), Below(n), r);
      }
    }
    SameCopies(CrossOf(rows, t), Product(rows, n));
  }

  /** Whatever tree the plan table spells out, the constructed plan yields the bag of the rows of
      the cross product that satisfy all join conditions. */
  lemma PlanMeansJoin(m: Atoms, base: Tables, sources: seq<Plan>, t: JoinTree, joins: seq<JoinCondition>)
    requires m.Local() && WithinSources(m, joins) && Disjoint(t) && t.Rels() == Below(|sources|)
    requires WellFormed(SourceRows(m, base, sources))
    requires forall j :: j in joins ==> Covered(t, j)
    ensures multiset(Rows(m, base, PlanOf(sources, t, joins)))
         == multiset(Filter(m, AllConditions(joins), Product(SourceRows(m, base, sources), |sources|)))
  {
    var rows, n := SourceRows(m, base, sources), |sources|;
    PlanFiltersProduct(m, base, sources, t, joins);
    CrossIsProduct(rows, t, n);
    forall c ensures c in TotalCondition(t, joins) <==> c in AllConditions(joins) {
      TotalMembers(t, joins, c);
      AllMembers(joins, c);
    }
    hide Filter, Product, CrossOf, PlanOf, TotalCondition, AllConditions, Covered, Disjoint, Rows;
    SameClausesSameFilter(m, TotalCondition(t, joins), AllConditions(joins), CrossOf(rows, t));
    SameBagSameFilter(m, AllConditions(joins), CrossOf(rows, t), Product(rows, n));
  }

  /** Any two plan tables give plans with equal results. */
  lemma PlansAgree(m: Atoms, base: Tables, sources: seq<Plan>, t: JoinTree, u: JoinTree, joins: seq<JoinCondition>)
    requires m.Local() && WithinSources(m, joins) && WellFormed(SourceRows(m, base, sources))
    requires Disjoint(t) && t.Rels() == Below(|sources|) && Disjoint(u) && u.Rels() == Below(|sources|)
    requires forall j :: j in joins ==> Covered(t, j) && Covered(u, j)
    ensures multiset(Rows(m, base, PlanOf(sources, t, joins))) == multiset(Rows(m, base, PlanOf(sources, u, joins)))
  {
    PlanMeansJoin(m, base, sources, t, joins);
    PlanMeansJoin(m, base, sources, u, joins);
  }
}
