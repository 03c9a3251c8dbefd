/** Operator trees for the part of a query below its projections, what they compute, and why the
    order of a cross product does not matter for the bag of its rows. */
module Plans {
  import opened SmallBitset
  import opened Cnf
  import opened Relations

  datatype Plan =
    | Scan(rel: nat)
    | FilterBy(condition: CNF, child: Plan)
    | FilterByAny(clause: Clause, child: Plan)      // the predicates are evaluated one by one
    | JoinOn(condition: CNF, left: Plan, right: Plan)

  /** Whether one of the predicates is TRUE; the first such predicate decides. */
  predicate SomeTrue(m: Atoms, c: Clause, r: Row) {
    c != [] && (EvalPredicate(c[0], m.On(r)) == True || SomeTrue(m, c[1..], r))
  }

  function FilterAny(m: Atoms, c: Clause, rows: seq<Row>): seq<Row> {
    if rows == [] then [] else (if SomeTrue(m, c, rows[0]) then [rows[0]] else []) + FilterAny(m, c, rows[1..])
  }

  type Tables = nat -> seq<Row>

  function Rows(m: Atoms, base: Tables, p: Plan): seq<Row> {
    match p
    case Scan(i) => base(i)
    case FilterBy(f, c) => Filter(m, f, Rows(m, base, c))
    case FilterByAny(c, q) => FilterAny(m, c, Rows(m, base, q))
    case JoinOn(f, l, r) => Filter(m, f, Cross(Rows(m, base, l), Rows(m, base, r)))
  }

  lemma {:induction false} SomeTrueMeansOr(m: Atoms, c: Clause, r: Row)
    ensures SomeTrue(m, c, r) <==> EvalClause(c, m.On(r)) == True
  {
    if c != [] {
      SomeTrueMeansOr(m, c[1..], r);
    }
  }

  /** Evaluating the predicates of a single clause one by one is filtering by the clause. */
  lemma {:induction false} FilterAnyIsFilter(m: Atoms, c: Clause, rows: seq<Row>)
    ensures FilterAny(m, c, rows) == Filter(m, [c], rows)
  {
    if rows != [] {
      FilterAnyIsFilter(m, c, rows[1..]);
      SomeTrueMeansOr(m, c, rows[0]);
      SingleClause(c, m.On(rows[0]));
      hide SomeTrue, EvalClause, EvalCnf;
    }
  }

  /** Two formulas with the same clauses, in any order and any number, filter alike. */
  lemma {:induction false} SameClausesSameFilter(m: Atoms, f: CNF, g: CNF, rows: seq<Row>)
    requires forall c :: c in f <==> c in g
    ensures Filter(m, f, rows) == Filter(m, g, rows)
  {
    if rows != [] {
      SameClausesSameFilter(m, f, g, rows[1..]);
      KeepsAllClauses(m, f, rows[0]);
      KeepsAllClauses(m, g, rows[0]);
      hide Atoms.Keeps, EvalClause;
    }
  }

  lemma {:induction false} FilterNothing(m: Atoms, rows: seq<Row>)
    ensures Filter(m, [], rows) == rows
  {
    if rows != [] {
      FilterNothing(m, rows[1..]);
    }
  }

  // ------------------------------------------------------------ the cross product of all sources

  /** The cross product of the first `k` sources, in order. */
  function Product(base: Tables, k: nat): seq<Row> {
    if k == 0 then [map[]] else Cross(Product(base, k - 1), base(k - 1))
  }

  ghost predicate WellFormed(base: Tables) {
    forall i: nat :: Over(base(i), {i})
  }

  lemma {:induction false} ProductOver(base: Tables, k: nat)
    requires WellFormed(base)
    ensures Over(Product(base, k), Below(k))
  {
    if k > 0 {
      ProductOver(base, k - 1);
      CrossOver(Product(base, k - 1), base(k - 1), Below(k - 1), {k - 1});
      assert Below(k - 1) + {k - 1} == Below(k);
    }
  }

  /** The product of the multiplicities that the parts of `r` have in the sources of `s` below `k`. */
  ghost function Multiplicity(base: Tables, s: Subproblem, r: Row, k: nat): nat {
    if k == 0 then 1
    else Times(Multiplicity(base, s, r, k - 1), if k - 1 in s then Copies(base(k - 1), Restrict(r, {k - 1})) else 1)
  }

  lemma FourFactors(a: nat, b: nat, c: nat, d: nat)
    requires c == 1 || d == 1
    ensures Times(Times(a, c), Times(b, d)) == Times(Times(a, b), Times(c, d))
  {
    assert a * c * b == a * b * c;
  }

  lemma {:induction false} MultiplicityOfUnion(base: Tables, s: Subproblem, t: Subproblem, r: Row, k: nat)
    requires s !! t
    ensures Multiplicity(base, s + t, r, k) == Times(Multiplicity(base, s, r, k), Multiplicity(base, t, r, k))
  {
    if k > 0 {
      MultiplicityOfUnion(base, s, t, r, k - 1);
      var c := Copies(base(k - 1), Restrict(r, {k - 1}));
      var x, y := if k - 1 in s then c else 1, if k - 1 in t then c else 1;
      FourFactors(Multiplicity(base, s, r, k - 1), Multiplicity(base, t, r, k - 1), x, y);
      TimesLaws(c, 1, 1);
      TimesLaws(1, c, 1);
      hide Copies, Restrict;
    }
  }

  lemma {:induction false} MultiplicityIsLocal(base: Tables, s: Subproblem, r: Row, u: Subproblem, k: nat)
    requires s <= u
    ensures Multiplicity(base, s, Restrict(r, u), k) == Multiplicity(base, s, r, k)
  {
    if k > 0 {
      MultiplicityIsLocal(base, s, r, u, k - 1);
      if k - 1 in s {
        assert Restrict(Restrict(r, u), {k - 1}) == Restrict(r, {k - 1});
      }
    }
  }

  lemma {:induction false} MultiplicityOfNothing(base: Tables, r: Row, k: nat)
    ensures Multiplicity(base, {}, r, k) == 1
  {
    if k > 0 {
      MultiplicityOfNothing(base, r, k - 1);
    }
  }

  lemma {:induction false} MultiplicityOfOne(base: Tables, i: nat, r: Row, k: nat)
    requires i < k
    ensures Multiplicity(base, {i}, r, k) == Copies(base(i), Restrict(r, {i}))
  {
    hide Copies, Restrict;
    TimesLaws(Multiplicity(base, {i}, r, k - 1), 1, 1);
    if i < k - 1 {
      MultiplicityOfOne(base, i, r, k - 1);
    } else {
      MultiplicityBelow(base, {i}, r, i);
      TimesLaws(1, Copies(base(i), Restrict(r, {i})), 1);
    }
  }

  lemma {:induction false} MultiplicityBelow(base: Tables, s: Subproblem, r: Row, k: nat)
    requires forall i | i in s :: k <= i
    ensures Multiplicity(base, s, r, k) == 1
  {
    if k > 0 {
      MultiplicityBelow(base, s, r, k - 1);
    }
  }
}
