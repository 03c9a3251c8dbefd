/** Bags of joined rows, and how filters and cross products act on them. */
module Relations {
  import opened SmallBitset
  import opened Cnf

  type Tuple = seq<int>

  /** A joined row holds one tuple per data source. */
  type Row = map<nat, Tuple>

  /** How the atoms of a formula read a row: `sources` are the data sources that an atom mentions. */
  datatype Atoms = Atoms(sources: nat -> Subproblem, value: (nat, Row) -> Truth) {

    /** An atom depends on nothing but the data sources it mentions. */
    ghost predicate Local() {
      forall id, r: Row, q: Row ::
        (forall s | s in sources(id) :: s in r && s in q && r[s] == q[s]) ==> value(id, r) == value(id, q)
    }

    function On(r: Row): Valuation {
      (id: nat) => value(id, r)
    }

    function ClauseSources(c: Clause): Subproblem {
      if c == [] then {} else sources(c[0].id) + ClauseSources(c[1..])
    }

    ghost predicate Within(f: CNF, s: Subproblem) {
      forall i :: 0 <= i < |f| ==> ClauseSources(f[i]) <= s
    }

    /** A row passes a filter when the formula is TRUE for it, not FALSE and not UNKNOWN. */
    predicate Keeps(f: CNF, r: Row) {
      EvalCnf(f, On(r)) == True
    }
  }

  lemma {:induction false} ClauseIsLocal(m: Atoms, c: Clause, r: Row, q: Row)
    requires m.Local()
    requires forall s | s in m.ClauseSources(c) :: s in r && s in q && r[s] == q[s]
    ensures EvalClause(c, m.On(r)) == EvalClause(c, m.On(q))
  {
    if c != [] {
      ClauseIsLocal(m, c[1..], r, q);
      assert m.value(c[0].id, r) == m.value(c[0].id, q);
    }
  }

  lemma {:induction false} KeepsIsLocal(m: Atoms, f: CNF, s: Subproblem, r: Row, q: Row)
    requires m.Local() && m.Within(f, s)
    requires forall i | i in s :: i in r && i in q && r[i] == q[i]
    ensures m.Keeps(f, r) == m.Keeps(f, q)
  {
    if f != [] {
      ClauseIsLocal(m, f[0], r, q);
      assert forall i :: 0 <= i < |f[1..]| ==> f[1..][i] == f[i + 1];
      KeepsIsLocal(m, f[1..], s, r, q);
    }
  }

  lemma KeepsBoth(m: Atoms, f: CNF, g: CNF, r: Row)
    ensures m.Keeps(f + g, r) == (m.Keeps(f, r) && m.Keeps(g, r))
  {
    AppendMeansAnd(f, g, m.On(r));
  }

  ghost predicate AllTrue(m: Atoms, f: CNF, r: Row) {
    forall c :: c in f ==> EvalClause(c, m.On(r)) == True
  }

  /** A formula keeps the rows for which all its clauses are TRUE. */
  lemma {:induction false} KeepsAllClauses(m: Atoms, f: CNF, r: Row)
    ensures m.Keeps(f, r) <==> AllTrue(m, f, r)
  {
    if f == [] {
    } else {
      KeepsAllClauses(m, f[1..], r);
      AllTrueStep(m, f, r);
      hide AllTrue, EvalClause;
    }
  }

  lemma AllTrueStep(m: Atoms, f: CNF, r: Row)
    requires f != []
    ensures AllTrue(m, f, r) <==> EvalClause(f[0], m.On(r)) == True && AllTrue(m, f[1..], r)
  {
    hide EvalClause;
    assert forall c :: c in f <==> c == f[0] || c in f[1..];
  }

  // ------------------------------------------------------------------------ rows and products

  function Filter(m: Atoms, f: CNF, rows: seq<Row>): seq<Row> {
    if rows == [] then []
    else (if m.Keeps(f, rows[0]) then [rows[0]] else []) + Filter(m, f, rows[1..])
  }

  /** One row joined with every row of the other side. */
  function Extend(r: Row, ys: seq<Row>): seq<Row> {
    if ys == [] then [] else [r + ys[0]] + Extend(r, ys[1..])
  }

  function Cross(xs: seq<Row>, ys: seq<Row>): seq<Row> {
    if xs == [] then [] else Extend(xs[0], ys) + Cross(xs[1..], ys)
  }

  ghost predicate Over(rows: seq<Row>, s: Subproblem) {
    forall i :: 0 <= i < |rows| ==> rows[i].Keys == s
  }

  lemma FilterStep(m: Atoms, f: CNF, x: Row, xs: seq<Row>)
    ensures Filter(m, f, [x] + xs) == (if m.Keeps(f, x) then [x] else []) + Filter(m, f, xs)
  {
    assert ([x] + xs)[1..] == xs;
  }

  lemma ExtendStep(r: Row, y: Row, ys: seq<Row>)
    ensures Extend(r, [y] + ys) == [r + y] + Extend(r, ys)
  {
    assert ([y] + ys)[1..] == ys;
  }

  lemma CrossStep(x: Row, xs: seq<Row>, ys: seq<Row>)
    ensures Cross([x] + xs, ys) == Extend(x, ys) + Cross(xs, ys)
  {
    assert ([x] + xs)[1..] == xs;
  }

  lemma {:induction false} FilterAppend(m: Atoms, f: CNF, xs: seq<Row>, ys: seq<Row>)
    ensures Filter(m, f, xs + ys) == Filter(m, f, xs) + Filter(m, f, ys)
  {
    if xs == [] {
      assert xs + ys == ys;
    } else {
      assert (xs + ys)[1..] == xs[1..] + ys;
      FilterAppend(m, f, xs[1..], ys);
    }
  }

  /** Filtering twice is filtering by the conjunction. */
  lemma {:induction false} FilterTwice(m: Atoms, f: CNF, g: CNF, rows: seq<Row>)
    ensures Filter(m, g, Filter(m, f, rows)) == Filter(m, f + g, rows)
  {
    if rows != [] {
      FilterTwice(m, f, g, rows[1..]);
      KeepsBoth(m, f, g, rows[0]);
      FilterAppend(m, g, if m.Keeps(f, rows[0]) then [rows[0]] else [], Filter(m, f, rows[1..]));
    }
  }

  lemma FilterOver(m: Atoms, f: CNF, rows: seq<Row>, s: Subproblem)
    requires Over(rows, s)
    ensures Over(Filter(m, f, rows), s)
  {}

  lemma {:induction false} ExtendOver(r: Row, ys: seq<Row>, s: Subproblem, t: Subproblem)
    requires r.Keys == s && Over(ys, t)
    ensures Over(Extend(r, ys), s + t)
  {
    if ys != [] {
      ExtendOver(r, ys[1..], s, t);
    }
  }

  lemma {:induction false} CrossOver(xs: seq<Row>, ys: seq<Row>, s: Subproblem, t: Subproblem)
    requires Over(xs, s) && Over(ys, t)
    ensures Over(Cross(xs, ys), s + t)
  {
    if xs != [] {
      ExtendOver(xs[0], ys, s, t);
      CrossOver(xs[1..], ys, s, t);
    }
  }

  lemma KeepsJoined(m: Atoms, f: CNF, g: CNF, r: Row, q: Row, s: Subproblem, t: Subproblem)
    requires m.Local() && m.Within(f, s) && m.Within(g, t) && s !! t && r.Keys == s && q.Keys == t
    ensures m.Keeps(f + g, r + q) == (m.Keeps(f, r) && m.Keeps(g, q))
  {
    KeepsBoth(m, f, g, r + q);
    KeepsIsLocal(m, f, s, r + q, r);
    KeepsIsLocal(m, g, t, r + q, q);
  }

  /** A filter on the right side may be applied before or after extending a row, and a filter on the
      row itself decides for all extensions at once. */
  lemma {:induction false} FilterExtend(m: Atoms, f: CNF, g: CNF, r: Row, ys: seq<Row>, s: Subproblem, t: Subproblem)
    requires m.Local() && m.Within(f, s) && m.Within(g, t) && s !! t && r.Keys == s && Over(ys, t)
    ensures Filter(m, f + g, Extend(r, ys)) == if m.Keeps(f, r) then Extend(r, Filter(m, g, ys)) else []
  {
    if ys == [] {
    } else {
      var y, rest := ys[0], ys[1..];
      assert ys == [y] + rest;
      FilterExtend(m, f, g, r, rest, s, t);
      KeepsJoined(m, f, g, r, y, s, t);
      hide Atoms.Keeps, Atoms.Within, Over, Atoms.Local, Filter, Extend;
      ExtendStep(r, y, rest);
      FilterStep(m, f + g, r + y, Extend(r, rest));
      FilterStep(m, g, y, rest);
      ExtendStep(r, y, Filter(m, g, rest));
      assert [] + Filter(m, g, rest) == Filter(m, g, rest);
    }
  }

  lemma {:induction false} ExtendAppend(r: Row, xs: seq<Row>, ys: seq<Row>)
    ensures Extend(r, xs + ys) == Extend(r, xs) + Extend(r, ys)
  {
    if xs == [] {
      assert xs + ys == ys;
    } else {
      assert (xs + ys)[1..] == xs[1..] + ys;
      ExtendAppend(r, xs[1..], ys);
    }
  }

  /** Filters on the two sides commute with the cross product, row for row and in order. */
  lemma {:induction false} FilterCross(m: Atoms, f: CNF, g: CNF, xs: seq<Row>, ys: seq<Row>, s: Subproblem,
                                       t: Subproblem)
    requires m.Local() && m.Within(f, s) && m.Within(g, t) && s !! t && Over(xs, s) && Over(ys, t)
    ensures Cross(Filter(m, f, xs), Filter(m, g, ys)) == Filter(m, f + g, Cross(xs, ys))
  {
    if xs == [] {
    } else {
      var x, rest := xs[0], xs[1..];
      assert xs == [x] + rest;
      FilterCross(m, f, g, rest, ys, s, t);
      FilterExtend(m, f, g, x, ys, s, t);
      hide Atoms.Keeps, Atoms.Within, Over, Atoms.Local, Filter, Extend, Cross;
      CrossStep(x, rest, ys);
      FilterAppend(m, f + g, Extend(x, ys), Cross(rest, ys));
      FilterStep(m, f, x, rest);
      CrossStep(x, Filter(m, f, rest), Filter(m, g, ys));
      assert [] + Filter(m, f, rest) == Filter(m, f, rest);
      assert [] + Cross(Filter(m, f, rest), Filter(m, g, ys)) == Cross(Filter(m, f, rest), Filter(m, g, ys));
    }
  }

  // ------------------------------------------------------------------- multiplicities of rows

  function Restrict(r: Row, s: Subproblem): Row {
    map i | i in r && i in s :: r[i]
  }

  /** The multiplicity of a row. */
  ghost function Copies(rows: seq<Row>, r: Row): nat {
    multiset(rows)[r]
  }

  lemma CopiesStep(x: Row, rows: seq<Row>, r: Row)
    ensures Copies([x] + rows, r) == Copies(rows, r) + if x == r then 1 else 0
  {}

  lemma CopiesAppend(xs: seq<Row>, ys: seq<Row>, r: Row)
    ensures Copies(xs + ys, r) == Copies(xs, r) + Copies(ys, r)
  {}

  lemma SameCopies(xs: seq<Row>, ys: seq<Row>)
    requires forall r :: Copies(xs, r) == Copies(ys, r)
    ensures multiset(xs) == multiset(ys)
  {
    forall r ensures multiset(xs)[r] == multiset(ys)[r] {
      assert Copies(xs, r) == Copies(ys, r);
    }
  }

  /** Filtering keeps or drops all copies of a row. */
  lemma {:induction false} CopiesFilter(m: Atoms, f: CNF, rows: seq<Row>, r: Row)
    ensures Copies(Filter(m, f, rows), r) == if m.Keeps(f, r) then Copies(rows, r) else 0
  {
    if rows == [] {
    } else {
      var x, rest := rows[0], rows[1..];
      assert rows == [x] + rest;
      CopiesFilter(m, f, rest, r);
      FilterStep(m, f, x, rest);
      CopiesStep(x, rest, r);
      CopiesStep(x, Filter(m, f, rest), r);
      assert [] + Filter(m, f, rest) == Filter(m, f, rest);
      hide Copies, Filter, Atoms.Keeps;
    }
  }

  lemma SameBagSameFilter(m: Atoms, f: CNF, xs: seq<Row>, ys: seq<Row>)
    requires multiset(xs) == multiset(ys)
    ensures multiset(Filter(m, f, xs)) == multiset(Filter(m, f, ys))
  {
    forall r ensures Copies(Filter(m, f, xs), r) == Copies(Filter(m, f, ys), r) {
      CopiesFilter(m, f, xs, r);
      CopiesFilter(m, f, ys, r);
    }
    SameCopies(Filter(m, f, xs), Filter(m, f, ys));
  }

  lemma {:induction false} CopiesExtend(x: Row, ys: seq<Row>, s: Subproblem, t: Subproblem, r: Row)
    requires x.Keys == s && Over(ys, t) && s !! t && r.Keys == s + t
    ensures Copies(Extend(x, ys), r) == if x == Restrict(r, s) then Copies(ys, Restrict(r, t)) else 0
  {
    if ys == [] {
    } else {
      var y, rest := ys[0], ys[1..];
      CopiesExtend(x, rest, s, t, r);
      JoinedRow(x, y, s, t, r);
      assert ys == [y] + rest;
      hide Over, Restrict, Copies, Extend;
      ExtendStep(x, y, rest);
      CopiesStep(y, rest, Restrict(r, t));
      CopiesStep(x + y, Extend(x, rest), r);
    }
  }

  lemma JoinedRow(x: Row, y: Row, s: Subproblem, t: Subproblem, r: Row)
    requires x.Keys == s && y.Keys == t && s !! t && r.Keys == s + t
    ensures x + y == r <==> x == Restrict(r, s) && y == Restrict(r, t)
  {
    if x + y == r {
      assert x == Restrict(r, s);
      assert y == Restrict(r, t);
    }
    if x == Restrict(r, s) && y == Restrict(r, t) {
      assert x + y == r;
    }
  }

  function Times(a: nat, b: nat): nat {
    a * b
  }

  lemma TimesLaws(a: nat, b: nat, c: nat)
    ensures Times(0, b) == 0 && Times(a, 0) == 0 && Times(1, b) == b && Times(a, b) == Times(b, a)
    ensures Times(a + 1, b) == Times(a, b) + b && Times(Times(a, b), c) == Times(a, Times(b, c))
  {
    assert a * b * c == a * (b * c);
  }

  /** The multiplicity of a row in a cross product is the product of those of its parts. */
  lemma {:induction false} CopiesCross(xs: seq<Row>, ys: seq<Row>, s: Subproblem, t: Subproblem, r: Row)
    requires Over(xs, s) && Over(ys, t) && s !! t && r.Keys == s + t
    ensures Copies(Cross(xs, ys), r) == Times(Copies(xs, Restrict(r, s)), Copies(ys, Restrict(r, t)))
  {
    var p, q := Restrict(r, s), Restrict(r, t);
    if xs == [] {
      hide Restrict;
      TimesLaws(0, Copies(ys, q), 0);
    } else {
      hide Over, Restrict, Extend, Copies, Cross, Times;
      var x, rest := xs[0], xs[1..];
      OverTail(xs, s);
      CopiesCross(rest, ys, s, t, r);
      CopiesExtend(x, ys, s, t, r);
      CopiesCrossStep(x, rest, ys, p, q, r);
      assert xs == [x] + rest;
    }
  }

  lemma OverTail(xs: seq<Row>, s: Subproblem)
    requires Over(xs, s) && xs != []
    ensures Over(xs[1..], s) && xs[0].Keys == s
  {}

  lemma CopiesCrossStep(x: Row, rest: seq<Row>, ys: seq<Row>, p: Row, q: Row, r: Row)
    requires Copies(Extend(x, ys), r) == if x == p then Copies(ys, q) else 0
    requires Copies(Cross(rest, ys), r) == Times(Copies(rest, p), Copies(ys, q))
    ensures Copies(Cross([x] + rest, ys), r) == Times(Copies([x] + rest, p), Copies(ys, q))
  {
    hide Extend, Copies, Cross, Times;
    CrossStep(x, rest, ys);
    CopiesAppend(Extend(x, ys), Cross(rest, ys), r);
    CopiesStep(x, rest, p);
    TimesLaws(Copies(rest, p), Copies(ys, q), 0);
  }

  lemma CopiesElsewhere(rows: seq<Row>, s: Subproblem, r: Row)
    requires Over(rows, s) && r.Keys != s
    ensures Copies(rows, r) == 0
  {
    assert r !in rows;
  }
}
