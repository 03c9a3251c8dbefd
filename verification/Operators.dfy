/** Operator trees with their schemas, and the rows that they produce. */
module Operators {
  import opened Relations

  type Id = nat
  type Schema = seq<Id>

  function Ids(s: Schema): set<Id> {
    set i | i in s
  }

  predicate Distinct(s: Schema) {
    forall i, j :: 0 <= i < j < |s| ==> s[i] != s[j]
  }

  /** A named value computed from a row or from a group of rows, and the attributes it reads. */
  datatype Fn<!T> = Fn(id: Id, required: Schema, eval: T -> Tuple)

  datatype Condition = Condition(required: Schema, holds: Row -> bool)

  /** Operators that only hand on the rows of their child, such as printing, are `Pass`; the input
      of a projection without child is `NoInput`. */
  datatype Op =
    | NoInput(schema: Schema)
    | Scan(table: seq<Row>, schema: Schema)
    | Pass(child: Op, schema: Schema)
    | FilterOp(condition: Condition, child: Op, schema: Schema)
    | JoinOp(condition: Condition, children: OpList, schema: Schema)
    | Projection(projections: seq<Fn<Row>>, child: Op, schema: Schema)
    | Limit(limit: nat, offset: nat, child: Op, schema: Schema)
    | Grouping(keys: seq<Fn<Row>>, aggregates: seq<Fn<seq<Row>>>, child: Op, schema: Schema)
    | Aggregation(aggregates: seq<Fn<seq<Row>>>, child: Op, schema: Schema)
    | Sorting(orderBy: seq<Fn<Row>>, order: seq<seq<Tuple>> -> seq<nat>, child: Op, schema: Schema)

  datatype OpList = None | More(head: Op, tail: OpList)

  // ------------------------------------------------------------------------------- semantics

  function RestrictAll(rows: seq<Row>, s: set<Id>): seq<Row> {
    if rows == [] then [] else [Restrict(rows[0], s)] + RestrictAll(rows[1..], s)
  }

  lemma {:induction false} RestrictAllAt(rows: seq<Row>, a: set<Id>)
    ensures |RestrictAll(rows, a)| == |rows|
    ensures forall i :: 0 <= i < |rows| ==> RestrictAll(rows, a)[i] == Restrict(rows[i], a)
  {
    if rows != [] {
      RestrictAllAt(rows[1..], a);
      hide Restrict;
    }
  }

  function Compute<T>(fs: seq<Fn<T>>, x: T): Row {
    if fs == [] then map[] else Compute(fs[..|fs| - 1], x)[fs[|fs| - 1].id := fs[|fs| - 1].eval(x)]
  }

  function ComputeAll<T>(fs: seq<Fn<T>>, xs: seq<T>): seq<Row> {
    if xs == [] then [] else [Compute(fs, xs[0])] + ComputeAll(fs, xs[1..])
  }

  function Values(fs: seq<Fn<Row>>, r: Row): seq<Tuple> {
    if fs == [] then [] else [fs[0].eval(r)] + Values(fs[1..], r)
  }

  function AllValues(fs: seq<Fn<Row>>, rows: seq<Row>): seq<seq<Tuple>> {
    if rows == [] then [] else [Values(fs, rows[0])] + AllValues(fs, rows[1..])
  }

  function Satisfying(c: Condition, rows: seq<Row>): seq<Row> {
    if rows == [] then [] else (if c.holds(rows[0]) then [rows[0]] else []) + Satisfying(c, rows[1..])
  }

  /** The rows with, or without, the given values of the keys. */
  function WithKey(keys: seq<Fn<Row>>, k: seq<Tuple>, with: bool, rows: seq<Row>): (some: seq<Row>)
    ensures |some| <= |rows|
  {
    if rows == [] then []
    else (if (Values(keys, rows[0]) == k) == with then [rows[0]] else []) + WithKey(keys, k, with, rows[1..])
  }

  /** The groups of rows with equal keys, in the order of their first rows. */
  function Groups(keys: seq<Fn<Row>>, rows: seq<Row>): seq<seq<Row>>
    decreases |rows|
  {
    if rows == [] then []
    else
      var k := Values(keys, rows[0]);
      [[rows[0]] + WithKey(keys, k, true, rows[1..])] + Groups(keys, WithKey(keys, k, false, rows[1..]))
  }

  function GroupRow(keys: seq<Fn<Row>>, aggregates: seq<Fn<seq<Row>>>, g: seq<Row>): Row {
    (if g == [] then map[] else Compute(keys, g[0])) + Compute(aggregates, g)
  }

  function GroupRows(keys: seq<Fn<Row>>, aggregates: seq<Fn<seq<Row>>>, gs: seq<seq<Row>>): seq<Row> {
    if gs == [] then [] else [GroupRow(keys, aggregates, gs[0])] + GroupRows(keys, aggregates, gs[1..])
  }

  function Pick(rows: seq<Row>, indices: seq<nat>): seq<Row> {
    if indices == [] then []
    else (if indices[0] < |rows| then [rows[indices[0]]] else []) + Pick(rows, indices[1..])
  }

  function Slice(rows: seq<Row>, offset: nat, limit: nat): seq<Row> {
    var from := if offset <= |rows| then offset else |rows|;
    var to := if offset + limit <= |rows| then offset + limit else |rows|;
    rows[from..to]
  }

  function Output(op: Op): seq<Row> {
    match op
    case NoInput(_) => [map[]]
    case Scan(table, s) => RestrictAll(table, Ids(s))
    case Pass(c, _) => Output(c)
    case FilterOp(cond, c, s) => RestrictAll(Satisfying(cond, Output(c)), Ids(s))
    case JoinOp(cond, cs, s) => RestrictAll(Satisfying(cond, CrossAll(cs)), Ids(s))
    case Projection(ps, c, _) => ComputeAll(ps, Output(c))
    case Limit(limit, offset, c, _) => Slice(Output(c), offset, limit)
    case Grouping(keys, aggs, c, _) => GroupRows(keys, aggs, Groups(keys, Output(c)))
    case Aggregation(aggs, c, _) => [Compute(aggs, Output(c))]
    case Sorting(fs, order, c, s) => RestrictAll(Pick(Output(c), order(AllValues(fs, Output(c)))), Ids(s))
  }

  function CrossAll(cs: OpList): seq<Row> {
    match cs
    case None => [map[]]
    case More(c, rest) => Cross(Output(c), CrossAll(rest))
  }

  // -------------------------------------------------------------------------- well-formedness

  function NamesOf<T>(fs: seq<Fn<T>>): Schema {
    if fs == [] then [] else NamesOf(fs[..|fs| - 1]) + [fs[|fs| - 1].id]
  }

  function SchemasOf(cs: OpList): set<Id> {
    match cs
    case None => {}
    case More(c, rest) => Ids(c.schema) + SchemasOf(rest)
  }

  ghost predicate LocalFns(fs: seq<Fn<Row>>, below: set<Id>) {
    forall f :: f in fs ==> Ids(f.required) <= below && LocalFn(f)
  }

  ghost predicate LocalFn(f: Fn<Row>) {
    Distinct(f.required) && forall r :: f.eval(r) == f.eval(Restrict(r, Ids(f.required)))
  }

  ghost predicate LocalAggregates(fs: seq<Fn<seq<Row>>>, below: set<Id>) {
    forall f :: f in fs ==> Ids(f.required) <= below && LocalAggregate(f)
  }

  ghost predicate LocalAggregate(f: Fn<seq<Row>>) {
    Distinct(f.required) && forall rows :: f.eval(rows) == f.eval(RestrictAll(rows, Ids(f.required)))
  }

  ghost predicate LocalCondition(c: Condition, below: set<Id>) {
    && Distinct(c.required) && Ids(c.required) <= below
    && forall r :: c.holds(r) <==> c.holds(Restrict(r, Ids(c.required)))
  }

  /** Plans as they are constructed: operators that hand on rows have the schema of their child,
      others name what they compute, and everything reads only what is below. */
  ghost predicate WellFormed(op: Op) {
    && Distinct(op.schema)
    && match op
       case NoInput(s) => s == []
       case Scan(_, _) => true
       case Pass(c, s) => WellFormed(c) && s == c.schema
       case FilterOp(cond, c, s) => WellFormed(c) && Ids(s) == Ids(c.schema) && LocalCondition(cond, Ids(c.schema))
       case JoinOp(cond, cs, s) => AllWellFormed(cs) && Ids(s) == SchemasOf(cs) && LocalCondition(cond, SchemasOf(cs))
       case Projection(ps, c, s) => WellFormed(c) && s == NamesOf(ps) && LocalFns(ps, Ids(c.schema))
       case Limit(_, _, c, s) => WellFormed(c) && s == c.schema
       case Grouping(keys, aggs, c, s) =>
         WellFormed(c) && s == NamesOf(keys) + NamesOf(aggs) && LocalFns(keys, Ids(c.schema))
           && LocalAggregates(aggs, Ids(c.schema))
       case Aggregation(aggs, c, s) => WellFormed(c) && s == NamesOf(aggs) && LocalAggregates(aggs, Ids(c.schema))
       case Sorting(fs, _, c, s) => WellFormed(c) && Ids(s) == Ids(c.schema) && LocalFns(fs, Ids(c.schema))
  }

  ghost predicate AllWellFormed(cs: OpList) {
    match cs
    case None => true
    case More(c, rest) => WellFormed(c) && AllWellFormed(rest) && Ids(c.schema) !! SchemasOf(rest)
  }
}
