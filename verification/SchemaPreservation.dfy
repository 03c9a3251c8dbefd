/** Minimising the schemas of a plan changes neither its rows nor their order, keeps what is
    required, and is done after one pass. */
module SchemaPreservation {
  import opened Relations
  import opened Operators
  import opened SchemaMinimization

  // ------------------------------------------------------------------------- bounds of schemas

  lemma {:induction false} NamesAppend<T>(fs: seq<Fn<T>>, f: Fn<T>)
    ensures NamesOf(fs + [f]) == NamesOf(fs) + [f.id]
  {
    assert (fs + [f])[..|fs|] == fs;
  }

  lemma {:induction false} KeptNames<T>(fs: seq<Fn<T>>, required: Schema, top: bool)
    requires Distinct(NamesOf(fs))
    ensures var names := Ids(NamesOf(Keep(fs, required, top)));
            names == if top then Ids(NamesOf(fs)) else Ids(NamesOf(fs)) * Ids(required)
    ensures Distinct(NamesOf(Keep(fs, required, top)))
  {
    if fs == [] {
      assert Keep(fs, required, top) == [];
    } else {
      var init, f := fs[..|fs| - 1], fs[|fs| - 1];
      hide *;
      assert init + [f] == fs && fs[..|fs| - 1 + 1] == fs;
      KeepStep(fs, |fs| - 1, required, top);
      NamesAppend(init, f);
      AddId(NamesOf(init), f.id);
      KeptNames(init, required, top);
      KeptNamesStep(Keep(init, required, top), f, Ids(NamesOf(init)), required, top);
    }
  }

  lemma KeptNamesStep<T>(kept: seq<Fn<T>>, f: Fn<T>, names: set<Id>, required: Schema, top: bool)
    requires Distinct(NamesOf(kept)) && f.id !in names
             && Ids(NamesOf(kept)) == if top then names else names * Ids(required)
    ensures var more := kept + if top || f.id in required then [f] else [];
            && Distinct(NamesOf(more))
            && Ids(NamesOf(more)) == if top then names + {f.id} else (names + {f.id}) * Ids(required)
  {
    assert f.id in required <==> f.id in Ids(required);
    hide *;
    if top || f.id in required {
      NamesAppend(kept, f);
      AddId(NamesOf(kept), f.id);
    } else {
      assert kept + [] == kept;
    }
  }

  lemma DistinctParts(s: Schema, t: Schema)
    requires Distinct(s + t)
    ensures Distinct(s) && Distinct(t) && Ids(s) !! Ids(t) && Ids(s + t) == Ids(s) + Ids(t)
  {
    var whole := s + t;
    assert forall i :: 0 <= i < |s| ==> whole[i] == s[i];
    assert forall i :: 0 <= i < |t| ==> whole[|s| + i] == t[i];
  }

  lemma JoinDistinct(s: Schema, t: Schema)
    requires Distinct(s) && Distinct(t) && Ids(s) !! Ids(t)
    ensures Distinct(s + t) && Ids(s + t) == Ids(s) + Ids(t)
  {
    assert forall i :: 0 <= i < |s| ==> s[i] in Ids(s);
    assert forall i :: 0 <= i < |t| ==> t[i] in Ids(t);
  }

  /** The new schema lies between what is required above and the old one; at the top nothing is
      lost. */
  lemma {:induction false} SchemaBounds(op: Op, required: Schema, top: bool)
    requires Asked(op, required, top)
    ensures var s := Minimize(op, required, top).schema;
            && Distinct(s) && Ids(s) <= Ids(op.schema)
            && (if top then Ids(s) == Ids(op.schema) else Ids(required) <= Ids(s))
    decreases op
  {
    match op
    case NoInput(_) =>
    case Scan(_, s) =>
      BothMembers(required, s);
    case Pass(c, _) =>
      AskedBelow(op, required, top);
      hide Distinct;
      SchemaBounds(c, required, top);
    case Limit(_, _, c, _) =>
      AskedBelow(op, required, top);
      hide Distinct;
      SchemaBounds(c, required, top);
    case FilterOp(_, _, _) =>
    case JoinOp(_, _, _) =>
    case Sorting(_, _, _, _) =>
    case Projection(ps, _, _) =>
      KeptNames(ps, required, top);
      hide Distinct, Keep;
    case Aggregation(aggs, _, _) =>
      KeptNames(aggs, required, top);
      hide Distinct, Keep;
    case Grouping(keys, aggs, _, _) =>
      DistinctParts(NamesOf(keys), NamesOf(aggs));
      hide Distinct, Keep;
      KeptNames(aggs, required, top);
      JoinDistinct(NamesOf(keys), NamesOf(Keep(aggs, required, top)));
  }

  lemma {:induction false} BothSame(b: Schema, s: Schema, t: Schema)
    requires forall i :: i in b ==> (i in s <==> i in t)
    ensures Both(b, s) == Both(b, t)
  {
    if b != [] {
      BothSame(b[1..], s, t);
    }
  }

  lemma BothTwice(b: Schema, s: Schema)
    ensures Both(b, Both(b, s)) == Both(b, s)
  {
    BothMembers(b, s);
    hide Both;
    forall i | i in b ensures i in s <==> i in Both(b, s) {
      assert i in Ids(b);
      assert i in Both(b, s) <==> i in Ids(Both(b, s));
      assert i in s <==> i in Ids(s);
    }
    BothSame(b, s, Both(b, s));
  }

  lemma {:induction false} KeepTwice<T>(fs: seq<Fn<T>>, required: Schema, top: bool)
    ensures Keep(Keep(fs, required, top), required, top) == Keep(fs, required, top)
  {
    if fs != [] {
      var init, f := fs[..|fs| - 1], fs[|fs| - 1];
      var kept := Keep(init, required, top);
      KeepTwice(init, required, top);
      assert (kept + [f])[..|kept|] == kept;
      assert kept + [] == kept;
    }
  }

  /** The rebuilt operator requires the same from below, and is rebuilt to itself. */
  lemma RebuildTwice(op: Op, child: Op, required: Schema, top: bool)
    requires Unary(op)
    ensures var next := Rebuild(op, child, required, top);
            && Unary(next) && next.child == child
            && RequiredBelow(next, required, top) == RequiredBelow(op, required, top)
               && StaysTop(next, top) == StaysTop(op, top)
            && Rebuild(next, child, required, top) == next
  {
    match op
    case Projection(ps, _, _) =>
      KeepTwice(ps, required, top);
      hide Keep, Gather, NamesOf;
    case Aggregation(aggs, _, _) =>
      KeepTwice(aggs, required, top);
      hide Keep, Gather, NamesOf;
    case Grouping(_, aggs, _, _) =>
      KeepTwice(aggs, required, top);
      hide Keep, Gather, NamesOf;
    case _ =>
      hide Gather, Either;
  }

  lemma MinimizeUnary(op: Op, required: Schema, top: bool)
    requires Unary(op)
    ensures Minimize(op, required, top)
         == Rebuild(op, Minimize(op.child, RequiredBelow(op, required, top), StaysTop(op, top)), required, top)
  {}

  lemma MinimizeJoin(op: Op, required: Schema, top: bool)
    requires op.JoinOp?
    ensures var next := Minimize(op, required, top);
            && next == JoinOp(op.condition, MinimizeAll(op.children, RequiredBelow(op, required, top)),
                              if top then op.schema else required)
            && RequiredBelow(next, required, top) == RequiredBelow(op, required, top)
  {}

  /** A second pass finds the same requirements and changes nothing, not even the order of
      attributes. */
  lemma {:induction false} MinimizeTwice(op: Op, required: Schema, top: bool)
    requires Asked(op, required, top)
    ensures Minimize(Minimize(op, required, top), required, top) == Minimize(op, required, top)
    decreases op, 1
  {
    if Unary(op) {
      var below, stays := RequiredBelow(op, required, top), StaysTop(op, top);
      AskedBelow(op, required, top);
      MinimizeTwice(op.child, below, stays);
      hide *;
      var child := Minimize(op.child, below, stays);
      RebuildTwice(op, child, required, top);
      MinimizeUnary(op, required, top);
      MinimizeUnary(Rebuild(op, child, required, top), required, top);
    } else if op.JoinOp? {
      JoinAsks(op, required, top);
      MinimizeAllTwice(op.children, RequiredBelow(op, required, top));
      hide *;
      MinimizeJoin(op, required, top);
      MinimizeJoin(Minimize(op, required, top), required, top);
    } else if op.Scan? {
      hide Both;
      BothTwice(required, op.schema);
    }
  }

  lemma {:induction false} MinimizeAllTwice(cs: OpList, below: Schema)
    requires AllWellFormed(cs) && Distinct(below)
    ensures MinimizeAll(MinimizeAll(cs, below), below) == MinimizeAll(cs, below)
    decreases cs, 0
  {
    if cs.More? {
      var c, rest := cs.head, cs.tail;
      var asked := Both(below, c.schema);
      BothMembers(below, c.schema);
      hide Both;
      MinimizeTwice(c, asked, false);
      MinimizeAllTwice(rest, below);
      SchemaBounds(c, asked, false);
      hide Minimize, Asked, Distinct;
      var s := Minimize(c, asked, false).schema;
      forall i | i in below ensures i in c.schema <==> i in s {
        assert i in Ids(below);
        assert i in s <==> i in Ids(s);
        assert i in c.schema <==> i in Ids(c.schema);
        assert i in Ids(asked) <==> i in Ids(c.schema);
      }
      BothSame(below, c.schema, s);
    }
  }

  // ------------------------------------------------------------------- rows of restricted inputs

  lemma RestrictTwice(r: Row, a: set<Id>, b: set<Id>)
    requires b <= a
    ensures Restrict(Restrict(r, a), b) == Restrict(r, b)
  {}

  lemma {:induction false} RestrictAllTwice(rows: seq<Row>, a: set<Id>, b: set<Id>)
    requires b <= a
    ensures RestrictAll(RestrictAll(rows, a), b) == RestrictAll(rows, b)
  {
    if rows != [] {
      RestrictTwice(rows[0], a, b);
      RestrictAllTwice(rows[1..], a, b);
      hide Restrict;
    }
  }

  lemma {:induction false} RestrictAllAppend(xs: seq<Row>, ys: seq<Row>, a: set<Id>)
    ensures RestrictAll(xs + ys, a) == RestrictAll(xs, a) + RestrictAll(ys, a)
  {
    if xs == [] {
      assert xs + ys == ys;
    } else {
      assert (xs + ys)[1..] == xs[1..] + ys;
      RestrictAllAppend(xs[1..], ys, a);
      hide Restrict;
    }
  }

  lemma RestrictAllStep(r: Row, rows: seq<Row>, a: set<Id>)
    ensures RestrictAll([r] + rows, a) == [Restrict(r, a)] + RestrictAll(rows, a)
  {
    assert ([r] + rows)[1..] == rows;
  }

  lemma ConditionOnRestricted(c: Condition, r: Row, a: set<Id>)
    requires LocalCondition(c, a)
    ensures c.holds(Restrict(r, a)) <==> c.holds(r)
  {
    RestrictTwice(r, a, Ids(c.required));
    assert c.holds(Restrict(r, a)) <==> c.holds(Restrict(Restrict(r, a), Ids(c.required)));
  }

  lemma {:induction false} SatisfyingRestricted(c: Condition, rows: seq<Row>, a: set<Id>)
    requires LocalCondition(c, a)
    ensures Satisfying(c, RestrictAll(rows, a)) == RestrictAll(Satisfying(c, rows), a)
  {
    if rows != [] {
      var rest := Satisfying(c, rows[1..]);
      SatisfyingRestricted(c, rows[1..], a);
      ConditionOnRestricted(c, rows[0], a);
      RestrictAllStep(rows[0], rest, a);
      assert [] + rest == rest && [] + RestrictAll(rest, a) == RestrictAll(rest, a);
      hide Restrict, LocalCondition;
    }
  }

  lemma FnOnRestricted(f: Fn<Row>, r: Row, a: set<Id>)
    requires LocalFn(f) && Ids(f.required) <= a
    ensures f.eval(Restrict(r, a)) == f.eval(r)
  {
    RestrictTwice(r, a, Ids(f.required));
    assert f.eval(Restrict(r, a)) == f.eval(Restrict(Restrict(r, a), Ids(f.required)));
  }

  lemma AggregateOnRestricted(f: Fn<seq<Row>>, rows: seq<Row>, a: set<Id>)
    requires LocalAggregate(f) && Ids(f.required) <= a
    ensures f.eval(RestrictAll(rows, a)) == f.eval(rows)
  {
    RestrictAllTwice(rows, a, Ids(f.required));
    assert f.eval(RestrictAll(rows, a)) == f.eval(RestrictAll(RestrictAll(rows, a), Ids(f.required)));
  }

  lemma {:induction false} ComputeOnRestricted(fs: seq<Fn<Row>>, r: Row, a: set<Id>)
    requires LocalFns(fs, a)
    ensures Compute(fs, Restrict(r, a)) == Compute(fs, r)
  {
    if fs != [] {
      ComputeOnRestricted(fs[..|fs| - 1], r, a);
      FnOnRestricted(fs[|fs| - 1], r, a);
      hide Restrict, LocalFn;
    }
  }

  lemma {:induction false} AggregatesOnRestricted(fs: seq<Fn<seq<Row>>>, rows: seq<Row>, a: set<Id>)
    requires LocalAggregates(fs, a)
    ensures Compute(fs, RestrictAll(rows, a)) == Compute(fs, rows)
  {
    if fs != [] {
      AggregatesOnRestricted(fs[..|fs| - 1], rows, a);
      AggregateOnRestricted(fs[|fs| - 1], rows, a);
      hide Restrict, LocalAggregate, RestrictAll;
    }
  }

  lemma {:induction false} ComputeAllOnRestricted(fs: seq<Fn<Row>>, rows: seq<Row>, a: set<Id>)
    requires LocalFns(fs, a)
    ensures ComputeAll(fs, RestrictAll(rows, a)) == ComputeAll(fs, rows)
  {
    if rows != [] {
      ComputeAllOnRestricted(fs, rows[1..], a);
      ComputeOnRestricted(fs, rows[0], a);
      hide Restrict, LocalFns, Compute;
    }
  }

  lemma {:induction false} ValuesOnRestricted(fs: seq<Fn<Row>>, r: Row, a: set<Id>)
    requires LocalFns(fs, a)
    ensures Values(fs, Restrict(r, a)) == Values(fs, r)
  {
    if fs != [] {
      ValuesOnRestricted(fs[1..], r, a);
      FnOnRestricted(fs[0], r, a);
      hide Restrict, LocalFn;
    }
  }

  lemma {:induction false} AllValuesOnRestricted(fs: seq<Fn<Row>>, rows: seq<Row>, a: set<Id>)
    requires LocalFns(fs, a)
    ensures AllValues(fs, RestrictAll(rows, a)) == AllValues(fs, rows)
  {
    if rows != [] {
      AllValuesOnRestricted(fs, rows[1..], a);
      ValuesOnRestricted(fs, rows[0], a);
      hide Restrict, LocalFns, Values;
    }
  }

  lemma {:induction false} PickRestricted(rows: seq<Row>, indices: seq<nat>, a: set<Id>)
    ensures Pick(RestrictAll(rows, a), indices) == RestrictAll(Pick(rows, indices), a)
  {
    if indices != [] {
      PickRestricted(rows, indices[1..], a);
      RestrictAllAt(rows, a);
      var rest := Pick(rows, indices[1..]);
      hide Restrict, RestrictAll;
      if indices[0] < |rows| {
        RestrictAllStep(rows[indices[0]], rest, a);
      } else {
        assert [] + rest == rest && [] + RestrictAll(rest, a) == RestrictAll(rest, a);
      }
    }
  }

  lemma SliceRestricted(rows: seq<Row>, offset: nat, limit: nat, a: set<Id>)
    ensures Slice(RestrictAll(rows, a), offset, limit) == RestrictAll(Slice(rows, offset, limit), a)
  {
    RestrictAllAt(rows, a);
    RestrictAllAt(Slice(rows, offset, limit), a);
    hide Restrict, RestrictAll;
  }

  // ------------------------------------------------------------------------- kept columns only

  lemma {:induction false} ComputedNames<T>(fs: seq<Fn<T>>, x: T)
    ensures Compute(fs, x).Keys == Ids(NamesOf(fs))
  {
    if fs != [] {
      var init, f := fs[..|fs| - 1], fs[|fs| - 1];
      ComputedNames(init, x);
      AddId(NamesOf(init), f.id);
      hide Distinct, Ids;
    }
  }

  /** What is computed for the kept columns is the restriction of what was computed before. */
  lemma {:induction false} ComputeKept<T>(fs: seq<Fn<T>>, required: Schema, top: bool, x: T)
    requires Distinct(NamesOf(fs))
    ensures Compute(Keep(fs, required, top), x) == Restrict(Compute(fs, x), Ids(NamesOf(Keep(fs, required, top))))
  {
    if fs == [] {
      assert Keep(fs, required, top) == [];
    } else {
      var init, f := fs[..|fs| - 1], fs[|fs| - 1];
      assert fs[..|fs| - 1 + 1] == fs;
      hide Distinct, Keep, NamesOf, Ids, Compute, Restrict;
      KeepStep(fs, |fs| - 1, required, top);
      NamesSplit(init, f, fs);
      ComputeKept(init, required, top, x);
      ComputeKeptStep(init, f, required, top, x);
      assert init + [f] == fs;
    }
  }

  lemma NamesSplit<T>(init: seq<Fn<T>>, f: Fn<T>, fs: seq<Fn<T>>)
    requires fs == init + [f] && Distinct(NamesOf(fs))
    ensures Distinct(NamesOf(init)) && f.id !in Ids(NamesOf(init))
  {
    assert fs[..|fs| - 1] == init;
    AddId(NamesOf(init), f.id);
    hide Distinct;
  }

  lemma ComputeStep<T>(fs: seq<Fn<T>>, f: Fn<T>, x: T)
    ensures Compute(fs + [f], x) == Compute(fs, x)[f.id := f.eval(x)]
  {
    assert (fs + [f])[..|fs|] == fs;
  }

  lemma ComputeKeptStep<T>(fs: seq<Fn<T>>, f: Fn<T>, required: Schema, top: bool, x: T)
    requires Distinct(NamesOf(fs)) && f.id !in Ids(NamesOf(fs))
    requires Compute(Keep(fs, required, top), x) == Restrict(Compute(fs, x), Ids(NamesOf(Keep(fs, required, top))))
    ensures var kept := Keep(fs, required, top) + if top || f.id in required then [f] else [];
            Compute(kept, x) == Restrict(Compute(fs + [f], x), Ids(NamesOf(kept)))
  {
    var kept := Keep(fs, required, top);
    KeptNames(fs, required, top);
    hide Distinct, Keep, Restrict, Compute, NamesOf, Ids;
    ComputeStep(fs, f, x);
    ComputeStep(kept, f, x);
    NamesAppend(kept, f);
    AddId(NamesOf(kept), f.id);
    ComputedNames(fs, x);
    RestrictUpdated(Compute(fs, x), f.id, f.eval(x), Ids(NamesOf(kept)));
    assert kept + [] == kept;
  }

  lemma RestrictUpdated(r: Row, i: Id, v: Tuple, a: set<Id>)
    requires i !in r.Keys && a <= r.Keys
    ensures Restrict(r[i := v], a) == Restrict(r, a)
    ensures Restrict(r[i := v], a + {i}) == Restrict(r, a)[i := v]
  {}

  lemma {:induction false} ComputeAllKept<T>(fs: seq<Fn<T>>, required: Schema, top: bool, xs: seq<T>)
    requires Distinct(NamesOf(fs))
    ensures ComputeAll(Keep(fs, required, top), xs)
            == RestrictAll(ComputeAll(fs, xs), Ids(NamesOf(Keep(fs, required, top))))
  {
    if xs != [] {
      ComputeAllKept(fs, required, top, xs[1..]);
      ComputeKept(fs, required, top, xs[0]);
      hide Keep, Compute, NamesOf, Ids, Restrict;
    }
  }

  // ------------------------------------------------------------------------------- groups

  function RestrictGroups(gs: seq<seq<Row>>, a: set<Id>): seq<seq<Row>> {
    if gs == [] then [] else [RestrictAll(gs[0], a)] + RestrictGroups(gs[1..], a)
  }

  lemma {:induction false} WithKeyRestricted(keys: seq<Fn<Row>>, k: seq<Tuple>, with: bool, rows: seq<Row>, a: set<Id>)
    requires LocalFns(keys, a)
    ensures WithKey(keys, k, with, RestrictAll(rows, a)) == RestrictAll(WithKey(keys, k, with, rows), a)
  {
    if rows != [] {
      var rest := WithKey(keys, k, with, rows[1..]);
      WithKeyRestricted(keys, k, with, rows[1..], a);
      ValuesOnRestricted(keys, rows[0], a);
      RestrictAllStep(rows[0], rest, a);
      assert [] + rest == rest && [] + RestrictAll(rest, a) == RestrictAll(rest, a);
      hide Restrict, LocalFns, Values;
    }
  }

  lemma {:induction false} GroupsRestricted(keys: seq<Fn<Row>>, rows: seq<Row>, a: set<Id>)
    requires LocalFns(keys, a)
    ensures Groups(keys, RestrictAll(rows, a)) == RestrictGroups(Groups(keys, rows), a)
    decreases |rows|
  {
    if rows != [] {
      var k := Values(keys, rows[0]);
      var others := WithKey(keys, k, false, rows[1..]);
      GroupsRestricted(keys, others, a);
      WithKeyRestricted(keys, k, true, rows[1..], a);
      WithKeyRestricted(keys, k, false, rows[1..], a);
      ValuesOnRestricted(keys, rows[0], a);
      RestrictAllStep(rows[0], WithKey(keys, k, true, rows[1..]), a);
      hide Restrict, LocalFns, Values, WithKey;
    }
  }

  ghost predicate NonemptyGroups(gs: seq<seq<Row>>) {
    forall i :: 0 <= i < |gs| ==> gs[i] != []
  }

  lemma {:induction false} GroupsNonempty(keys: seq<Fn<Row>>, rows: seq<Row>)
    ensures NonemptyGroups(Groups(keys, rows))
    decreases |rows|
  {
    if rows != [] {
      GroupsNonempty(keys, WithKey(keys, Values(keys, rows[0]), false, rows[1..]));
      hide WithKey, Values;
    }
  }

  lemma GroupRowKept(keys: seq<Fn<Row>>, aggs: seq<Fn<seq<Row>>>, required: Schema, top: bool, g: seq<Row>, a: set<Id>)
    requires g != [] && Distinct(NamesOf(keys) + NamesOf(aggs))
    requires var kept := Keep(aggs, required, top); LocalFns(keys, a) && LocalAggregates(kept, a)
    ensures var kept := Keep(aggs, required, top);
            GroupRow(keys, kept, RestrictAll(g, a))
              == Restrict(GroupRow(keys, aggs, g), Ids(NamesOf(keys) + NamesOf(kept)))
  {
    var kept := Keep(aggs, required, top);
    DistinctParts(NamesOf(keys), NamesOf(aggs));
    RestrictAllAt(g, a);
    hide LocalFns, LocalAggregates, Keep, Distinct, NamesOf, Restrict, RestrictAll, Compute, Ids;
    ComputeOnRestricted(keys, g[0], a);
    AggregatesOnRestricted(kept, g, a);
    ComputeKept(aggs, required, top, g);
    KeptNames(aggs, required, top);
    JoinDistinct(NamesOf(keys), NamesOf(kept));
    ComputedNames(keys, g[0]);
    ComputedNames(aggs, g);
    RestrictBoth(Compute(keys, g[0]), Compute(aggs, g), Ids(NamesOf(kept)));
  }

  lemma RestrictBoth(r: Row, q: Row, a: set<Id>)
    requires r.Keys !! q.Keys && a <= q.Keys
    ensures Restrict(r + q, r.Keys + a) == r + Restrict(q, a)
  {}

  lemma {:induction false} GroupRowsKept(keys: seq<Fn<Row>>, aggs: seq<Fn<seq<Row>>>, required: Schema, top: bool,
                                         gs: seq<seq<Row>>, a: set<Id>)
    requires NonemptyGroups(gs) && Distinct(NamesOf(keys) + NamesOf(aggs))
    requires var kept := Keep(aggs, required, top); LocalFns(keys, a) && LocalAggregates(kept, a)
    ensures var kept := Keep(aggs, required, top);
            GroupRows(keys, kept, RestrictGroups(gs, a))
              == RestrictAll(GroupRows(keys, aggs, gs), Ids(NamesOf(keys) + NamesOf(kept)))
  {
    if gs != [] {
      GroupRowKept(keys, aggs, required, top, gs[0], a);
      GroupRowsKept(keys, aggs, required, top, gs[1..], a);
      hide LocalFns, LocalAggregates, Keep, Distinct, NamesOf, Restrict, GroupRow, Ids;
    }
  }

  // --------------------------------------------------------------------------- cross products

  ghost predicate Keyed(rows: seq<Row>, s: set<Id>) {
    forall i :: 0 <= i < |rows| ==> rows[i].Keys <= s
  }

  lemma {:induction false} RestrictAllKeyed(rows: seq<Row>, a: set<Id>)
    ensures Keyed(RestrictAll(rows, a), a)
  {
    RestrictAllAt(rows, a);
    hide RestrictAll;
  }

  lemma KeyedIsRestricted(rows: seq<Row>, a: set<Id>)
    requires Keyed(rows, a)
    ensures RestrictAll(rows, a) == rows
  {
    RestrictAllAt(rows, a);
    hide RestrictAll;
    forall i | 0 <= i < |rows| ensures Restrict(rows[i], a) == rows[i] {}
  }

  lemma {:induction false} ExtendRestricted(r: Row, ys: seq<Row>, s: set<Id>, t: set<Id>, a: set<Id>, b: set<Id>)
    requires r.Keys <= s && Keyed(ys, t) && s !! t && a <= s && b <= t
    ensures Extend(Restrict(r, a), RestrictAll(ys, b)) == RestrictAll(Extend(r, ys), a + b)
    ensures Keyed(Extend(r, ys), s + t)
  {
    if ys != [] {
      ExtendRestricted(r, ys[1..], s, t, a, b);
      RestrictJoined(r, ys[0], s, t, a, b);
      RestrictAllStep(r + ys[0], Extend(r, ys[1..]), a + b);
      hide Restrict;
    }
  }

  lemma RestrictJoined(r: Row, q: Row, s: set<Id>, t: set<Id>, a: set<Id>, b: set<Id>)
    requires r.Keys <= s && q.Keys <= t && s !! t && a <= s && b <= t
    ensures Restrict(r, a) + Restrict(q, b) == Restrict(r + q, a + b)
  {}

  lemma {:induction false} CrossRestricted(xs: seq<Row>, ys: seq<Row>, s: set<Id>, t: set<Id>, a: set<Id>, b: set<Id>)
    requires Keyed(xs, s) && Keyed(ys, t) && s !! t && a <= s && b <= t
    ensures Cross(RestrictAll(xs, a), RestrictAll(ys, b)) == RestrictAll(Cross(xs, ys), a + b)
    ensures Keyed(Cross(xs, ys), s + t)
  {
    if xs != [] {
      CrossRestricted(xs[1..], ys, s, t, a, b);
      ExtendRestricted(xs[0], ys, s, t, a, b);
      RestrictAllAppend(Extend(xs[0], ys), Cross(xs[1..], ys), a + b);
      hide Restrict, Extend;
    }
  }

  // ------------------------------------------------------------------------ the whole plan

  lemma {:induction false} ComputeAllKeyed<T>(fs: seq<Fn<T>>, xs: seq<T>)
    ensures Keyed(ComputeAll(fs, xs), Ids(NamesOf(fs)))
  {
    if xs != [] {
      ComputeAllKeyed(fs, xs[1..]);
      ComputedNames(fs, xs[0]);
      hide Compute, NamesOf, Ids;
    }
  }

  lemma {:induction false} GroupRowsKeyed(keys: seq<Fn<Row>>, aggs: seq<Fn<seq<Row>>>, gs: seq<seq<Row>>)
    ensures Keyed(GroupRows(keys, aggs, gs), Ids(NamesOf(keys) + NamesOf(aggs)))
  {
    if gs != [] {
      GroupRowsKeyed(keys, aggs, gs[1..]);
      if gs[0] != [] {
        ComputedNames(keys, gs[0][0]);
      }
      ComputedNames(aggs, gs[0]);
      assert Ids(NamesOf(keys) + NamesOf(aggs)) == Ids(NamesOf(keys)) + Ids(NamesOf(aggs));
      hide Compute, NamesOf, Ids;
    }
  }

  /** An operator yields rows over its schema. */
  lemma {:induction false} OutputKeyed(op: Op)
    requires WellFormed(op)
    ensures Keyed(Output(op), Ids(op.schema))
    decreases op, 1
  {
    hide LocalFns, LocalAggregates, LocalCondition, Distinct, Keyed, Ids, NamesOf;
    hide RestrictAll, ComputeAll, Compute, GroupRows, Groups, Slice, Pick, Satisfying;
    match op
    case NoInput(_) => OneKeyed(map[], Ids([]));
    case Scan(table, s) => RestrictAllKeyed(table, Ids(s));
    case Pass(c, _) => OutputKeyed(c);
    case FilterOp(cond, c, s) => RestrictAllKeyed(Satisfying(cond, Output(c)), Ids(s));
    case JoinOp(cond, cs, s) => RestrictAllKeyed(Satisfying(cond, CrossAll(cs)), Ids(s));
    case Projection(ps, c, _) => ComputeAllKeyed(ps, Output(c));
    case Limit(limit, offset, c, s) =>
      OutputKeyed(c);
      SliceKeyed(Output(c), offset, limit, Ids(s));
    case Grouping(keys, aggs, c, _) => GroupRowsKeyed(keys, aggs, Groups(keys, Output(c)));
    case Aggregation(aggs, c, s) =>
      ComputedNames(aggs, Output(c));
      OneKeyed(Compute(aggs, Output(c)), Ids(s));
    case Sorting(fs, order, c, s) => RestrictAllKeyed(Pick(Output(c), order(AllValues(fs, Output(c)))), Ids(s));
  }

  lemma OneKeyed(r: Row, a: set<Id>)
    requires r.Keys <= a
    ensures Keyed([r], a)
  {}

  lemma SliceKeyed(rows: seq<Row>, offset: nat, limit: nat, a: set<Id>)
    requires Keyed(rows, a)
    ensures Keyed(Slice(rows, offset, limit), a)
  {}

  lemma {:induction false} CrossAllKeyed(cs: OpList)
    requires AllWellFormed(cs)
    ensures Keyed(CrossAll(cs), SchemasOf(cs))
    decreases cs, 0
  {
    if cs.More? {
      OutputKeyed(cs.head);
      CrossAllKeyed(cs.tail);
      CrossRestricted(Output(cs.head), CrossAll(cs.tail), Ids(cs.head.schema), SchemasOf(cs.tail), {}, {});
      hide *;
    }
  }

  ghost predicate SamePart(op: Op, next: Op) {
    Output(next) == RestrictAll(Output(op), Ids(next.schema))
  }

  /** A condition on rows that lack only what neither it nor anything above reads. */
  lemma SelectedPart(cond: Condition, rows: seq<Row>, a: set<Id>, outer: set<Id>, inner: set<Id>)
    requires LocalCondition(cond, a) && inner <= a && inner <= outer
    ensures RestrictAll(Satisfying(cond, RestrictAll(rows, a)), inner)
         == RestrictAll(RestrictAll(Satisfying(cond, rows), outer), inner)
  {
    SatisfyingRestricted(cond, rows, a);
    RestrictAllTwice(Satisfying(cond, rows), a, inner);
    RestrictAllTwice(Satisfying(cond, rows), outer, inner);
    hide *;
  }

  lemma SortedPart(fs: seq<Fn<Row>>, order: seq<seq<Tuple>> -> seq<nat>, rows: seq<Row>, a: set<Id>, outer: set<Id>,
                   inner: set<Id>)
    requires LocalFns(fs, a) && inner <= a && inner <= outer
    ensures var cut := RestrictAll(rows, a);
            RestrictAll(Pick(cut, order(AllValues(fs, cut))), inner)
            == RestrictAll(RestrictAll(Pick(rows, order(AllValues(fs, rows))), outer), inner)
  {
    AllValuesOnRestricted(fs, rows, a);
    var picked := order(AllValues(fs, rows));
    PickRestricted(rows, picked, a);
    RestrictAllTwice(Pick(rows, picked), a, inner);
    RestrictAllTwice(Pick(rows, picked), outer, inner);
    hide *;
  }

  lemma ProjectedPart(ps: seq<Fn<Row>>, required: Schema, top: bool, rows: seq<Row>, a: set<Id>)
    requires Distinct(NamesOf(ps)) && LocalFns(Keep(ps, required, top), a)
    ensures var kept := Keep(ps, required, top);
            ComputeAll(kept, RestrictAll(rows, a)) == RestrictAll(ComputeAll(ps, rows), Ids(NamesOf(kept)))
  {
    ComputeAllOnRestricted(Keep(ps, required, top), rows, a);
    ComputeAllKept(ps, required, top, rows);
    hide *;
  }

  lemma GroupedPart(keys: seq<Fn<Row>>, aggs: seq<Fn<seq<Row>>>, required: Schema, top: bool, rows: seq<Row>,
                    a: set<Id>)
    requires Distinct(NamesOf(keys) + NamesOf(aggs))
    requires LocalFns(keys, a) && LocalAggregates(Keep(aggs, required, top), a)
    ensures var kept := Keep(aggs, required, top);
            GroupRows(keys, kept, Groups(keys, RestrictAll(rows, a)))
            == RestrictAll(GroupRows(keys, aggs, Groups(keys, rows)), Ids(NamesOf(keys) + NamesOf(kept)))
  {
    GroupsRestricted(keys, rows, a);
    GroupsNonempty(keys, rows);
    GroupRowsKept(keys, aggs, required, top, Groups(keys, rows), a);
    hide *;
  }

  lemma AggregatedPart(aggs: seq<Fn<seq<Row>>>, required: Schema, top: bool, rows: seq<Row>, a: set<Id>)
    requires Distinct(NamesOf(aggs)) && LocalAggregates(Keep(aggs, required, top), a)
    ensures var kept := Keep(aggs, required, top);
            [Compute(kept, RestrictAll(rows, a))] == RestrictAll([Compute(aggs, rows)], Ids(NamesOf(kept)))
  {
    var kept := Keep(aggs, required, top);
    AggregatesOnRestricted(kept, rows, a);
    ComputeKept(aggs, required, top, rows);
    RestrictAllStep(Compute(aggs, rows), [], Ids(NamesOf(kept)));
    NoRows(Ids(NamesOf(kept)));
    hide *;
    assert [Compute(aggs, rows)] + [] == [Compute(aggs, rows)];
  }

  lemma NoRows(a: set<Id>)
    ensures RestrictAll([], a) == []
  {}

  // -------------------------------------------------------- what the children still provide

  lemma {:induction false} KeptRequire<T>(fs: seq<Fn<T>>, required: Schema, top: bool, f: Fn<T>)
    requires f in Keep(fs, required, top)
    ensures f in fs && Ids(f.required) <= RequiredIds(Keep(fs, required, top))
  {
    KeptAreSome(fs, required, top);
    hide Keep;
  }

  lemma EnoughForKept(fs: seq<Fn<Row>>, required: Schema, top: bool, below: set<Id>, a: set<Id>)
    requires LocalFns(fs, below) && RequiredIds(Keep(fs, required, top)) <= a
    ensures LocalFns(Keep(fs, required, top), a)
  {
    hide LocalFn;
    forall f | f in Keep(fs, required, top) ensures Ids(f.required) <= a && LocalFn(f) {
      KeptRequire(fs, required, top, f);
    }
  }

  lemma EnoughForAggregates(fs: seq<Fn<seq<Row>>>, required: Schema, top: bool, below: set<Id>, a: set<Id>)
    requires LocalAggregates(fs, below) && RequiredIds(Keep(fs, required, top)) <= a
    ensures LocalAggregates(Keep(fs, required, top), a)
  {
    hide LocalAggregate;
    forall f | f in Keep(fs, required, top) ensures Ids(f.required) <= a && LocalAggregate(f) {
      KeptRequire(fs, required, top, f);
    }
  }

  lemma EnoughForAll(fs: seq<Fn<Row>>, below: set<Id>, a: set<Id>)
    requires LocalFns(fs, below) && RequiredIds(fs) <= a
    ensures LocalFns(fs, a)
  {
    hide LocalFn;
    forall f | f in fs ensures Ids(f.required) <= a {
      forall i | i in Ids(f.required) ensures i in a {
        assert i in RequiredIds(fs);
      }
    }
  }

  /** The minimised child of an operator still provides everything that the operator reads. */
  lemma ChildProvides(op: Op, required: Schema, top: bool, a: set<Id>)
    requires Asked(op, required, top) && Unary(op)
    requires !op.Pass? && !op.Limit? && Ids(RequiredBelow(op, required, top)) <= a
    ensures op.FilterOp? ==> LocalCondition(op.condition, a) && Ids(if top then op.schema else required) <= a
    ensures op.Sorting? ==> LocalFns(op.orderBy, a) && Ids(if top then op.schema else required) <= a
    ensures op.Projection? ==> LocalFns(Keep(op.projections, required, top), a)
    ensures op.Grouping? ==> LocalFns(op.keys, a) && LocalAggregates(Keep(op.aggregates, required, top), a)
    ensures op.Aggregation? ==> LocalAggregates(Keep(op.aggregates, required, top), a)
  {
    hide Distinct, Keep, Gather, Either, LocalFns, LocalAggregates;
    NoIds();
    match op
    case FilterOp(cond, c, _) =>
      EitherMembers(required, cond.required);
    case Sorting(fs, _, c, _) =>
      GatherMembers(required, fs);
      if top {
        MoreForAll(fs, Ids(c.schema), a);
      } else {
        EnoughForAll(fs, Ids(c.schema), a);
      }
    case Projection(ps, c, _) =>
      GatherMembers([], Keep(ps, required, top));
      EnoughForKept(ps, required, top, Ids(c.schema), a);
    case Grouping(keys, aggs, c, _) =>
      GatherMembers([], keys);
      GatherMembers(Gather([], keys), Keep(aggs, required, top));
      EnoughForAll(keys, Ids(c.schema), a);
      EnoughForAggregates(aggs, required, top, Ids(c.schema), a);
    case Aggregation(aggs, c, _) =>
      GatherMembers([], Keep(aggs, required, top));
      EnoughForAggregates(aggs, required, top, Ids(c.schema), a);
    case _ =>
  }

  lemma MoreForAll(fs: seq<Fn<Row>>, below: set<Id>, a: set<Id>)
    requires LocalFns(fs, below) && below <= a
    ensures LocalFns(fs, a)
  {
    hide LocalFn;
  }

  lemma EmptyRow()
    ensures RestrictAll([map[]], {}) == [map[]]
  {
    assert Restrict(map[], {}) == map[];
  }

  lemma ScanPart(op: Op, required: Schema, top: bool)
    requires op.Scan?
    ensures SamePart(op, Minimize(op, required, top))
  {
    var s := op.schema;
    BothMembers(required, s);
    RestrictAllTwice(op.table, Ids(s), Ids(s));
    RestrictAllTwice(op.table, Ids(s), Ids(Both(required, s)));
    hide Both, Ids, RestrictAll;
  }

  /** An operator over a child that provides enough of the old rows. */
  lemma UnaryPart(op: Op, child: Op, required: Schema, top: bool)
    requires Unary(op) && Distinct(op.schema) && SamePart(op.child, child)
    requires op.FilterOp? || op.Sorting? ==>
               Ids(if top then op.schema else required) <= Ids(op.schema) * Ids(child.schema)
    requires op.FilterOp? ==> LocalCondition(op.condition, Ids(child.schema))
    requires op.Sorting? ==> LocalFns(op.orderBy, Ids(child.schema))
    requires op.Projection? ==>
               op.schema == NamesOf(op.projections) && LocalFns(Keep(op.projections, required, top), Ids(child.schema))
    requires op.Grouping? ==>
               op.schema == NamesOf(op.keys) + NamesOf(op.aggregates) && LocalFns(op.keys, Ids(child.schema))
                              && LocalAggregates(Keep(op.aggregates, required, top), Ids(child.schema))
    requires op.Aggregation? ==>
               op.schema == NamesOf(op.aggregates)
                 && LocalAggregates(Keep(op.aggregates, required, top), Ids(child.schema))
    ensures SamePart(op, Rebuild(op, child, required, top))
  {
    var rows, a := Output(op.child), Ids(child.schema);
    assert Output(child) == RestrictAll(rows, a);
    hide Keep, LocalFns, LocalAggregates, LocalCondition, NamesOf, RestrictAll, Satisfying, AllValues, Pick, Ids,
        Distinct;
    hide ComputeAll, Compute, Groups, GroupRows, Slice;
    match op
    case Pass(_, _) =>
    case Limit(limit, offset, _, _) =>
      SliceRestricted(rows, offset, limit, a);
    case FilterOp(cond, _, s) =>
      SelectedPart(cond, rows, a, Ids(s), Ids(if top then s else required));
    case Sorting(fs, order, _, s) =>
      SortedPart(fs, order, rows, a, Ids(s), Ids(if top then s else required));
    case Projection(ps, _, _) =>
      ProjectedPart(ps, required, top, rows, a);
    case Grouping(keys, aggs, _, _) =>
      GroupedPart(keys, aggs, required, top, rows, a);
    case Aggregation(aggs, _, _) =>
      AggregatedPart(aggs, required, top, rows, a);
  }

  lemma UnaryAsked(op: Op, required: Schema, top: bool)
    requires Asked(op, required, top) && Unary(op)
    ensures Distinct(op.schema)
    ensures op.FilterOp? || op.Sorting? ==> Ids(if top then op.schema else required) <= Ids(op.schema)
    ensures op.Projection? ==> op.schema == NamesOf(op.projections)
    ensures op.Grouping? ==> op.schema == NamesOf(op.keys) + NamesOf(op.aggregates)
    ensures op.Aggregation? ==> op.schema == NamesOf(op.aggregates)
  {}

  /** The theorem: row for row and in order, the minimised plan yields the old rows restricted to
      the new schema. */
  lemma {:induction false} MinimizePreservesRows(op: Op, required: Schema, top: bool)
    requires Asked(op, required, top)
    ensures SamePart(op, Minimize(op, required, top))
    decreases op, 1
  {
    if op.NoInput? {
      EmptyRow();
    } else if op.Scan? {
      ScanPart(op, required, top);
    } else if op.JoinOp? {
      JoinAsks(op, required, top);
      MinimizePreservesProducts(op.children, RequiredBelow(op, required, top));
      JoinPart(op, required, top);
    } else {
      var below, stays := RequiredBelow(op, required, top), StaysTop(op, top);
      AskedBelow(op, required, top);
      MinimizePreservesRows(op.child, below, stays);
      SchemaBounds(op.child, below, stays);
      UnaryAsked(op, required, top);
      var child := Minimize(op.child, below, stays);
      if !op.Pass? && !op.Limit? {
        ChildProvides(op, required, top, Ids(child.schema));
      }
      assert Minimize(op, required, top) == Rebuild(op, child, required, top);
      hide *;
      UnaryPart(op, child, required, top);
    }
  }

  lemma {:induction false} MinimizePreservesProducts(cs: OpList, below: Schema)
    requires AllWellFormed(cs) && Distinct(below)
    ensures var next := MinimizeAll(cs, below);
            && CrossAll(next) == RestrictAll(CrossAll(cs), SchemasOf(next))
            && Ids(below) * SchemasOf(cs) <= SchemasOf(next) <= SchemasOf(cs)
    decreases cs, 0
  {
    if cs.None? {
      EmptyRow();
    } else {
      var c, rest := cs.head, cs.tail;
      var asked := Both(below, c.schema);
      BothMembers(below, c.schema);
      MinimizePreservesRows(c, asked, false);
      SchemaBounds(c, asked, false);
      MinimizePreservesProducts(rest, below);
      OutputKeyed(c);
      CrossAllKeyed(rest);
      var head, tail := Minimize(c, asked, false), MinimizeAll(rest, below);
      hide Distinct, WellFormed, Ids, Both, Minimize, Output, Cross, RestrictAll, Keyed;
      CrossRestricted(Output(c), CrossAll(rest), Ids(c.schema), SchemasOf(rest), Ids(head.schema), SchemasOf(tail));
    }
  }

  lemma JoinPart(op: Op, required: Schema, top: bool)
    requires Asked(op, required, top) && op.JoinOp?
    requires var next := MinimizeAll(op.children, RequiredBelow(op, required, top));
             && CrossAll(next) == RestrictAll(CrossAll(op.children), SchemasOf(next))
             && Ids(RequiredBelow(op, required, top)) * SchemasOf(op.children) <= SchemasOf(next)
    ensures SamePart(op, Minimize(op, required, top))
  {
    var ours := if top then op.schema else required;
    var a := SchemasOf(MinimizeAll(op.children, RequiredBelow(op, required, top)));
    EitherMembers(required, op.condition.required);
    assert LocalCondition(op.condition, a) && Ids(ours) <= a && Ids(ours) <= Ids(op.schema);
    hide LocalCondition, Satisfying, RestrictAll, WellFormed, Either, MinimizeAll, CrossAll, Ids;
    SelectedPart(op.condition, CrossAll(op.children), a, Ids(op.schema), Ids(ours));
  }

  /** The pass as it is run on a whole plan. */
  method MinimizeSchema(op: Op) returns (next: Op)
    requires WellFormed(op) && Runnable(op)
    ensures Output(next) == Output(op) && Ids(next.schema) == Ids(op.schema)
    ensures Minimize(next, [], true) == next
  {
    var minimizer := new SchemaMinimizer();
    next := minimizer.Visit(op);
    MinimizePreservesRows(op, [], true);
    SchemaBounds(op, [], true);
    MinimizeTwice(op, [], true);
    OutputKeyed(op);
    KeyedIsRestricted(Output(op), Ids(op.schema));
    hide *;
    SamePartMeans(op, next);
  }

  lemma SamePartMeans(op: Op, next: Op)
    requires SamePart(op, next) && Ids(next.schema) == Ids(op.schema)
    ensures Output(next) == RestrictAll(Output(op), Ids(op.schema))
  {}

  /** Every projection, or every aggregation, computes something that is required above it. */
  predicate KeepsSome(op: Op, required: Schema, top: bool, lists: Lists)
    decreases op
  {
    match op
    case NoInput(_) => true
    case Scan(_, _) => true
    case JoinOp(_, cs, _) => AllKeepSome(cs, RequiredBelow(op, required, top), lists)
    case Projection(ps, c, _) =>
      (lists == Projections ==> KeepsAny(ps, required, top))
        && KeepsSome(c, RequiredBelow(op, required, top), false, lists)
    case Aggregation(aggs, c, _) =>
      (lists == Aggregates ==> KeepsAny(aggs, required, top))
        && KeepsSome(c, RequiredBelow(op, required, top), false, lists)
    case _ => KeepsSome(op.child, RequiredBelow(op, required, top), StaysTop(op, top), lists)
  }

  predicate KeepsAny<T>(fs: seq<Fn<T>>, required: Schema, top: bool) {
    exists i :: 0 <= i < |fs| && (top || fs[i].id in required)
  }

  predicate AllKeepSome(cs: OpList, below: Schema, lists: Lists)
    decreases cs
  {
    match cs
    case None => true
    case More(c, rest) => KeepsSome(c, Both(below, c.schema), false, lists) && AllKeepSome(rest, below, lists)
  }

  lemma {:induction false} KeepNone<T>(fs: seq<Fn<T>>, required: Schema, top: bool)
    ensures Keep(fs, required, top) != [] <==> KeepsAny(fs, required, top)
  {
    if fs != [] {
      var k := |fs| - 1;
      KeepNone(fs[..k], required, top);
      assert forall i :: 0 <= i < k ==> fs[..k][i] == fs[i];
      if KeepsAny(fs, required, top) {
        var i :| 0 <= i < |fs| && (top || fs[i].id in required);
        assert i < k ==> fs[..k][i] == fs[i];
      }
    }
  }

  /** The pass leaves aggregates, or projections, everywhere exactly if none of them loses all: only
      then the second pass meets its assertion, or refers to elements that exist. */
  lemma {:induction false} SecondPassRuns(op: Op, required: Schema, top: bool, lists: Lists)
    ensures Occupied(Minimize(op, required, top), lists) <==> KeepsSome(op, required, top, lists)
    decreases op
  {
    if Unary(op) {
      var below, stays := RequiredBelow(op, required, top), StaysTop(op, top);
      SecondPassRuns(op.child, below, stays, lists);
      OccupiedAfter(op, Minimize(op.child, below, stays), required, top, lists);
      hide *;
      MinimizeUnary(op, required, top);
    } else if op.JoinOp? {
      SecondPassesRun(op.children, RequiredBelow(op, required, top), lists);
      hide RequiredBelow;
    }
  }

  lemma OccupiedAfter(op: Op, child: Op, required: Schema, top: bool, lists: Lists)
    requires Unary(op)
    requires Occupied(child, lists) <==> KeepsSome(op.child, RequiredBelow(op, required, top), StaysTop(op, top), lists)
    ensures Occupied(Rebuild(op, child, required, top), lists) <==> KeepsSome(op, required, top, lists)
  {
    if op.Projection? {
      KeepNone(op.projections, required, top);
    } else if op.Aggregation? {
      KeepNone(op.aggregates, required, top);
    }
    hide Keep, KeepsAny, RequiredBelow, NamesOf;
  }

  lemma {:induction false} SecondPassesRun(cs: OpList, below: Schema, lists: Lists)
    ensures AllOccupied(MinimizeAll(cs, below), lists) <==> AllKeepSome(cs, below, lists)
    decreases cs
  {
    if cs.More? {
      SecondPassRuns(cs.head, Both(below, cs.head.schema), false, lists);
      SecondPassesRun(cs.tail, below, lists);
      hide Occupied, Minimize, KeepsSome, Both;
    }
  }

  function Count(): Fn<seq<Row>> {
    Fn(0, [], (rows: seq<Row>) => [|rows|])
  }

  function One(): Fn<Row> {
    Fn(1, [], (r: Row) => [1])
  }

  lemma SingleFunctions()
    ensures NamesOf([Count()]) == [0] && NamesOf([One()]) == [1]
    ensures Keep([One()], [], true) == [One()] && Keep([Count()], [], false) == []
    ensures Gather([], [One()]) == []
    ensures LocalFns([One()], {0}) && LocalAggregates([Count()], {})
  {
    assert [One()][..0] == [] && [Count()][..0] == [];
    forall rows: seq<Row> ensures |RestrictAll(rows, {})| == |rows| {
      RestrictAllAt(rows, {});
    }
    assert Ids([]) == {};
    assert LocalFn(One()) && LocalAggregate(Count());
  }

  function UnwantedCount(): Op {
    Projection([One()], Aggregation([Count()], Scan([], []), [0]), [1])
  }

  lemma UnwantedCountIsWellFormed()
    ensures WellFormed(UnwantedCount()) && Runnable(UnwantedCount())
  {
    SingleFunctions();
    hide NamesOf, LocalFns, LocalAggregates, Count, One;
    assert Ids([0]) == {0} && Ids([]) == {};
  }

  /** Counting rows whose count nobody wants: the pass leaves an aggregation without aggregates,
      over which its assertion fails. */
  lemma SecondPassCanFail()
    ensures WellFormed(UnwantedCount()) && Runnable(UnwantedCount())
    ensures !Occupied(Minimize(UnwantedCount(), [], true), Aggregates)
    ensures Occupied(Minimize(UnwantedCount(), [], true), Projections)
  {
    UnwantedCountIsWellFormed();
    SecondPassRuns(UnwantedCount(), [], true, Aggregates);
    SecondPassRuns(UnwantedCount(), [], true, Projections);
    SingleFunctions();
    hide WellFormed, Occupied, Minimize, Keep, Gather, NamesOf, Count, One;
    assert !KeepsAny([Count()], [], false);
    var first := [One()][0];
    assert first == One() && KeepsAny([One()], [], true);
    var counting := Aggregation([Count()], Scan([], []), [0]);
    assert !KeepsSome(counting, [], false, Aggregates) && KeepsSome(counting, [], false, Projections);
  }
}
