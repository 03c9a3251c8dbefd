/** What the semantics of operators comes to, said position by position. */
module OperatorMeaning {
  import opened Relations
  import opened Operators

  // --------------------------------------------------------------------------------- choosing

  /** The positions `at`, in ascending order, are those of the rows to keep. */
  ghost predicate Chosen(rows: seq<Row>, keep: Row -> bool, at: seq<nat>) {
    && (forall i, j :: 0 <= i < j < |at| ==> at[i] < at[j])
    && (forall i :: 0 <= i < |at| ==> at[i] < |rows|)
    && forall k: nat :: k < |rows| ==> (k in at <==> keep(rows[k]))
  }

  function Shifted(at: seq<nat>): (further: seq<nat>)
    ensures |further| == |at| && forall i :: 0 <= i < |at| ==> further[i] == at[i] + 1
  {
    seq(|at|, i requires 0 <= i < |at| => at[i] + 1)
  }

  lemma ChosenStep(rows: seq<Row>, keep: Row -> bool, at: seq<nat>)
    requires rows != [] && Chosen(rows[1..], keep, at)
    ensures Chosen(rows, keep, (if keep(rows[0]) then [0] else []) + Shifted(at))
  {
    var first, further := if keep(rows[0]) then [0] else [], Shifted(at);
    var all := first + further;
    forall k: nat | k < |rows| ensures k in all <==> keep(rows[k]) {
      if k == 0 {
        assert forall i :: 0 <= i < |further| ==> further[i] > 0;
      } else {
        assert rows[k] == rows[1..][k - 1];
        ShiftedMembers(at, k);
      }
    }
  }

  lemma ShiftedMembers(at: seq<nat>, k: nat)
    requires k > 0
    ensures k in Shifted(at) <==> k - 1 in at
  {
    if i: nat :| i < |at| && at[i] == k - 1 {
      assert Shifted(at)[i] == k;
    }
  }

  /** `some` are the rows to keep, in order. */
  ghost predicate Keeps(rows: seq<Row>, keep: Row -> bool, at: seq<nat>, some: seq<Row>) {
    Chosen(rows, keep, at) && |some| == |at| && forall i :: 0 <= i < |at| ==> some[i] == rows[at[i]]
  }

  lemma KeepsStep(rows: seq<Row>, keep: Row -> bool, at: seq<nat>, some: seq<Row>)
    requires rows != [] && Keeps(rows[1..], keep, at, some)
    ensures Keeps(rows, keep, (if keep(rows[0]) then [0] else []) + Shifted(at),
                  (if keep(rows[0]) then [rows[0]] else []) + some)
  {
    ChosenStep(rows, keep, at);
    hide Chosen;
  }

  /** A filter keeps the rows that satisfy the condition, in order, cut to the schema. */
  lemma FilterMeans(cond: Condition, c: Op, s: Schema) returns (at: seq<nat>)
    ensures Chosen(Output(c), cond.holds, at) && |Output(FilterOp(cond, c, s))| == |at|
    ensures forall i :: 0 <= i < |at| ==> Output(FilterOp(cond, c, s))[i] == Restrict(Output(c)[at[i]], Ids(s))
  {
    at := SatisfyingMeans(cond, Output(c));
    RestrictAllAt(Satisfying(cond, Output(c)), Ids(s));
    hide Chosen, Satisfying, RestrictAll, Restrict;
  }

  lemma {:induction false} SatisfyingMeans(c: Condition, rows: seq<Row>) returns (at: seq<nat>)
    ensures Keeps(rows, c.holds, at, Satisfying(c, rows))
  {
    if rows == [] {
      at := [];
    } else {
      var rest := SatisfyingMeans(c, rows[1..]);
      KeepsStep(rows, c.holds, rest, Satisfying(c, rows[1..]));
      at := (if c.holds(rows[0]) then [0] else []) + Shifted(rest);
      hide Keeps;
    }
  }

  // ------------------------------------------------------------------------------- computing

  lemma {:induction false} NamedEach<T>(fs: seq<Fn<T>>)
    ensures |NamesOf(fs)| == |fs| && forall i :: 0 <= i < |fs| ==> NamesOf(fs)[i] == fs[i].id
  {
    if fs != [] {
      NamedEach(fs[..|fs| - 1]);
    }
  }

  /** The row computed names every value, and holds it under its name. */
  lemma {:induction false} ComputedEach<T>(fs: seq<Fn<T>>, x: T)
    requires forall i, j :: 0 <= i < j < |fs| ==> fs[i].id != fs[j].id
    ensures Compute(fs, x).Keys == set f | f in fs :: f.id
    ensures forall f :: f in fs ==> Compute(fs, x)[f.id] == f.eval(x)
  {
    if fs != [] {
      var init, last := fs[..|fs| - 1], fs[|fs| - 1];
      ComputedEach(init, x);
      forall f ensures f in fs <==> f in init || f == last {}
      forall f | f in init ensures f.id != last.id {
        var i :| 0 <= i < |init| && init[i] == f;
        assert fs[i].id != fs[|fs| - 1].id;
      }
    }
  }

  lemma {:induction false} AllComputed<T>(fs: seq<Fn<T>>, xs: seq<T>)
    ensures |ComputeAll(fs, xs)| == |xs|
    ensures forall i :: 0 <= i < |xs| ==> ComputeAll(fs, xs)[i] == Compute(fs, xs[i])
  {
    if xs != [] {
      AllComputed(fs, xs[1..]);
    }
  }

  /** A projection has one row for each of its child, with the value of every projection. */
  lemma ProjectionMeans(ps: seq<Fn<Row>>, c: Op, s: Schema)
    requires Distinct(NamesOf(ps))
    ensures |Output(Projection(ps, c, s))| == |Output(c)|
    ensures forall i :: 0 <= i < |Output(c)| ==> Evaluates(ps, Output(c)[i], Output(Projection(ps, c, s))[i])
  {
    AllComputed(ps, Output(c));
    NamedEach(ps);
    forall i | 0 <= i < |Output(c)| ensures Evaluates(ps, Output(c)[i], Compute(ps, Output(c)[i])) {
      ComputedEach(ps, Output(c)[i]);
    }
  }

  /** The row holds exactly the values computed, each under its name. */
  ghost predicate Evaluates<T(!new)>(fs: seq<Fn<T>>, x: T, r: Row) {
    && r.Keys == (set f | f in fs :: f.id)
    && forall f :: f in fs ==> r[f.id] == f.eval(x)
  }

  // -------------------------------------------------------------------------------- grouping

  predicate HasKey(keys: seq<Fn<Row>>, k: seq<Tuple>, r: Row) {
    Values(keys, r) == k
  }

  lemma {:induction false} WithKeyTwice(keys: seq<Fn<Row>>, k: seq<Tuple>, l: seq<Tuple>, rows: seq<Row>)
    requires k != l
    ensures WithKey(keys, l, true, WithKey(keys, k, false, rows)) == WithKey(keys, l, true, rows)
  {
    if rows != [] {
      WithKeyTwice(keys, k, l, rows[1..]);
      var rest := WithKey(keys, k, false, rows[1..]);
      if Values(keys, rows[0]) != k {
        assert ([rows[0]] + rest)[1..] == rest;
      } else {
        assert [] + rest == rest && [] + WithKey(keys, l, true, rows[1..]) == WithKey(keys, l, true, rows[1..]);
      }
    }
  }

  lemma {:induction false} WithKeyMembers(keys: seq<Fn<Row>>, k: seq<Tuple>, with: bool, rows: seq<Row>, r: Row)
    ensures r in WithKey(keys, k, with, rows) <==> r in rows && HasKey(keys, k, r) == with
  {
    if rows != [] {
      WithKeyMembers(keys, k, with, rows[1..], r);
    }
  }

  /** The groups are exactly the rows of each key, in order, with one group for every key that occurs. */
  ghost predicate Partitions(keys: seq<Fn<Row>>, rows: seq<Row>, groups: seq<seq<Row>>) {
    && (forall g :: g in groups ==> IsGroup(keys, rows, g))
    && (forall i, j :: 0 <= i < j < |groups| ==> !SameKey(keys, groups[i], groups[j]))
    && forall r :: r in rows ==> InSome(groups, r)
  }

  ghost predicate IsGroup(keys: seq<Fn<Row>>, rows: seq<Row>, g: seq<Row>) {
    && g != [] && g == WithKey(keys, Values(keys, g[0]), true, rows)
    && forall r :: r in g <==> r in rows && HasKey(keys, Values(keys, g[0]), r)
  }

  ghost predicate SameKey(keys: seq<Fn<Row>>, g: seq<Row>, h: seq<Row>) {
    g != [] && h != [] && Values(keys, g[0]) == Values(keys, h[0])
  }

  ghost predicate InSome(groups: seq<seq<Row>>, r: Row) {
    exists g :: g in groups && r in g
  }

  lemma {:induction false} GroupsPartition(keys: seq<Fn<Row>>, rows: seq<Row>)
    ensures Partitions(keys, rows, Groups(keys, rows))
    decreases |rows|
  {
    if rows != [] {
      var k := Values(keys, rows[0]);
      var others := WithKey(keys, k, false, rows[1..]);
      var first, rest := WithKey(keys, k, true, rows), Groups(keys, others);
      assert first == [rows[0]] + WithKey(keys, k, true, rows[1..]) && Groups(keys, rows) == [first] + rest;
      GroupsPartition(keys, others);
      FirstIsGroup(keys, rows, first);
      hide *;
      OtherGroups(keys, rows, rest, first);
      EveryRowGrouped(keys, rows, rest, first);
      AreParts(keys, rows, rest, first);
    }
  }

  lemma FirstIsGroup(keys: seq<Fn<Row>>, rows: seq<Row>, first: seq<Row>)
    requires rows != [] && first == WithKey(keys, Values(keys, rows[0]), true, rows)
    ensures IsGroup(keys, rows, first) && first[0] == rows[0]
  {
    assert first[0] == rows[0];
    forall r ensures r in first <==> r in rows && HasKey(keys, Values(keys, rows[0]), r) {
      WithKeyMembers(keys, Values(keys, rows[0]), true, rows, r);
    }
  }

  /** A group of the rows without the first key is a group of all rows. */
  lemma OtherGroup(keys: seq<Fn<Row>>, rows: seq<Row>, g: seq<Row>)
    requires rows != [] && IsGroup(keys, WithKey(keys, Values(keys, rows[0]), false, rows[1..]), g)
    ensures IsGroup(keys, rows, g) && Values(keys, g[0]) != Values(keys, rows[0])
  {
    var k, l := Values(keys, rows[0]), Values(keys, g[0]);
    var others := WithKey(keys, k, false, rows[1..]);
    WithKeyMembers(keys, l, true, others, g[0]);
    WithKeyMembers(keys, k, false, rows[1..], g[0]);
    WithKeyTwice(keys, k, l, rows[1..]);
    assert [] + WithKey(keys, l, true, rows[1..]) == WithKey(keys, l, true, rows[1..]);
    assert g == WithKey(keys, l, true, rows);
    forall r ensures r in g <==> r in rows && HasKey(keys, l, r) {
      WithKeyMembers(keys, l, true, rows, r);
    }
    hide WithKey, Values;
  }

  lemma OtherGroups(keys: seq<Fn<Row>>, rows: seq<Row>, rest: seq<seq<Row>>, first: seq<Row>)
    requires rows != [] && IsGroup(keys, rows, first) && first[0] == rows[0]
    requires Partitions(keys, WithKey(keys, Values(keys, rows[0]), false, rows[1..]), rest)
    ensures forall g :: g in rest ==> IsGroup(keys, rows, g) && !SameKey(keys, first, g)
  {
    hide IsGroup, WithKey, Values;
    forall g | g in rest ensures IsGroup(keys, rows, g) && !SameKey(keys, first, g) {
      OtherGroup(keys, rows, g);
    }
  }

  lemma EveryRowGrouped(keys: seq<Fn<Row>>, rows: seq<Row>, rest: seq<seq<Row>>, first: seq<Row>)
    requires rows != [] && IsGroup(keys, rows, first) && first[0] == rows[0]
    requires Partitions(keys, WithKey(keys, Values(keys, rows[0]), false, rows[1..]), rest)
    ensures forall r :: r in rows ==> InSome([first] + rest, r)
  {
    var k, groups := Values(keys, rows[0]), [first] + rest;
    hide WithKey, SameKey;
    forall r | r in rows ensures InSome(groups, r) {
      WithKeyMembers(keys, k, false, rows[1..], r);
      if r in first {
        assert first in groups;
      } else {
        assert HasKey(keys, k, rows[0]);
        var g :| g in rest && r in g;
        assert g in groups;
      }
    }
  }

  lemma AreParts(keys: seq<Fn<Row>>, rows: seq<Row>, rest: seq<seq<Row>>, first: seq<Row>)
    requires rows != [] && IsGroup(keys, rows, first)
    requires forall g :: g in rest ==> IsGroup(keys, rows, g) && !SameKey(keys, first, g)
    requires Partitions(keys, WithKey(keys, Values(keys, rows[0]), false, rows[1..]), rest)
    requires forall r :: r in rows ==> InSome([first] + rest, r)
    ensures Partitions(keys, rows, [first] + rest)
  {
    hide IsGroup, WithKey, Values, SameKey, InSome;
    var groups := [first] + rest;
    forall i, j | 0 <= i < j < |groups| ensures !SameKey(keys, groups[i], groups[j]) {
      assert groups[j] == rest[j - 1] && (i > 0 ==> groups[i] == rest[i - 1]);
    }
  }

  /** Grouping has one row for every key that occurs, computed from the rows with that key. */
  lemma GroupingMeans(keys: seq<Fn<Row>>, aggs: seq<Fn<seq<Row>>>, c: Op, s: Schema) returns (groups: seq<seq<Row>>)
    ensures Partitions(keys, Output(c), groups) && |Output(Grouping(keys, aggs, c, s))| == |groups|
    ensures forall i :: 0 <= i < |groups| ==>
              && groups[i] != []
              && Output(Grouping(keys, aggs, c, s))[i] == Compute(keys, groups[i][0]) + Compute(aggs, groups[i])
  {
    groups := Groups(keys, Output(c));
    GroupsPartition(keys, Output(c));
    forall i | 0 <= i < |groups| ensures groups[i] != [] {
      assert groups[i] in groups && IsGroup(keys, Output(c), groups[i]);
    }
    hide Partitions;
    EachGroupRow(keys, aggs, groups);
  }

  lemma {:induction false} EachGroupRow(keys: seq<Fn<Row>>, aggs: seq<Fn<seq<Row>>>, gs: seq<seq<Row>>)
    ensures |GroupRows(keys, aggs, gs)| == |gs|
    ensures forall i :: 0 <= i < |gs| ==> GroupRows(keys, aggs, gs)[i] == GroupRow(keys, aggs, gs[i])
  {
    if gs != [] {
      EachGroupRow(keys, aggs, gs[1..]);
    }
  }

  // --------------------------------------------------------------------- limits and sorting

  /** A limit keeps the rows at the positions asked for, as far as there are such. */
  lemma LimitMeans(limit: nat, offset: nat, c: Op, s: Schema)
    ensures var rows, out := Output(c), Output(Limit(limit, offset, c, s));
            && (forall i :: 0 <= i < |out| ==> offset + i < |rows| && out[i] == rows[offset + i])
            && |out| <= limit && (|out| < limit ==> offset + |out| >= |rows|)
  {}

  lemma {:induction false} PickedEach(rows: seq<Row>, indices: seq<nat>)
    requires forall i :: 0 <= i < |indices| ==> indices[i] < |rows|
    ensures |Pick(rows, indices)| == |indices|
    ensures forall i :: 0 <= i < |indices| ==> Pick(rows, indices)[i] == rows[indices[i]]
  {
    if indices != [] {
      PickedEach(rows, indices[1..]);
    }
  }

  lemma {:induction false} EachValue(fs: seq<Fn<Row>>, r: Row)
    ensures |Values(fs, r)| == |fs| && forall i :: 0 <= i < |fs| ==> Values(fs, r)[i] == fs[i].eval(r)
  {
    if fs != [] {
      EachValue(fs[1..], r);
    }
  }

  lemma {:induction false} EachRowsValues(fs: seq<Fn<Row>>, rows: seq<Row>)
    ensures |AllValues(fs, rows)| == |rows|
    ensures forall i :: 0 <= i < |rows| ==> AllValues(fs, rows)[i] == Values(fs, rows[i])
  {
    if rows != [] {
      EachRowsValues(fs, rows[1..]);
    }
  }

  /** Sorting by an order that gives positions hands on the rows at these positions; the order sees the
      sort keys of every row. */
  lemma SortingMeans(fs: seq<Fn<Row>>, order: seq<seq<Tuple>> -> seq<nat>, c: Op, s: Schema)
    returns (seen: seq<seq<Tuple>>)
    requires forall ks, i {:trigger order(ks)[i]} :: 0 <= i < |order(ks)| ==> order(ks)[i] < |ks|
    ensures |seen| == |Output(c)|
    ensures forall i, k :: 0 <= i < |seen| && 0 <= k < |fs| ==>
              |seen[i]| == |fs| && seen[i][k] == fs[k].eval(Output(c)[i])
    ensures |Output(Sorting(fs, order, c, s))| == |order(seen)|
    ensures forall i :: 0 <= i < |order(seen)| ==>
              && order(seen)[i] < |Output(c)|
              && Output(Sorting(fs, order, c, s))[i] == Restrict(Output(c)[order(seen)[i]], Ids(s))
  {
    var rows := Output(c);
    seen := AllValues(fs, rows);
    EachRowsValues(fs, rows);
    forall i | 0 <= i < |rows|
      ensures |seen[i]| == |fs| && forall k :: 0 <= k < |fs| ==> seen[i][k] == fs[k].eval(rows[i])
    {
      EachValue(fs, rows[i]);
    }
    var at := order(seen);
    PickedEach(rows, at);
    hide Pick, AllValues, Values;
    RestrictAllAt(Pick(rows, order(seen)), Ids(s));
  }
}
