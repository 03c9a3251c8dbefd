/** The hash join of the interpreter, and when it yields what nested loops yield. */
module HashJoin {
  import opened Cnf
  import opened Blocks
  import opened Joins

  datatype Component = Null | Val(v: int)
  type Key = seq<Component>

  /** A join on equality of keys, which are computed from the tuples of either side. */
  datatype EquiJoin = EquiJoin(arity: nat, buildKey: Tuple -> Key, probeKey: Tuple -> Key,
                               combine: (Tuple, Tuple) -> Tuple) {
    ghost predicate Valid() {
      forall t: Tuple :: |buildKey(t)| == arity && |probeKey(t)| == arity
    }

    /** The same join as the nested loops see it: a conjunction of comparisons. */
    function AsNestedLoops(): JoinSpec {
      JoinSpec((c: Combination, t: Tuple) => if |c| == 1 then EqualKeys(buildKey(c[0]), probeKey(t)) else Unknown,
               (c: Combination, t: Tuple) => if |c| == 1 then combine(c[0], t) else [])
    }
  }

  function EqualComponents(a: Component, b: Component): Truth {
    if a.Null? || b.Null? then Unknown else if a == b then True else False
  }

  function EqualKeys(a: Key, b: Key): Truth {
    if a == [] || b == [] then True else And(EqualComponents(a[0], b[0]), EqualKeys(a[1..], b[1..]))
  }

  predicate HasNull(k: Key) {
    exists i :: 0 <= i < |k| && k[i].Null?
  }

  lemma {:induction false} EqualKeysMeans(a: Key, b: Key)
    requires |a| == |b|
    ensures EqualKeys(a, b) == True <==> a == b && !HasNull(a)
  {
    if a != [] {
      EqualKeysMeans(a[1..], b[1..]);
      assert a == [a[0]] + a[1..] && b == [b[0]] + b[1..];
      assert HasNull(a) <==> a[0].Null? || HasNull(a[1..]) by {
        if i :| 0 <= i < |a| && a[i].Null? {
          assert i > 0 ==> a[1..][i - 1].Null?;
        }
        if i :| 0 <= i < |a[1..]| && a[1..][i].Null? {
          assert a[i + 1].Null?;
        }
      }
      hide HasNull;
    }
  }

  // ------------------------------------------------------------------------------ the results

  /** The build tuples with equal keys, each joined with the probe tuple.  A NULL in a key equals
      a NULL here. */
  function Matches(e: EquiJoin, build: seq<Tuple>, t: Tuple): seq<Tuple> {
    if build == [] then []
    else (if e.buildKey(build[0]) == e.probeKey(t) then [e.combine(build[0], t)] else []) + Matches(e, build[1..], t)
  }

  function AllMatches(e: EquiJoin, build: seq<Tuple>, probe: seq<Tuple>): seq<Tuple> {
    if probe == [] then [] else Matches(e, build, probe[0]) + AllMatches(e, build, probe[1..])
  }

  // ------------------------------------------------------------------------- build and probe

  class HashTable {
    const e: EquiJoin
    var entries: seq<(Key, Tuple)>

    constructor (e: EquiJoin)
      ensures this.e == e && entries == []
    {
      this.e, entries := e, [];
    }

    method InsertWithDuplicates(k: Key, t: Tuple)
      modifies this
      ensures entries == old(entries) + [(k, t)]
    {
      entries := entries + [(k, t)];
    }

    /** The values of all entries with the key, in any order. */
    method ForAll(k: Key) returns (ts: seq<Tuple>)
      ensures multiset(ts) == multiset(WithKey(entries, k))
    {
      ts := WithKey(entries, k);
    }
  }

  function WithKey(entries: seq<(Key, Tuple)>, k: Key): seq<Tuple> {
    if entries == [] then [] else (if entries[0].0 == k then [entries[0].1] else []) + WithKey(entries[1..], k)
  }

  function Keyed(e: EquiJoin, build: seq<Tuple>): seq<(Key, Tuple)> {
    if build == [] then [] else [(e.buildKey(build[0]), build[0])] + Keyed(e, build[1..])
  }

  function CombineAll(e: EquiJoin, ts: seq<Tuple>, t: Tuple): seq<Tuple> {
    if ts == [] then [] else [e.combine(ts[0], t)] + CombineAll(e, ts[1..], t)
  }

  lemma {:induction false} KeyedAppend(e: EquiJoin, xs: seq<Tuple>, x: Tuple)
    ensures Keyed(e, xs + [x]) == Keyed(e, xs) + [(e.buildKey(x), x)]
  {
    if xs == [] {
      assert xs + [x] == [x] && [x][1..] == [];
    } else {
      assert (xs + [x])[1..] == xs[1..] + [x];
      KeyedAppend(e, xs[1..], x);
    }
  }

  lemma {:induction false} LookupMatches(e: EquiJoin, build: seq<Tuple>, t: Tuple)
    ensures CombineAll(e, WithKey(Keyed(e, build), e.probeKey(t)), t) == Matches(e, build, t)
  {
    if build != [] {
      LookupMatches(e, build[1..], t);
      var k := e.probeKey(t);
      var rest := WithKey(Keyed(e, build[1..]), k);
      assert Keyed(e, build)[1..] == Keyed(e, build[1..]);
      assert [] + rest == rest;
      if e.buildKey(build[0]) == k {
        assert ([build[0]] + rest)[1..] == rest;
      }
    }
  }

  lemma {:induction false} CombineAppend(e: EquiJoin, xs: seq<Tuple>, ys: seq<Tuple>, t: Tuple)
    ensures CombineAll(e, xs + ys, t) == CombineAll(e, xs, t) + CombineAll(e, ys, t)
  {
    if xs == [] {
      assert xs + ys == ys;
    } else {
      assert (xs + ys)[1..] == xs[1..] + ys;
      CombineAppend(e, xs[1..], ys, t);
    }
  }

  /** Taking one tuple out of a sequence takes one result out of the results. */
  lemma CombineWithout(e: EquiJoin, pre: seq<Tuple>, x: Tuple, post: seq<Tuple>, t: Tuple)
    ensures multiset(CombineAll(e, pre + [x] + post, t))
            == multiset(CombineAll(e, pre + post, t)) + multiset{e.combine(x, t)}
    ensures multiset(pre + [x] + post) == multiset(pre + post) + multiset{x}
  {
    assert CombineAll(e, [x], t) == [e.combine(x, t)] by { assert [x][1..] == []; }
    hide CombineAll;
    CombineAppend(e, pre + [x], post, t);
    CombineAppend(e, pre, [x], t);
    CombineAppend(e, pre, post, t);
  }

  lemma SameRest(a: multiset<Tuple>, b: multiset<Tuple>, x: Tuple)
    requires a + multiset{x} == b + multiset{x}
    ensures a == b
  {
    assert a == (a + multiset{x}) - multiset{x} && b == (b + multiset{x}) - multiset{x};
  }

  lemma Split(xs: seq<Tuple>, x: Tuple) returns (pre: seq<Tuple>, post: seq<Tuple>)
    requires x in multiset(xs)
    ensures xs == pre + [x] + post
  {
    var i :| 0 <= i < |xs| && xs[i] == x;
    pre, post := xs[..i], xs[i + 1..];
  }

  /** The order of the entries does not matter for the bag of results. */
  lemma {:induction false} CombinePermutes(e: EquiJoin, xs: seq<Tuple>, ys: seq<Tuple>, t: Tuple)
    requires multiset(xs) == multiset(ys)
    ensures multiset(CombineAll(e, xs, t)) == multiset(CombineAll(e, ys, t))
    decreases |xs|
  {
    if xs == [] {
      assert |multiset(ys)| == 0;
    } else {
      var x, rest := xs[0], xs[1..];
      assert x in multiset(xs);
      var pre, post := Split(ys, x);
      hide *;
      assert xs == [] + [x] + rest && [] + rest == rest;
      CombineWithout(e, [], x, rest, t);
      CombineWithout(e, pre, x, post, t);
      SameRest(multiset(rest), multiset(pre + post), x);
      CombinePermutes(e, rest, pre + post, t);
    }
  }

  method Build(e: EquiJoin, build: Stream) returns (ht: HashTable)
    ensures fresh(ht) && ht.e == e && ht.entries == Keyed(e, Flat(build))
  {
    ht := new HashTable(e);
    var b := 0;
    while b < |build|
      invariant 0 <= b <= |build| && fresh(ht) && ht.e == e && ht.entries == Keyed(e, Flat(build[..b]))
    {
      FlatStep(build, b);
      var i := 0;
      assert Flat(build[..b]) + build[b][..0] == Flat(build[..b]);
      while i < |build[b]|
        invariant 0 <= i <= |build[b]| && fresh(ht) && ht.e == e
        invariant ht.entries == Keyed(e, Flat(build[..b]) + build[b][..i])
      {
        var t := build[b][i];
        KeyedAppend(e, Flat(build[..b]) + build[b][..i], t);
        assert Flat(build[..b]) + build[b][..i] + [t] == Flat(build[..b]) + build[b][..i + 1];
        hide Keyed, Flat;
        ht.InsertWithDuplicates(e.buildKey(t), t);
        i := i + 1;
      }
      assert build[b][..i] == build[b];
      b := b + 1;
    }
    assert build[..b] == build;
  }

  lemma {:induction false} AllMatchesAppend(e: EquiJoin, build: seq<Tuple>, xs: seq<Tuple>, ys: seq<Tuple>)
    ensures AllMatches(e, build, xs + ys) == AllMatches(e, build, xs) + AllMatches(e, build, ys)
  {
    if xs == [] {
      assert xs + ys == ys;
    } else {
      assert (xs + ys)[1..] == xs[1..] + ys;
      AllMatchesAppend(e, build, xs[1..], ys);
      hide Matches;
    }
  }

  ghost predicate Batches(output: Stream) {
    forall i :: 0 <= i < |output| ==> 0 < |output[i]| <= CAPACITY
  }

  /** The results so far are those handed to the parent and those waiting in the batch. */
  ghost predicate Emitted(output: Stream, batch: seq<Tuple>, all: multiset<Tuple>) {
    Batches(output) && |batch| <= CAPACITY && multiset(Flat(output)) + multiset(batch) == all
  }

  lemma AddResult(output: Stream, batch: seq<Tuple>, all: multiset<Tuple>, r: Tuple)
    requires Emitted(output, batch, all)
    ensures |batch| < CAPACITY ==> Emitted(output, batch + [r], all + multiset{r})
    ensures |batch| > 0 ==> Emitted(output + [batch], [], all)
    ensures |batch| == CAPACITY ==> Emitted(output + [batch], [r], all + multiset{r})
  {
    assert (output + [batch])[..|output|] == output;
  }

  /** Puts a result into the batch; a full batch is handed to the parent first. */
  method PutResult(output: Stream, batch: seq<Tuple>, r: Tuple, ghost all: multiset<Tuple>)
    returns (out: Stream, rest: seq<Tuple>)
    requires Emitted(output, batch, all)
    ensures Emitted(out, rest, all + multiset{r})
  {
    AddResult(output, batch, all, r);
    BatchSize(output, batch, all);
    hide *;
    if |batch| == CAPACITY {
      out, rest := output + [batch], [r];
    } else {
      out, rest := output, batch + [r];
    }
  }

  /** Probes with one tuple. */
  method ProbeTuple(ht: HashTable, t: Tuple, output: Stream, batch: seq<Tuple>, ghost build: seq<Tuple>,
                    ghost all: multiset<Tuple>)
    returns (out: Stream, rest: seq<Tuple>)
    requires ht.entries == Keyed(ht.e, build) && Emitted(output, batch, all)
    ensures Emitted(out, rest, all + multiset(Matches(ht.e, build, t)))
  {
    out, rest := output, batch;
    var found := ht.ForAll(ht.e.probeKey(t));
    LookupMatches(ht.e, build, t);
    CombinePermutes(ht.e, found, WithKey(ht.entries, ht.e.probeKey(t)), t);
    NoResults(ht.e, found, t, all);
    var i := 0;
    hide *;
    while i < |found|
      invariant 0 <= i <= |found| && Emitted(out, rest, Results(ht.e, found, i, t, all))
    {
      NextResult(ht.e, found, i, t, all);
      out, rest := PutResult(out, rest, ht.e.combine(found[i], t), Results(ht.e, found, i, t, all));
      i := i + 1;
    }
  }

  /** The results for the first `i` tuples found, in addition to those before. */
  ghost function Results(e: EquiJoin, found: seq<Tuple>, i: nat, t: Tuple, all: multiset<Tuple>): multiset<Tuple>
    requires i <= |found|
  {
    all + multiset(CombineAll(e, found[..i], t))
  }

  lemma NoResults(e: EquiJoin, found: seq<Tuple>, t: Tuple, all: multiset<Tuple>)
    ensures Results(e, found, 0, t, all) == all
    ensures Results(e, found, |found|, t, all) == all + multiset(CombineAll(e, found, t))
  {
    assert found[..|found|] == found && found[..0] == [];
  }

  lemma BatchSize(output: Stream, batch: seq<Tuple>, all: multiset<Tuple>)
    requires Emitted(output, batch, all)
    ensures |batch| <= CAPACITY
  {}

  lemma NextResult(e: EquiJoin, found: seq<Tuple>, i: nat, t: Tuple, all: multiset<Tuple>)
    requires i < |found|
    ensures Results(e, found, i + 1, t, all) == Results(e, found, i, t, all) + multiset{e.combine(found[i], t)}
  {
    assert found[..i + 1] == found[..i] + [found[i]] + [] && found[..i] + [] == found[..i];
    CombineWithout(e, found[..i], found[i], [], t);
    hide CombineAll;
  }

  /** Probes with a block; what is left in the batch at its end is handed on. */
  method ProbeBlock(ht: HashTable, block: seq<Tuple>, ghost build: seq<Tuple>) returns (output: Stream)
    requires ht.entries == Keyed(ht.e, build)
    ensures Batches(output) && multiset(Flat(output)) == multiset(AllMatches(ht.e, build, block))
  {
    output := [];
    var batch: seq<Tuple> := [];
    var i := 0;
    assert block[..0] == [];
    while i < |block|
      invariant 0 <= i <= |block| && Emitted(output, batch, multiset(AllMatches(ht.e, build, block[..i])))
    {
      AllMatchesAppend(ht.e, build, block[..i], [block[i]]);
      assert block[..i + 1] == block[..i] + [block[i]];
      OneProbe(ht.e, build, block[i]);
      hide AllMatches, Matches, Keyed, Emitted;
      output, batch := ProbeTuple(ht, block[i], output, batch, build, multiset(AllMatches(ht.e, build, block[..i])));
      i := i + 1;
    }
    assert block[..i] == block;
    AddResult(output, batch, multiset(AllMatches(ht.e, build, block)), []);
    if |batch| != 0 {
      output := output + [batch];
    }
  }

  lemma OneProbe(e: EquiJoin, build: seq<Tuple>, t: Tuple)
    ensures AllMatches(e, build, [t]) == Matches(e, build, t)
  {
    assert [t][1..] == [];
    assert Matches(e, build, t) + [] == Matches(e, build, t);
  }

  /** The whole join: the table is built from the first child and probed with the second. */
  method HashJoin(e: EquiJoin, build: Stream, probe: Stream) returns (output: Stream)
    ensures Batches(output) && multiset(Flat(output)) == multiset(AllMatches(e, Flat(build), Flat(probe)))
  {
    output := [];
    var ht := Build(e, build);
    if |ht.entries| == 0 {
      NoBuild(e, Flat(build), Flat(probe));
      return;
    }
    var b := 0;
    assert Flat(probe[..0]) == [];
    while b < |probe|
      invariant 0 <= b <= |probe| && ht.e == e && ht.entries == Keyed(e, Flat(build)) && Batches(output)
      invariant multiset(Flat(output)) == multiset(AllMatches(e, Flat(build), Flat(probe[..b])))
    {
      FlatStep(probe, b);
      AllMatchesAppend(e, Flat(build), Flat(probe[..b]), probe[b]);
      hide AllMatches, Keyed, Flat, Batches;
      var out := ProbeBlock(ht, probe[b], Flat(build));
      FlatAppend(output, out);
      MoreBatches(output, out);
      output := output + out;
      b := b + 1;
    }
    assert probe[..b] == probe;
  }

  lemma MoreBatches(output: Stream, out: Stream)
    requires Batches(output) && Batches(out)
    ensures Batches(output + out)
  {}

  lemma {:induction false} NoBuild(e: EquiJoin, build: seq<Tuple>, probe: seq<Tuple>)
    requires Keyed(e, build) == []
    ensures AllMatches(e, build, probe) == []
  {
    assert build == [];
    if probe != [] {
      NoBuild(e, build, probe[1..]);
    }
  }

  // ----------------------------------------------------------------- against the nested loops

  function Singles(build: seq<Tuple>): seq<Combination> {
    if build == [] then [] else [[build[0]]] + Singles(build[1..])
  }

  lemma {:induction false} CombinationsOfOne(build: seq<Tuple>, i: nat)
    requires i <= |build|
    ensures From([build], [], 0, i) == Singles(build[i..])
    decreases |build| - i
  {
    if i < |build| {
      CombinationsOfOne(build, i + 1);
      assert [] + [build[i]] == [build[i]];
      assert build[i..][1..] == build[i + 1..];
    }
  }

  /** What the nested loops yield for one probe tuple. */
  function Column(j: JoinSpec, cs: seq<Combination>, t: Tuple): seq<Tuple> {
    if cs == [] then [] else (if j.holds(cs[0], t) == True then [j.combine(cs[0], t)] else []) + Column(j, cs[1..], t)
  }

  /** Row by row or column by column, the bag of results is the same. */
  lemma {:induction false} ByColumns(j: JoinSpec, cs: seq<Combination>, t: Tuple, rest: seq<Tuple>)
    ensures multiset(JoinedAll(j, cs, [t] + rest)) == multiset(Column(j, cs, t)) + multiset(JoinedAll(j, cs, rest))
  {
    if cs != [] {
      ByColumns(j, cs[1..], t, rest);
      assert ([t] + rest)[1..] == rest;
    }
  }

  function Columns(j: JoinSpec, cs: seq<Combination>, probe: seq<Tuple>): seq<Tuple> {
    if probe == [] then [] else Column(j, cs, probe[0]) + Columns(j, cs, probe[1..])
  }

  lemma {:induction false} NothingJoined(j: JoinSpec, cs: seq<Combination>)
    ensures JoinedAll(j, cs, []) == []
  {
    if cs != [] {
      NothingJoined(j, cs[1..]);
    }
  }

  lemma {:induction false} AllByColumns(j: JoinSpec, cs: seq<Combination>, probe: seq<Tuple>)
    ensures multiset(JoinedAll(j, cs, probe)) == multiset(Columns(j, cs, probe))
  {
    if probe == [] {
      NothingJoined(j, cs);
    } else {
      AllByColumns(j, cs, probe[1..]);
      ByColumns(j, cs, probe[0], probe[1..]);
      assert probe == [probe[0]] + probe[1..];
      hide JoinedAll, Column;
    }
  }

  lemma {:induction false} ColumnsAppend(j: JoinSpec, cs: seq<Combination>, xs: seq<Tuple>, ys: seq<Tuple>)
    ensures Columns(j, cs, xs + ys) == Columns(j, cs, xs) + Columns(j, cs, ys)
  {
    if xs == [] {
      assert xs + ys == ys;
    } else {
      assert (xs + ys)[1..] == xs[1..] + ys;
      ColumnsAppend(j, cs, xs[1..], ys);
      hide Column;
    }
  }

  lemma JoinedInParts(j: JoinSpec, cs: seq<Combination>, xs: seq<Tuple>, ys: seq<Tuple>)
    ensures multiset(JoinedAll(j, cs, xs + ys)) == multiset(JoinedAll(j, cs, xs)) + multiset(JoinedAll(j, cs, ys))
  {
    AllByColumns(j, cs, xs + ys);
    AllByColumns(j, cs, xs);
    AllByColumns(j, cs, ys);
    ColumnsAppend(j, cs, xs, ys);
    hide JoinedAll, Columns;
  }

  /** The nested loops over all blocks of the last child: every combination meets every tuple. */
  method NestedLoopsJoin(j: JoinSpec, buffers: Buffers, last: Stream) returns (output: Stream)
    requires buffers != []
    ensures multiset(Flat(output)) == multiset(JoinedAll(j, Combinations(buffers), Flat(last)))
  {
    output := [];
    NothingJoined(j, Combinations(buffers));
    assert Flat(last[..0]) == [];
    var b := 0;
    while b < |last|
      invariant 0 <= b <= |last|
      invariant multiset(Flat(output)) == multiset(JoinedAll(j, Combinations(buffers), Flat(last[..b])))
    {
      FlatStep(last, b);
      JoinedInParts(j, Combinations(buffers), Flat(last[..b]), last[b]);
      hide JoinedAll, Combinations, Flat;
      var out := NestedLoops(j, buffers, last[b]);
      FlatAppend(output, out);
      output := output + out;
      b := b + 1;
    }
    assert last[..b] == last;
  }

  /** No pair of tuples meets in the hash table only because NULLs are equal there. */
  ghost predicate NoNullMatch(e: EquiJoin, build: seq<Tuple>, t: Tuple) {
    forall x :: x in build && e.buildKey(x) == e.probeKey(t) ==> !HasNull(e.buildKey(x))
  }

  /** For one probe tuple the nested loops yield no more than the hash table, and the same exactly
      if there is no match on NULL. */
  lemma {:induction false} ColumnIsMatches(e: EquiJoin, build: seq<Tuple>, t: Tuple)
    requires e.Valid()
    ensures var column := Column(e.AsNestedLoops(), Singles(build), t);
            && |column| <= |Matches(e, build, t)|
            && (NoNullMatch(e, build, t) ==> column == Matches(e, build, t))
            && (!NoNullMatch(e, build, t) ==> |column| < |Matches(e, build, t)|)
  {
    if build != [] {
      ColumnIsMatches(e, build[1..], t);
      EqualKeysMeans(e.buildKey(build[0]), e.probeKey(t));
      NoNullStep(e, build, t);
      assert Singles(build)[0] == [build[0]] && Singles(build)[1..] == Singles(build[1..]);
      hide EqualKeys, HasNull, NoNullMatch;
    }
  }

  lemma NoNullStep(e: EquiJoin, build: seq<Tuple>, t: Tuple)
    requires build != []
    ensures NoNullMatch(e, build, t) <==>
              (e.buildKey(build[0]) == e.probeKey(t) ==> !HasNull(e.buildKey(build[0])))
                && NoNullMatch(e, build[1..], t)
  {
    hide HasNull;
    assert forall x :: x in build <==> x == build[0] || x in build[1..];
  }

  ghost predicate NoNullMatches(e: EquiJoin, build: seq<Tuple>, probe: seq<Tuple>) {
    forall t :: t in probe ==> NoNullMatch(e, build, t)
  }

  lemma {:induction false} ColumnsAreMatches(e: EquiJoin, build: seq<Tuple>, probe: seq<Tuple>)
    requires e.Valid()
    ensures var columns := Columns(e.AsNestedLoops(), Singles(build), probe);
            && |columns| <= |AllMatches(e, build, probe)|
            && (NoNullMatches(e, build, probe) ==> columns == AllMatches(e, build, probe))
            && (!NoNullMatches(e, build, probe) ==> |columns| < |AllMatches(e, build, probe)|)
  {
    if probe != [] {
      ColumnsAreMatches(e, build, probe[1..]);
      ColumnIsMatches(e, build, probe[0]);
      assert forall t :: t in probe <==> t == probe[0] || t in probe[1..];
      hide NoNullMatch, Column, Matches, Singles, EquiJoin.AsNestedLoops, EquiJoin.Valid;
    }
  }

  /** The hash join yields the bag of results of the nested loops if and only if no build tuple and
      probe tuple have equal keys with a NULL in them. */
  lemma JoinsAgreeIff(e: EquiJoin, build: seq<Tuple>, probe: seq<Tuple>)
    requires e.Valid()
    ensures multiset(AllMatches(e, build, probe))
            == multiset(JoinedAll(e.AsNestedLoops(), Combinations([build]), probe))
       <==> NoNullMatches(e, build, probe)
  {
    CombinationsOfOne(build, 0);
    assert build[0..] == build && Combinations([build]) == Singles(build);
    AllByColumns(e.AsNestedLoops(), Singles(build), probe);
    ColumnsAreMatches(e, build, probe);
    hide *;
    var columns, matches := Columns(e.AsNestedLoops(), Singles(build), probe), AllMatches(e, build, probe);
    assert |multiset(columns)| == |columns| && |multiset(matches)| == |matches|;
  }
}
