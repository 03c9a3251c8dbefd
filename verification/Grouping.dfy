/** Grouping with running aggregates in a hash table, and aggregation without keys. */
module Grouping {
  import opened Blocks

  datatype Value = Null | Num(v: real)
  datatype AggFn = CountAll | Count | Sum | Avg | Min | Max
  type Key = seq<Value>

  datatype Aggregate = Aggregate(fn: AggFn, arg: Tuple -> Value)

  /** The number of tuples of the group so far, and its aggregates. */
  datatype Group = Group(count: nat, values: seq<Value>)

  datatype Query = Query(key: Tuple -> Key, aggregates: seq<Aggregate>)

  // ------------------------------------------------------------------------- running aggregates

  function OrZero(v: Value): real {
    if v.Null? then 0.0 else v.v
  }

  /** One update of an aggregate by the argument of the `nth` tuple. */
  function Step(fn: AggFn, nth: nat, val: Value, arg: Value): Value
    requires nth > 0
  {
    match fn
    case CountAll => Num(OrZero(val) + 1.0)
    case Count => Num(OrZero(val) + if arg.Null? then 0.0 else 1.0)
    case Sum => Num(OrZero(val) + OrZero(arg))
    case Avg => if arg.Null? then Num(OrZero(val)) else Num(OrZero(val) + (arg.v - OrZero(val)) / nth as real)
    case Min => if arg.Null? then val else if val.Null? || arg.v < val.v then arg else val
    case Max => if arg.Null? then val else if val.Null? || arg.v > val.v then arg else val
  }

  function Run(fn: AggFn, args: seq<Value>): Value {
    if args == [] then Null else Step(fn, |args|, Run(fn, args[..|args| - 1]), args[|args| - 1])
  }

  // ------------------------------------------------------------------------- what they mean

  function NonNull(args: seq<Value>): seq<real> {
    if args == [] then []
    else NonNull(args[..|args| - 1]) + if args[|args| - 1].Null? then [] else [args[|args| - 1].v]
  }

  function Total(xs: seq<real>): real {
    if xs == [] then 0.0 else Total(xs[..|xs| - 1]) + xs[|xs| - 1]
  }

  ghost predicate Least(xs: seq<real>, m: real) {
    m in xs && forall x :: x in xs ==> m <= x
  }

  ghost predicate Greatest(xs: seq<real>, m: real) {
    m in xs && forall x :: x in xs ==> x <= m
  }

  function Mean(xs: seq<real>): real {
    if xs == [] then 0.0 else Total(xs) / |xs| as real
  }

  /** No argument comes behind a NULL. */
  ghost predicate NullsLast(args: seq<Value>) {
    forall i, j :: 0 <= i < j < |args| && args[i].Null? ==> args[j].Null?
  }

  /** The value of an aggregate over its arguments.  A sum without summands is zero, and so is an
      average of nothing; an average is the mean as long as no argument comes behind a NULL. */
  ghost predicate Means(fn: AggFn, args: seq<Value>, val: Value) {
    match fn
    case CountAll => val == Num(|args| as real)
    case Count => val == Num(|NonNull(args)| as real)
    case Sum => val == Num(Total(NonNull(args)))
    case Avg => NullsLast(args) ==> val == Num(Mean(NonNull(args)))
    case Min => if NonNull(args) == [] then val == Null else val.Num? && Least(NonNull(args), val.v)
    case Max => if NonNull(args) == [] then val == Null else val.Num? && Greatest(NonNull(args), val.v)
  }

  lemma NonNullStep(args: seq<Value>, a: Value)
    ensures NonNull(args + [a]) == NonNull(args) + if a.Null? then [] else [a.v]
  {
    assert (args + [a])[..|args|] == args;
  }

  lemma {:induction false} NonNullSize(args: seq<Value>)
    ensures |NonNull(args)| <= |args|
  {
    if args != [] {
      NonNullSize(args[..|args| - 1]);
    }
  }

  lemma TotalStep(xs: seq<real>, x: real)
    ensures Total(xs + [x]) == Total(xs) + x
  {
    assert (xs + [x])[..|xs|] == xs;
  }

  lemma IterativeMean(total: real, x: real, n: nat)
    ensures n > 0 ==> total / n as real + (x - total / n as real) / (n + 1) as real == (total + x) / (n + 1) as real
    ensures 0.0 + (x - 0.0) / 1.0 == x
  {
    if n > 0 {
      var k := n as real;
      var m := total / k;
      assert (n + 1) as real == k + 1.0;
      assert m * k == total;
      assert (m + (x - m) / (k + 1.0)) * (k + 1.0) == m * (k + 1.0) + (x - m);
      assert m * (k + 1.0) + (x - m) == total + x;
    }
  }

  lemma LeastStep(xs: seq<real>, m: real, x: real)
    requires xs != [] ==> Least(xs, m)
    ensures Least(xs + [x], if xs == [] || x < m then x else m)
  {
    var ys := xs + [x];
    assert ys[|xs|] == x;
    assert forall y :: y in ys <==> y in xs || y == x;
  }

  lemma GreatestStep(xs: seq<real>, m: real, x: real)
    requires xs != [] ==> Greatest(xs, m)
    ensures Greatest(xs + [x], if xs == [] || x > m then x else m)
  {
    var ys := xs + [x];
    assert ys[|xs|] == x;
    assert forall y :: y in ys <==> y in xs || y == x;
  }

  /** The running aggregates have the values of the folds over the arguments that are not NULL. */
  lemma {:induction false} RunMeans(fn: AggFn, args: seq<Value>)
    requires args != []
    ensures Means(fn, args, Run(fn, args))
  {
    var init, a := args[..|args| - 1], args[|args| - 1];
    assert args == init + [a];
    NonNullStep(init, a);
    NonNullSize(init);
    var xs := NonNull(init);
    if init == [] {
      assert Run(fn, init) == Null && xs == [];
    } else {
      RunMeans(fn, init);
    }
    StepMeans(fn, init, a, Run(fn, init));
    hide Step, Means;
  }

  lemma StepMeans(fn: AggFn, init: seq<Value>, a: Value, val: Value)
    requires if init == [] then val == Null else Means(fn, init, val)
    ensures Means(fn, init + [a], Step(fn, |init| + 1, val, a))
  {
    var xs := NonNull(init);
    NonNullStep(init, a);
    if a.Num? {
      TotalStep(xs, a.v);
    }
    assert xs + [] == xs;
    match fn
    case Min =>
      if a.Num? { LeastStep(xs, if val.Num? then val.v else 0.0, a.v); }
    case Max =>
      if a.Num? { GreatestStep(xs, if val.Num? then val.v else 0.0, a.v); }
    case Avg =>
      if NullsLast(init + [a]) {
        NullsLastBefore(init, a);
        AverageStep(init, a, val);
      }
      hide Step, Mean, NullsLast;
    case _ =>
  }

  lemma AverageStep(init: seq<Value>, a: Value, val: Value)
    requires if init == [] then val == Null else val == Num(Mean(NonNull(init)))
    requires NullsLast(init + [a])
    ensures Step(Avg, |init| + 1, val, a) == Num(Mean(NonNull(init + [a])))
  {
    hide *;
    NullsLastBefore(init, a);
    NonNullStep(init, a);
    NoArguments();
    var xs := NonNull(init);
    assert xs + [] == xs;
    AverageOfOne(|init| + 1, val, a);
    if a.Num? {
      MeanStep(xs, a.v);
    }
  }

  lemma NoArguments()
    ensures NonNull([]) == [] && Mean([]) == 0.0
  {}

  lemma AverageOfOne(nth: nat, val: Value, a: Value)
    requires nth > 0
    ensures var before := if val.Null? then 0.0 else val.v;
            Step(Avg, nth, val, a) == Num(if a.Null? then before else before + (a.v - before) / nth as real)
  {}

  lemma NullsLastBefore(init: seq<Value>, a: Value)
    requires NullsLast(init + [a])
    ensures NullsLast(init) && (a.Num? ==> |NonNull(init)| == |init|)
  {
    var args := init + [a];
    assert forall i :: 0 <= i < |init| ==> args[i] == init[i];
    if a.Num? {
      forall i | 0 <= i < |init| ensures init[i].Num? {
        assert args[i] == init[i] && args[|init|] == a;
      }
      AllNonNull(init);
    }
  }

  lemma MeanStep(xs: seq<real>, x: real)
    ensures Mean(xs) + (x - Mean(xs)) / (|xs| + 1) as real == Mean(xs + [x])
  {
    TotalStep(xs, x);
    IterativeMean(Total(xs), x, |xs|);
    hide Total;
    assert |xs + [x]| == |xs| + 1;
  }

  lemma {:induction false} AllNonNull(args: seq<Value>)
    requires forall i :: 0 <= i < |args| ==> args[i].Num?
    ensures |NonNull(args)| == |args|
  {
    if args != [] {
      AllNonNull(args[..|args| - 1]);
    }
  }

  // ---------------------------------------------------------------------- averages and NULL

  /** The running average is the mean of the arguments that are not NULL. */
  ghost predicate Averages(args: seq<Value>) {
    Run(Avg, args) == Num(Mean(NonNull(args)))
  }

  ghost predicate SameNulls(args: seq<Value>, other: seq<Value>) {
    |args| == |other| && forall i :: 0 <= i < |args| ==> (args[i].Null? <==> other[i].Null?)
  }

  /** The divisor counts all tuples.  So, given which arguments are NULL, the running average is right
      for all values of the others if and only if no argument comes behind a NULL. */
  lemma AverageRightIff(args: seq<Value>)
    requires args != []
    ensures (forall other :: SameNulls(args, other) ==> Averages(other)) <==> NullsLast(args)
  {
    if NullsLast(args) {
      forall other | SameNulls(args, other) ensures Averages(other) {
        RunMeans(Avg, other);
      }
    } else {
      var other := AverageWrong(args);
    }
  }

  /** Zeros, but for a one at the place `p`. */
  function OneAt(args: seq<Value>, p: nat): (other: seq<Value>)
    ensures |other| == |args|
    ensures forall i :: 0 <= i < |args| ==>
              other[i] == if args[i].Null? then Null else Num(if i == p then 1.0 else 0.0)
  {
    seq(|args|, i requires 0 <= i < |args| => if args[i].Null? then Null else Num(if i == p then 1.0 else 0.0))
  }

  lemma {:induction false} LastNonNull(args: seq<Value>) returns (p: nat)
    requires exists i :: 0 <= i < |args| && args[i].Num?
    ensures p < |args| && args[p].Num? && forall i :: p < i < |args| ==> args[i].Null?
  {
    p := |args| - 1;
    while args[p].Null?
      invariant 0 <= p < |args| && (forall i :: p < i < |args| ==> args[i].Null?)
      decreases p
    {
      p := p - 1;
    }
  }

  lemma AverageWrong(args: seq<Value>) returns (other: seq<Value>)
    requires !NullsLast(args)
    ensures SameNulls(args, other) && !Averages(other)
  {
    var i, j :| 0 <= i < j < |args| && args[i].Null? && !args[j].Null?;
    var p := LastNonNull(args);
    other := OneAt(args, p);
    assert i < p;
    var front := other[..p];
    assert front[i].Null? && other[..p + 1] == front + [Num(1.0)];
    OneBehindZeros(front);
    NullsBehind(other, p + 1);
    hide *;
  }

  /** A one behind zeros and a NULL does not count enough. */
  lemma OneBehindZeros(front: seq<Value>)
    requires forall i :: 0 <= i < |front| ==> front[i].Null? || front[i] == Num(0.0)
    requires exists i :: 0 <= i < |front| && front[i].Null?
    ensures Run(Avg, front + [Num(1.0)]).Num? && !Averages(front + [Num(1.0)])
  {
    hide *;
    var one := Num(1.0);
    OnlyZeros(front);
    RunStep(Avg, front, one);
    NonNullStep(front, one);
    TotalStep(NonNull(front), 1.0);
    OneStep(|front| + 1);
    DifferentParts(|NonNull(front)| + 1, |front| + 1);
    AveragesMeans(front + [one]);
  }

  lemma OneStep(nth: nat)
    requires nth > 0
    ensures Step(Avg, nth, Num(0.0), Num(1.0)) == Num(1.0 / nth as real)
  {}

  lemma AveragesMeans(args: seq<Value>)
    ensures Averages(args) <==> Run(Avg, args) == Num(Mean(NonNull(args)))
    ensures NonNull(args) != [] ==> Mean(NonNull(args)) == Total(NonNull(args)) / |NonNull(args)| as real
  {}

  lemma DifferentParts(m: nat, n: nat)
    requires 0 < m < n
    ensures 1.0 / m as real != 1.0 / n as real
  {
    var x, y := 1.0 / m as real, 1.0 / n as real;
    assert x * m as real == 1.0 && y * n as real == 1.0;
    var d := (n - m) as real;
    assert n as real == m as real + d;
    assert x * n as real == x * m as real + x * d;
    assert x > 0.0;
    assert x * d > 0.0;
  }

  lemma {:induction false} OnlyZeros(args: seq<Value>)
    requires forall i :: 0 <= i < |args| ==> args[i].Null? || args[i] == Num(0.0)
    ensures args != [] ==> Run(Avg, args) == Num(0.0)
    ensures Total(NonNull(args)) == 0.0 && |NonNull(args)| <= |args|
    ensures (exists i :: 0 <= i < |args| && args[i].Null?) ==> |NonNull(args)| < |args|
  {
    if args == [] {
      assert NonNull(args) == [] && Total([]) == 0.0;
    } else {
      var init, a := args[..|args| - 1], args[|args| - 1];
      assert args == init + [a];
      OnlyZeros(init);
      hide *;
      ZeroStep(init, a);
      if i :| 0 <= i < |args| && args[i].Null? && a.Num? {
        assert init[i].Null?;
      }
    }
  }

  lemma ZeroStep(init: seq<Value>, a: Value)
    requires a.Null? || a == Num(0.0)
    requires init != [] ==> Run(Avg, init) == Num(0.0)
    ensures Run(Avg, init + [a]) == Num(0.0)
    ensures Total(NonNull(init + [a])) == Total(NonNull(init))
    ensures |NonNull(init + [a])| == |NonNull(init)| + if a.Null? then 0 else 1
  {
    RunStep(Avg, init, a);
    NonNullStep(init, a);
    assert init == [] ==> Run(Avg, init) == Null;
    MeanOfZeros(|init| + 1, Run(Avg, init), a);
    hide *;
    assert NonNull(init) + [] == NonNull(init);
    if a.Num? {
      assert a.v == 0.0;
      TotalStep(NonNull(init), 0.0);
    }
  }

  lemma MeanOfZeros(n: nat, before: Value, a: Value)
    requires n > 0 && (a.Null? || a == Num(0.0)) && (before == Num(0.0) || before == Null)
    ensures Step(Avg, n, before, a) == Num(0.0)
  {}

  /** NULLs at the end change nothing. */
  lemma {:induction false} NullsBehind(args: seq<Value>, k: nat)
    requires 0 < k <= |args| && forall i :: k <= i < |args| ==> args[i].Null?
    requires Run(Avg, args[..k]).Num?
    ensures Run(Avg, args) == Run(Avg, args[..k]) && NonNull(args) == NonNull(args[..k])
    decreases |args|
  {
    if k == |args| {
      assert args[..k] == args;
    } else {
      var init := args[..|args| - 1];
      assert init[..k] == args[..k];
      NullsBehind(init, k);
      assert NonNull(init) + [] == NonNull(init);
    }
  }

  // ------------------------------------------------------------------------------- the groups

  function Members(q: Query, ts: seq<Tuple>, k: Key): seq<Tuple> {
    if ts == [] then []
    else Members(q, ts[..|ts| - 1], k) + if q.key(ts[|ts| - 1]) == k then [ts[|ts| - 1]] else []
  }

  function Args(a: Aggregate, ts: seq<Tuple>): seq<Value> {
    if ts == [] then [] else Args(a, ts[..|ts| - 1]) + [a.arg(ts[|ts| - 1])]
  }

  /** The group that results from running over its members. */
  ghost predicate GroupIs(q: Query, g: Group, ms: seq<Tuple>) {
    && g.count == |ms| && |g.values| == |q.aggregates|
    && forall i :: 0 <= i < |g.values| ==> g.values[i] == Run(q.aggregates[i].fn, Args(q.aggregates[i], ms))
  }

  type Groups = map<Key, Group>

  /** One group for each key that occurs, over all tuples with this key. */
  ghost predicate Grouped(q: Query, groups: Groups, ts: seq<Tuple>) {
    && (forall k :: k in groups <==> Members(q, ts, k) != [])
    && forall k :: k in groups ==> GroupIs(q, groups[k], Members(q, ts, k))
  }

  lemma MembersStep(q: Query, ts: seq<Tuple>, t: Tuple, k: Key)
    ensures Members(q, ts + [t], k) == Members(q, ts, k) + if q.key(t) == k then [t] else []
  {
    assert (ts + [t])[..|ts|] == ts;
  }

  lemma ArgsStep(a: Aggregate, ts: seq<Tuple>, t: Tuple)
    ensures Args(a, ts + [t]) == Args(a, ts) + [a.arg(t)]
  {
    assert (ts + [t])[..|ts|] == ts;
  }

  lemma {:induction false} ArgsSize(a: Aggregate, ts: seq<Tuple>)
    ensures |Args(a, ts)| == |ts|
  {
    if ts != [] {
      ArgsSize(a, ts[..|ts| - 1]);
    }
  }

  lemma RunStep(fn: AggFn, args: seq<Value>, arg: Value)
    ensures Run(fn, args + [arg]) == Step(fn, |args| + 1, Run(fn, args), arg)
  {
    assert (args + [arg])[..|args|] == args;
  }

  /** Adds a tuple to its group. */
  method PerformAggregation(q: Query, group: Group, t: Tuple, ghost ms: seq<Tuple>) returns (next: Group)
    requires GroupIs(q, group, ms)
    ensures GroupIs(q, next, ms + [t])
  {
    var nth, values := group.count + 1, group.values;
    var i := 0;
    while i < |q.aggregates|
      invariant 0 <= i <= |q.aggregates| == |values|
      invariant forall k :: i <= k < |values| ==> values[k] == group.values[k]
      invariant forall k :: 0 <= k < i ==> values[k] == Run(q.aggregates[k].fn, Args(q.aggregates[k], ms + [t]))
    {
      var a := q.aggregates[i];
      ArgsStep(a, ms, t);
      ArgsSize(a, ms);
      RunStep(a.fn, Args(a, ms), a.arg(t));
      hide Step, Run, Args;
      values := values[i := Step(a.fn, nth, values[i], a.arg(t))];
      i := i + 1;
    }
    next := Group(nth, values);
  }

  lemma GroupedStep(q: Query, groups: Groups, ts: seq<Tuple>, t: Tuple, g: Group)
    requires Grouped(q, groups, ts) && GroupIs(q, g, Members(q, ts, q.key(t)) + [t])
    ensures Grouped(q, groups[q.key(t) := g], ts + [t])
  {
    hide GroupIs, Members;
    var key := q.key(t);
    var next := groups[key := g];
    forall k: Key ensures k in next <==> Members(q, ts + [t], k) != [] {
      OtherMembers(q, ts, t, k);
    }
    forall k: Key | k in next ensures GroupIs(q, next[k], Members(q, ts + [t], k)) {
      OtherMembers(q, ts, t, k);
    }
  }

  lemma OtherMembers(q: Query, ts: seq<Tuple>, t: Tuple, k: Key)
    ensures k == q.key(t) ==> Members(q, ts + [t], k) == Members(q, ts, k) + [t] && Members(q, ts + [t], k) != []
    ensures k != q.key(t) ==> Members(q, ts + [t], k) == Members(q, ts, k)
  {
    MembersStep(q, ts, t, k);
    hide Members;
    assert Members(q, ts, k) + [] == Members(q, ts, k);
  }

  /** The table after all blocks of the stream. */
  method HashBasedGrouping(q: Query, stream: Stream) returns (groups: Groups)
    ensures Grouped(q, groups, Flat(stream))
  {
    groups := map[];
    assert Flat(stream[..0]) == [];
    var b := 0;
    while b < |stream|
      invariant 0 <= b <= |stream| && Grouped(q, groups, Flat(stream[..b]))
    {
      FlatStep(stream, b);
      groups := GroupBlock(q, groups, stream[b], Flat(stream[..b]));
      b := b + 1;
    }
    assert stream[..b] == stream;
  }

  method GroupBlock(q: Query, before: Groups, block: seq<Tuple>, ghost ts: seq<Tuple>) returns (groups: Groups)
    requires Grouped(q, before, ts)
    ensures Grouped(q, groups, ts + block)
  {
    groups := before;
    var i := 0;
    assert ts + block[..0] == ts;
    while i < |block|
      invariant 0 <= i <= |block| && Grouped(q, groups, ts + block[..i])
    {
      hide *;
      groups := GroupTuple(q, groups, block[i], ts + block[..i]);
      assert ts + block[..i] + [block[i]] == ts + block[..i + 1];
      i := i + 1;
    }
    assert block[..i] == block;
  }

  /** Finds the group of the tuple, or begins it, and adds the tuple to it. */
  method GroupTuple(q: Query, groups: Groups, t: Tuple, ghost ts: seq<Tuple>) returns (next: Groups)
    requires Grouped(q, groups, ts)
    ensures Grouped(q, next, ts + [t])
  {
    var key := q.key(t);
    NewGroup(q, groups, ts, key);
    hide *;
    var group := if key in groups then groups[key] else Group(0, seq(|q.aggregates|, _ => Null));
    var updated := PerformAggregation(q, group, t, Members(q, ts, key));
    GroupedStep(q, groups, ts, t, updated);
    next := groups[key := updated];
  }

  lemma NewGroup(q: Query, groups: Groups, ts: seq<Tuple>, k: Key)
    requires Grouped(q, groups, ts)
    ensures GroupIs(q, if k in groups then groups[k] else Group(0, seq(|q.aggregates|, _ => Null)), Members(q, ts, k))
  {
    hide Members;
    if k !in groups {
      assert Members(q, ts, k) == [];
    }
  }

  /** What the groups hold: for every key the number of its tuples, and the aggregates over the
      arguments of these tuples. */
  lemma GroupsMean(q: Query, groups: Groups, ts: seq<Tuple>, k: Key, i: nat)
    requires Grouped(q, groups, ts) && i < |q.aggregates|
    ensures k in groups <==> exists t :: t in ts && q.key(t) == k
    ensures k in groups ==>
              var a := q.aggregates[i];
              var args := Args(a, Members(q, ts, k));
              && groups[k].count == |Members(q, ts, k)| == |args| > 0
              && |groups[k].values| == |q.aggregates| && Means(a.fn, args, groups[k].values[i])
  {
    MembersExist(q, ts, k);
    if k in groups {
      var a := q.aggregates[i];
      assert GroupIs(q, groups[k], Members(q, ts, k));
      ArgsSize(a, Members(q, ts, k));
      RunMeans(a.fn, Args(a, Members(q, ts, k)));
      hide Means, Run, Args, Members;
    }
  }

  lemma {:induction false} MembersExist(q: Query, ts: seq<Tuple>, k: Key)
    ensures Members(q, ts, k) != [] <==> exists t :: t in ts && q.key(t) == k
  {
    if ts != [] {
      MembersExist(q, ts[..|ts| - 1], k);
      assert forall t :: t in ts <==> t in ts[..|ts| - 1] || t == ts[|ts| - 1];
    }
  }

  // ------------------------------------------------------------------------- handing on groups

  type Rows = seq<(Key, Group)>

  function Among(q: Query, ts: seq<Tuple>, ks: set<Key>): seq<Tuple> {
    if ts == [] then []
    else Among(q, ts[..|ts| - 1], ks) + if q.key(ts[|ts| - 1]) in ks then [ts[|ts| - 1]] else []
  }

  lemma {:induction false} AmongSplits(q: Query, ts: seq<Tuple>, ks: set<Key>, k: Key)
    requires k in ks
    ensures |Among(q, ts, ks)| == |Members(q, ts, k)| + |Among(q, ts, ks - {k})|
  {
    if ts != [] {
      AmongSplits(q, ts[..|ts| - 1], ks, k);
    }
  }

  lemma {:induction false} AmongAll(q: Query, ts: seq<Tuple>, ks: set<Key>)
    requires forall t :: t in ts ==> q.key(t) in ks
    ensures Among(q, ts, ks) == ts
  {
    if ts != [] {
      AmongAll(q, ts[..|ts| - 1], ks);
    }
  }

  lemma {:induction false} AmongNone(q: Query, ts: seq<Tuple>)
    ensures Among(q, ts, {}) == []
  {
    if ts != [] {
      AmongNone(q, ts[..|ts| - 1]);
    }
  }

  function TotalCount(rows: Rows): nat {
    if rows == [] then 0 else TotalCount(rows[..|rows| - 1]) + rows[|rows| - 1].1.count
  }

  function FlatRows(blocks: seq<Rows>): Rows {
    if blocks == [] then [] else FlatRows(blocks[..|blocks| - 1]) + blocks[|blocks| - 1]
  }

  /** Rows for some keys, each once, with their groups. */
  ghost predicate RowsOf(rows: Rows, groups: Groups, ks: set<Key>) {
    && (forall i :: 0 <= i < |rows| ==> rows[i].0 in ks && rows[i].0 in groups && rows[i].1 == groups[rows[i].0])
    && (forall k :: k in ks ==> exists i :: 0 <= i < |rows| && rows[i].0 == k)
    && forall i, j :: 0 <= i < j < |rows| ==> rows[i].0 != rows[j].0
  }

  lemma RowsStep(rows: Rows, groups: Groups, ks: set<Key>, k: Key)
    requires RowsOf(rows, groups, ks) && k !in ks && k in groups
    ensures RowsOf(rows + [(k, groups[k])], groups, ks + {k})
    ensures TotalCount(rows + [(k, groups[k])]) == TotalCount(rows) + groups[k].count
  {
    var longer := rows + [(k, groups[k])];
    assert longer[..|rows|] == rows && longer[|rows|].0 == k;
    forall x | x in ks + {k} ensures exists i :: 0 <= i < |longer| && longer[i].0 == x {
      if x in ks {
        var i :| 0 <= i < |rows| && rows[i].0 == x;
        assert longer[i].0 == x;
      }
    }
  }

  /** What has been handed on, and the tuples of the keys that remain. */
  ghost predicate Handing(q: Query, groups: Groups, ts: seq<Tuple>, rows: Rows, rest: set<Key>) {
    && rest <= groups.Keys && RowsOf(rows, groups, groups.Keys - rest)
    && TotalCount(rows) + |Among(q, ts, rest)| == |ts|
  }

  lemma AllKeys(q: Query, groups: Groups, ts: seq<Tuple>)
    requires Grouped(q, groups, ts)
    ensures Handing(q, groups, ts, [], groups.Keys)
  {
    hide Members, Among;
    forall t | t in ts ensures q.key(t) in groups.Keys {
      MembersExist(q, ts, q.key(t));
    }
    AmongAll(q, ts, groups.Keys);
  }

  lemma HandOn(q: Query, groups: Groups, ts: seq<Tuple>, rows: Rows, rest: set<Key>, k: Key)
    requires Grouped(q, groups, ts) && Handing(q, groups, ts, rows, rest) && k in rest
    ensures Handing(q, groups, ts, rows + [(k, groups[k])], rest - {k})
  {
    AmongSplits(q, ts, rest, k);
    KeyFacts(q, groups, ts, rows, rest, k);
    var ks := groups.Keys - rest;
    hide *;
    RowsStep(rows, groups, ks, k);
    assert ks + {k} == groups.Keys - (rest - {k});
    HandingIs(q, groups, ts, rows + [(k, groups[k])], rest - {k});
  }

  lemma KeyFacts(q: Query, groups: Groups, ts: seq<Tuple>, rows: Rows, rest: set<Key>, k: Key)
    requires Grouped(q, groups, ts) && Handing(q, groups, ts, rows, rest) && k in rest
    ensures k in groups && groups[k].count == |Members(q, ts, k)| && rest <= groups.Keys
    ensures RowsOf(rows, groups, groups.Keys - rest) && TotalCount(rows) + |Among(q, ts, rest)| == |ts|
  {
    hide RowsOf, Members, Among;
  }

  lemma HandingIs(q: Query, groups: Groups, ts: seq<Tuple>, rows: Rows, rest: set<Key>)
    requires rest <= groups.Keys && RowsOf(rows, groups, groups.Keys - rest)
             && TotalCount(rows) + |Among(q, ts, rest)| == |ts|
    ensures Handing(q, groups, ts, rows, rest)
  {
    hide RowsOf, Among;
  }

  lemma RestIsGrouped(q: Query, groups: Groups, ts: seq<Tuple>, rows: Rows, rest: set<Key>, k: Key)
    requires Handing(q, groups, ts, rows, rest) && k in rest
    ensures k in groups
  {}

  /** Moves `n` groups into a block, in any order. */
  method TakeGroups(q: Query, groups: Groups, ghost ts: seq<Tuple>, ghost rows: Rows, before: set<Key>, n: nat)
    returns (block: Rows, rest: set<Key>)
    requires Grouped(q, groups, ts) && Handing(q, groups, ts, rows, before) && n <= |before|
    ensures |block| == n && |rest| == |before| - n && Handing(q, groups, ts, rows + block, rest)
  {
    block, rest := [], before;
    assert rows + [] == rows;
    hide *;
    while |block| < n
      invariant |block| <= n && |rest| == |before| - |block|
      invariant Handing(q, groups, ts, rows + block, rest)
    {
      var k :| k in rest;
      RestIsGrouped(q, groups, ts, rows + block, rest, k);
      HandOn(q, groups, ts, rows + block, rest, k);
      assert rows + (block + [(k, groups[k])]) == rows + block + [(k, groups[k])];
      block := block + [(k, groups[k])];
      rest := rest - {k};
    }
  }

  lemma NoRows()
    ensures FlatRows([]) == [] && CAPACITY > 0
  {}

  lemma FlatRowsStep(blocks: seq<Rows>, block: Rows)
    ensures FlatRows(blocks + [block]) == FlatRows(blocks) + block
  {
    assert (blocks + [block])[..|blocks|] == blocks;
  }

  lemma AllHanded(q: Query, groups: Groups, ts: seq<Tuple>, rows: Rows)
    requires Handing(q, groups, ts, rows, {})
    ensures RowsOf(rows, groups, groups.Keys) && TotalCount(rows) == |ts|
  {
    AmongNone(q, ts);
    assert groups.Keys - {} == groups.Keys;
  }

  /** Blocks of groups: full ones first, and a last one with what remains, which may be nothing.
      Every group is handed on exactly once, and the counts add up to the number of tuples. */
  method EmitGroups(q: Query, groups: Groups, ghost ts: seq<Tuple>) returns (output: seq<Rows>)
    requires Grouped(q, groups, ts)
    ensures RowsOf(FlatRows(output), groups, groups.Keys)
    ensures TotalCount(FlatRows(output)) == |ts|
    ensures output != [] && forall i :: 0 <= i < |output| ==> |output[i]| <= CAPACITY
  {
    hide *;
    output := [];
    var rest := groups.Keys;
    AllKeys(q, groups, ts);
    NoRows();
    var block;
    while |rest| >= CAPACITY
      invariant Handing(q, groups, ts, FlatRows(output), rest)
      invariant forall i :: 0 <= i < |output| ==> |output[i]| <= CAPACITY
      decreases |rest|
    {
      block, rest := TakeGroups(q, groups, ts, FlatRows(output), rest, CAPACITY);
      FlatRowsStep(output, block);
      output := output + [block];
    }
    block, rest := TakeGroups(q, groups, ts, FlatRows(output), rest, |rest|);
    FlatRowsStep(output, block);
    output := output + [block];
    assert rest == {};
    AllHanded(q, groups, ts, FlatRows(output));
  }

  // ------------------------------------------------------------------------- without any keys

  /** The initial value of an aggregate without keys. */
  function Initial(fn: AggFn): Value {
    if fn == Min || fn == Max then Null else Num(0.0)
  }

  /** On a non-empty input the initial value makes no difference to the first update. */
  lemma SameFirstStep(fn: AggFn, arg: Value)
    ensures Step(fn, 1, Initial(fn), arg) == Step(fn, 1, Null, arg)
  {}

  /** The aggregates of all tuples so far. */
  ghost predicate AggregatesAre(aggs: seq<Aggregate>, values: seq<Value>, ts: seq<Tuple>) {
    && |values| == |aggs|
    && forall i :: 0 <= i < |aggs| ==>
         values[i] == if ts == [] then Initial(aggs[i].fn) else Run(aggs[i].fn, Args(aggs[i], ts))
  }

  lemma AggregateStep(a: Aggregate, val: Value, ts: seq<Tuple>, t: Tuple)
    requires val == if ts == [] then Initial(a.fn) else Run(a.fn, Args(a, ts))
    ensures Step(a.fn, |ts| + 1, val, a.arg(t)) == Run(a.fn, Args(a, ts + [t]))
  {
    ArgsStep(a, ts, t);
    ArgsSize(a, ts);
    RunStep(a.fn, Args(a, ts), a.arg(t));
    SameFirstStep(a.fn, a.arg(t));
    hide Step, Initial;
  }

  method AddToAll(aggs: seq<Aggregate>, before: seq<Value>, nth: nat, t: Tuple, ghost ts: seq<Tuple>)
    returns (values: seq<Value>)
    requires AggregatesAre(aggs, before, ts) && nth == |ts| + 1
    ensures AggregatesAre(aggs, values, ts + [t])
  {
    values := before;
    var i := 0;
    hide Step, Run, Args, Initial;
    while i < |aggs|
      invariant 0 <= i <= |aggs| == |values|
      invariant forall k :: i <= k < |values| ==> values[k] == before[k]
      invariant forall k :: 0 <= k < i ==> values[k] == Run(aggs[k].fn, Args(aggs[k], ts + [t]))
    {
      AggregateStep(aggs[i], before[i], ts, t);
      values := values[i := Step(aggs[i].fn, nth, values[i], aggs[i].arg(t))];
      i := i + 1;
    }
  }

  /** The aggregates mean what they should, also over no tuples. */
  lemma AggregatesMean(aggs: seq<Aggregate>, values: seq<Value>, ts: seq<Tuple>)
    requires AggregatesAre(aggs, values, ts)
    ensures forall i :: 0 <= i < |aggs| ==> Means(aggs[i].fn, Args(aggs[i], ts), values[i])
  {
    forall i | 0 <= i < |aggs| ensures Means(aggs[i].fn, Args(aggs[i], ts), values[i]) {
      ArgsSize(aggs[i], ts);
      if ts != [] {
        RunMeans(aggs[i].fn, Args(aggs[i], ts));
      }
    }
  }

  /** Aggregation without keys.  On a non-empty input it agrees with the one group of a grouping
      whose key is the same for all tuples; over no tuples counts, sums and averages are zero, and
      least and greatest values are NULL. */
  method AggregateStream(aggs: seq<Aggregate>, stream: Stream) returns (values: seq<Value>)
    ensures AggregatesAre(aggs, values, Flat(stream))
    ensures forall i :: 0 <= i < |aggs| ==> Means(aggs[i].fn, Args(aggs[i], Flat(stream)), values[i])
    ensures Flat(stream) == [] ==> forall i :: 0 <= i < |aggs| ==>
              values[i] == if aggs[i].fn == Min || aggs[i].fn == Max then Null else Num(0.0)
  {
    values := seq(|aggs|, i requires 0 <= i < |aggs| => Initial(aggs[i].fn));
    var nth, b := 0, 0;
    assert Flat(stream[..0]) == [];
    assert AggregatesAre(aggs, values, Flat(stream[..0]));
    while b < |stream|
      invariant 0 <= b <= |stream| && AggregatesAre(aggs, values, Flat(stream[..b])) && nth == |Flat(stream[..b])|
    {
      FlatStep(stream, b);
      ghost var ts := Flat(stream[..b]);
      var block, i := stream[b], 0;
      assert ts + block[..0] == ts;
      hide AggregatesAre, Flat;
      while i < |block|
        invariant 0 <= i <= |block| && AggregatesAre(aggs, values, ts + block[..i]) && nth == |ts| + i
      {
        nth := nth + 1;
        values := AddToAll(aggs, values, nth, block[i], ts + block[..i]);
        assert ts + block[..i] + [block[i]] == ts + block[..i + 1];
        i := i + 1;
      }
      assert block[..i] == block;
      b := b + 1;
    }
    assert stream[..b] == stream;
    AggregatesMean(aggs, values, Flat(stream));
  }

  /** One group for all tuples. */
  function KeylessQuery(aggs: seq<Aggregate>): Query {
    Query((t: Tuple) => [], aggs)
  }

  lemma {:induction false} AllInOneGroup(aggs: seq<Aggregate>, ts: seq<Tuple>)
    ensures Members(KeylessQuery(aggs), ts, []) == ts
  {
    if ts != [] {
      AllInOneGroup(aggs, ts[..|ts| - 1]);
    }
  }

  lemma KeylessAgrees(aggs: seq<Aggregate>, values: seq<Value>, groups: Groups, ts: seq<Tuple>)
    requires ts != [] && AggregatesAre(aggs, values, ts) && Grouped(KeylessQuery(aggs), groups, ts)
    ensures [] in groups && groups[[]] == Group(|ts|, values)
  {
    AllInOneGroup(aggs, ts);
    var none: Key := [];
    assert none in groups && GroupIs(KeylessQuery(aggs), groups[none], ts);
    assert groups[none].values == values;
  }
}
