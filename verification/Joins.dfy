/** The two join algorithms of the interpreter: nested loops over buffered children, driven by a
    single loop over positions, and a hash join that emits its results in batches. */
module Joins {
  import opened Cnf
  import opened Blocks

  type Buffers = seq<seq<Tuple>>
  type Combination = seq<Tuple>

  /** How a combination of buffered tuples is joined with a tuple of the last child. */
  datatype JoinSpec = JoinSpec(holds: (Combination, Tuple) -> Truth, combine: (Combination, Tuple) -> Tuple)

  // ------------------------------------------------------------------------- combinations

  /** The combinations that begin with the prefix, in lexicographic order of positions. */
  function Extend(bs: Buffers, prefix: Combination, k: nat): seq<Combination>
    requires k <= |bs|
    decreases |bs| - k, 0, 0
  {
    if k == |bs| then [prefix] else From(bs, prefix, k, 0)
  }

  /** Those that continue the prefix with the tuples of buffer `k` from position `i` on. */
  function From(bs: Buffers, prefix: Combination, k: nat, i: nat): seq<Combination>
    requires k < |bs| && i <= |bs[k]|
    decreases |bs| - k - 1, 1, |bs[k]| - i
  {
    if i == |bs[k]| then [] else Extend(bs, prefix + [bs[k][i]], k + 1) + From(bs, prefix, k, i + 1)
  }

  function Combinations(bs: Buffers): seq<Combination> {
    Extend(bs, [], 0)
  }

  function JoinedWith(j: JoinSpec, c: Combination, rhs: seq<Tuple>): seq<Tuple> {
    if rhs == [] then []
    else (if j.holds(c, rhs[0]) == True then [j.combine(c, rhs[0])] else []) + JoinedWith(j, c, rhs[1..])
  }

  function JoinedAll(j: JoinSpec, cs: seq<Combination>, rhs: seq<Tuple>): seq<Tuple> {
    if cs == [] then [] else JoinedWith(j, cs[0], rhs) + JoinedAll(j, cs[1..], rhs)
  }

  // --------------------------------------------------------------------------- the odometer

  /** A position in each buffer; a buffer whose tuples have not been started on is at -1. */
  type Positions = seq<int>

  /** For each buffer that has been started on: the tuples chosen before it, and the position of
      the tuple that it comes to next. */
  type Frames = seq<(Combination, nat)>

  ghost predicate InRange(bs: Buffers, fs: Frames) {
    |fs| <= |bs| && forall k :: 0 <= k < |fs| ==> fs[k].1 <= |bs[k]|
  }

  /** All combinations that are still to come, innermost buffer first. */
  ghost function Pending(bs: Buffers, fs: Frames): seq<Combination>
    requires InRange(bs, fs)
  {
    if fs == [] then []
    else
      var k := |fs| - 1;
      From(bs, fs[k].0, k, fs[k].1) + Pending(bs, fs[..k])
  }

  /** The steps that the loop needs to exhaust buffer `k` from position `i` on. */
  ghost function StepsFrom(bs: Buffers, k: nat, i: nat): nat
    requires k < |bs| && i <= |bs[k]|
    decreases |bs| - k, |bs[k]| - i
  {
    if i == |bs[k]| then 1
    else 1 + (if k + 1 == |bs| then 1 else StepsFrom(bs, k + 1, 0)) + StepsFrom(bs, k, i + 1)
  }

  ghost function StepsLeft(bs: Buffers, fs: Frames): nat
    requires InRange(bs, fs)
  {
    if fs == [] then 0
    else
      var k := |fs| - 1;
      StepsFrom(bs, k, fs[k].1) + StepsLeft(bs, fs[..k])
  }

  lemma FromUnfolds(bs: Buffers, prefix: Combination, k: nat, i: nat)
    requires k < |bs| && i < |bs[k]|
    ensures var next := prefix + [bs[k][i]];
            From(bs, prefix, k, i)
              == (if k + 1 == |bs| then [next] else From(bs, next, k + 1, 0)) + From(bs, prefix, k, i + 1)
    ensures StepsFrom(bs, k, i) == 1 + (if k + 1 == |bs| then 1 else StepsFrom(bs, k + 1, 0)) + StepsFrom(bs, k, i + 1)
  {}

  lemma PendingLast(bs: Buffers, fs: Frames, c: Combination, i: nat)
    requires InRange(bs, fs) && |fs| < |bs| && i <= |bs[|fs|]|
    ensures InRange(bs, fs + [(c, i)])
    ensures Pending(bs, fs + [(c, i)]) == From(bs, c, |fs|, i) + Pending(bs, fs)
    ensures StepsLeft(bs, fs + [(c, i)]) == StepsFrom(bs, |fs|, i) + StepsLeft(bs, fs)
  {
    assert (fs + [(c, i)])[..|fs|] == fs;
  }

  /** A buffer with another tuple continues behind this tuple, after all that the tuple begins. */
  lemma Descend(bs: Buffers, fs: Frames, p: Combination, i: nat)
    requires InRange(bs, fs) && |fs| < |bs| && i < |bs[|fs|]|
    ensures var k, advanced, c := |fs|, fs + [(p, i + 1)], p + [bs[|fs|][i]];
            && InRange(bs, fs + [(p, i)]) && InRange(bs, advanced)
            && (k + 1 == |bs| ==> Pending(bs, fs + [(p, i)]) == [c] + Pending(bs, advanced)
                                  && StepsLeft(bs, fs + [(p, i)]) == 2 + StepsLeft(bs, advanced))
            && (k + 1 < |bs| ==> InRange(bs, advanced + [(c, 0)])
                                 && Pending(bs, fs + [(p, i)]) == Pending(bs, advanced + [(c, 0)])
                                 && StepsLeft(bs, fs + [(p, i)]) == 1 + StepsLeft(bs, advanced + [(c, 0)]))
  {
    var k, advanced, c := |fs|, fs + [(p, i + 1)], p + [bs[|fs|][i]];
    PendingLast(bs, fs, p, i);
    PendingLast(bs, fs, p, i + 1);
    FromUnfolds(bs, p, k, i);
    hide From, Pending, StepsFrom, StepsLeft;
    var rest := From(bs, p, k, i + 1);
    if k + 1 < |bs| {
      PendingLast(bs, advanced, c, 0);
      assert (From(bs, c, k + 1, 0) + rest) + Pending(bs, fs) == From(bs, c, k + 1, 0) + (rest + Pending(bs, fs));
    } else {
      assert ([c] + rest) + Pending(bs, fs) == [c] + (rest + Pending(bs, fs));
    }
  }

  lemma Backtrack(bs: Buffers, fs: Frames, p: Combination)
    requires InRange(bs, fs) && |fs| < |bs|
    ensures InRange(bs, fs + [(p, |bs[|fs|]|)])
    ensures Pending(bs, fs + [(p, |bs[|fs|]|)]) == Pending(bs, fs)
    ensures StepsLeft(bs, fs + [(p, |bs[|fs|]|)]) == 1 + StepsLeft(bs, fs)
  {
    PendingLast(bs, fs, p, |bs[|fs|]|);
    assert [] + Pending(bs, fs) == Pending(bs, fs);
  }

  ghost predicate PositionAt(ps: Positions, fs: Frames, k: nat)
    requires k < |ps|
  {
    if k < |fs| then ps[k] + 1 == fs[k].1 else ps[k] == -1
  }

  ghost predicate LinkAt(bs: Buffers, fs: Frames, k: nat)
    requires InRange(bs, fs) && k < |fs|
  {
    if k == 0 then fs[0].0 == []
    else fs[k - 1].1 > 0 && fs[k].0 == fs[k - 1].0 + [bs[k - 1][fs[k - 1].1 - 1]]
  }

  /** The positions are those of the frames, and the frames are linked by the chosen tuples. */
  ghost predicate Linked(bs: Buffers, ps: Positions, fs: Frames) {
    && InRange(bs, fs) && |ps| == |bs| && fs != []
    && (forall k :: 0 <= k < |ps| ==> PositionAt(ps, fs, k))
    && forall k :: 0 <= k < |fs| ==> LinkAt(bs, fs, k)
  }

  lemma LinkedLast(bs: Buffers, ps: Positions, fs: Frames)
    requires Linked(bs, ps, fs)
    ensures var k := |fs| - 1;
            k < |bs| == |ps| && InRange(bs, fs[..k]) && ps[k] + 1 == fs[k].1 <= |bs[k]| && fs == fs[..k] + [fs[k]]
  {
    var k := |fs| - 1;
    assert PositionAt(ps, fs, k);
    hide PositionAt, LinkAt;
  }

  /** The last frame moves to its next tuple. */
  lemma LinkedAdvance(bs: Buffers, ps: Positions, fs: Frames, qs: Positions, gs: Frames)
    requires Linked(bs, ps, fs)
    requires var k := |fs| - 1;
             k < |bs| == |ps| && fs[k].1 < |bs[k]| && qs == ps[k := fs[k].1] && gs == fs[k := (fs[k].0, fs[k].1 + 1)]
    ensures Linked(bs, qs, gs)
  {
    var k := |fs| - 1;
    forall i | 0 <= i < |qs| ensures PositionAt(qs, gs, i) {
      assert PositionAt(ps, fs, i);
    }
    assert InRange(bs, gs);
    forall i | 0 <= i < |gs| ensures LinkAt(bs, gs, i) {
      assert LinkAt(bs, fs, i);
    }
  }

  /** A new frame begins behind the tuple of the last one. */
  lemma LinkedDeeper(bs: Buffers, ps: Positions, fs: Frames, c: Combination)
    requires Linked(bs, ps, fs) && |fs| < |bs|
    requires var k := |fs| - 1; fs[k].1 > 0 && c == fs[k].0 + [bs[k][fs[k].1 - 1]]
    ensures Linked(bs, ps, fs + [(c, 0)])
  {
    var gs := fs + [(c, 0)];
    forall i | 0 <= i < |ps| ensures PositionAt(ps, gs, i) {
      assert PositionAt(ps, fs, i);
    }
    assert InRange(bs, gs);
    forall i | 0 <= i < |gs| ensures LinkAt(bs, gs, i) {
      if i < |fs| {
        assert LinkAt(bs, fs, i);
      }
    }
  }

  /** The last frame is given up. */
  lemma LinkedBack(bs: Buffers, ps: Positions, fs: Frames, qs: Positions)
    requires Linked(bs, ps, fs) && |fs| >= 2 && |fs| - 1 < |ps| && qs == ps[|fs| - 1 := -1]
    ensures Linked(bs, qs, fs[..|fs| - 1])
  {
    var gs := fs[..|fs| - 1];
    forall i | 0 <= i < |qs| ensures PositionAt(qs, gs, i) {
      assert PositionAt(ps, fs, i);
    }
    assert InRange(bs, gs);
    forall i | 0 <= i < |gs| ensures LinkAt(bs, gs, i) {
      assert LinkAt(bs, fs, i);
    }
  }

  lemma JoinedStep(j: JoinSpec, c: Combination, cs: seq<Combination>, rhs: seq<Tuple>)
    ensures JoinedAll(j, [c] + cs, rhs) == JoinedWith(j, c, rhs) + JoinedAll(j, cs, rhs)
  {
    assert ([c] + cs)[1..] == cs;
  }

  /** Joins one combination with the tuples of the last child's block. */
  method CombineBlock(j: JoinSpec, c: Combination, rhs: seq<Tuple>) returns (out: seq<Tuple>)
    ensures out == JoinedWith(j, c, rhs)
  {
    out := [];
    var i := 0;
    assert rhs[..0] == [];
    while i < |rhs|
      invariant 0 <= i <= |rhs| && out == JoinedWith(j, c, rhs[..i])
    {
      JoinedWithNext(j, c, rhs, i);
      hide *;
      if j.holds(c, rhs[i]) == True {
        out := out + [j.combine(c, rhs[i])];
      }
      i := i + 1;
    }
    assert rhs[..i] == rhs;
  }

  lemma {:induction false} JoinedWithAppend(j: JoinSpec, c: Combination, xs: seq<Tuple>, ys: seq<Tuple>)
    ensures JoinedWith(j, c, xs + ys) == JoinedWith(j, c, xs) + JoinedWith(j, c, ys)
  {
    if xs == [] {
      assert xs + ys == ys;
    } else {
      assert (xs + ys)[1..] == xs[1..] + ys;
      JoinedWithAppend(j, c, xs[1..], ys);
    }
  }

  lemma JoinedWithNext(j: JoinSpec, c: Combination, rhs: seq<Tuple>, i: nat)
    requires i < |rhs|
    ensures JoinedWith(j, c, rhs[..i + 1])
         == if j.holds(c, rhs[i]) == True then JoinedWith(j, c, rhs[..i]) + [j.combine(c, rhs[i])]
           else JoinedWith(j, c, rhs[..i])
  {
    assert rhs[..i + 1] == rhs[..i] + [rhs[i]];
    JoinedWithAppend(j, c, rhs[..i], [rhs[i]]);
    assert [rhs[i]][1..] == [];
  }

  /** What has been put out, and what the combinations to come will add, is all there is. */
  ghost predicate Progress(j: JoinSpec, bs: Buffers, rhs: seq<Tuple>, output: Stream, pending: seq<Combination>) {
    Flat(output) + JoinedAll(j, pending, rhs) == JoinedAll(j, Combinations(bs), rhs)
  }

  lemma Put(j: JoinSpec, bs: Buffers, rhs: seq<Tuple>, output: Stream, c: Combination, pending: seq<Combination>)
    requires Progress(j, bs, rhs, output, [c] + pending)
    ensures var out := JoinedWith(j, c, rhs);
            Progress(j, bs, rhs, if out == [] then output else output + [out], pending)
  {
    JoinedStep(j, c, pending, rhs);
    hide JoinedWith, JoinedAll, Combinations;
    var out := JoinedWith(j, c, rhs);
    assert (output + [out])[..|output|] == output;
    assert Flat(output) + (out + JoinedAll(j, pending, rhs)) == Flat(output) + out + JoinedAll(j, pending, rhs);
    assert Flat(output) + [] == Flat(output);
  }

  lemma StartOdometer(j: JoinSpec, bs: Buffers, rhs: seq<Tuple>, ps: Positions)
    requires bs != [] && |ps| == |bs| && forall i :: 0 <= i < |ps| ==> ps[i] == -1
    ensures Linked(bs, ps, [([], 0)]) && Progress(j, bs, rhs, [], Pending(bs, [([], 0)]))
  {
    PendingLast(bs, [], [], 0);
    var none: Frames := [];
    assert none + [([], 0)] == [([], 0)];
    assert From(bs, [], 0, 0) + [] == From(bs, [], 0, 0);
    assert Flat([]) == [];
  }

  lemma AllPut(j: JoinSpec, bs: Buffers, rhs: seq<Tuple>, output: Stream)
    requires Progress(j, bs, rhs, output, [])
    ensures Flat(output) == JoinedAll(j, Combinations(bs), rhs)
  {
    assert Flat(output) + [] == Flat(output);
  }

  /** The state of the loop: at the last child a combination is complete, otherwise the child is to
      be advanced. */
  ghost predicate Turning(j: JoinSpec, bs: Buffers, rhs: seq<Tuple>, output: Stream, ps: Positions, fs: Frames,
                          child: nat) {
    && Linked(bs, ps, fs) && child <= |bs|
    && (child < |bs| ==> |fs| == child + 1 && Progress(j, bs, rhs, output, Pending(bs, fs)))
    && (child == |bs| ==>
         |fs| == |bs| && fs[|bs| - 1].1 > 0 && Progress(j, bs, rhs, output, [Complete(bs, fs)] + Pending(bs, fs)))
  }

  ghost function Complete(bs: Buffers, fs: Frames): Combination
    requires InRange(bs, fs) && fs != [] && fs[|fs| - 1].1 > 0
  {
    var k := |fs| - 1;
    fs[k].0 + [bs[k][fs[k].1 - 1]]
  }

  ghost function Measure(bs: Buffers, fs: Frames, child: nat): nat
    requires InRange(bs, fs)
  {
    StepsLeft(bs, fs) + if child == |bs| then 1 else 0
  }

  /** The complete combination is the one at the positions. */
  method CurrentCombination(bs: Buffers, ps: Positions, ghost fs: Frames) returns (c: Combination)
    requires Linked(bs, ps, fs) && |fs| == |bs| && fs[|bs| - 1].1 > 0
    ensures c == Complete(bs, fs)
  {
    c := [];
    var cid := 0;
    assert LinkAt(bs, fs, 0);
    while cid < |bs|
      invariant 0 <= cid <= |bs|
      invariant c == if cid < |bs| then fs[cid].0 else Complete(bs, fs)
    {
      assert PositionAt(ps, fs, cid);
      assert cid + 1 < |fs| ==> LinkAt(bs, fs, cid + 1);
      c := c + [bs[cid][ps[cid]]];
      cid := cid + 1;
    }
  }

  lemma TurnFacts(j: JoinSpec, bs: Buffers, rhs: seq<Tuple>, output: Stream, ps: Positions, fs: Frames, child: nat)
    requires Turning(j, bs, rhs, output, ps, fs, child)
    ensures Linked(bs, ps, fs) && InRange(bs, fs) && |ps| == |bs| && child <= |bs|
    ensures child < |bs| ==> |fs| == child + 1 && ps[child] + 1 == fs[child].1 <= |bs[child]|
    ensures child == |bs| ==> |fs| == |bs| && fs[|bs| - 1].1 > 0
  {
    LinkedLast(bs, ps, fs);
    hide Pending, Progress, Linked, InRange;
  }

  lemma TurnDown(j: JoinSpec, bs: Buffers, rhs: seq<Tuple>, output: Stream, ps: Positions, fs: Frames, k: nat)
    returns (next: Frames)
    requires Turning(j, bs, rhs, output, ps, fs, k) && k < |bs| && |fs| == k + 1 && InRange(bs, fs) && fs[k].1 < |bs[k]|
    ensures |ps| == |bs| && Turning(j, bs, rhs, output, ps[k := fs[k].1], next, k + 1)
    ensures InRange(bs, next) && Measure(bs, next, k + 1) < Measure(bs, fs, k)
  {
    var (p, i) := fs[k];
    var before := fs[..k];
    TurnFacts(j, bs, rhs, output, ps, fs, k);
    TurnProgress(j, bs, rhs, output, ps, fs, k);
    LinkedLast(bs, ps, fs);
    Descend(bs, before, p, i);
    var advanced, c, qs := before + [(p, i + 1)], p + [bs[k][i]], ps[k := i];
    assert advanced == fs[k := (p, i + 1)] && |advanced| == k + 1 && advanced[k] == (p, i + 1);
    LinkedAdvance(bs, ps, fs, qs, advanced);
    hide *;
    if k + 1 < |bs| {
      LinkedDeeper(bs, qs, advanced, c);
      next := advanced + [(c, 0)];
      TurnsAt(j, bs, rhs, output, qs, next, k + 1);
      MeasureAt(bs, next, k + 1);
    } else {
      next := advanced;
      TurnsAtEnd(j, bs, rhs, output, qs, next, c);
      MeasureAt(bs, next, k + 1);
    }
    MeasureAt(bs, fs, k);
  }

  lemma TurnProgress(j: JoinSpec, bs: Buffers, rhs: seq<Tuple>, output: Stream, ps: Positions, fs: Frames, k: nat)
    requires Turning(j, bs, rhs, output, ps, fs, k) && k < |bs| && InRange(bs, fs)
    ensures Progress(j, bs, rhs, output, Pending(bs, fs))
  {
    hide Pending, Progress, Linked, InRange;
  }

  lemma TurnsAt(j: JoinSpec, bs: Buffers, rhs: seq<Tuple>, output: Stream, ps: Positions, fs: Frames, child: nat)
    requires Linked(bs, ps, fs) && child < |bs| && |fs| == child + 1 && InRange(bs, fs)
             && Progress(j, bs, rhs, output, Pending(bs, fs))
    ensures Turning(j, bs, rhs, output, ps, fs, child)
  {
    hide Pending, Progress, Linked, InRange;
  }

  lemma TurnsAtEnd(j: JoinSpec, bs: Buffers, rhs: seq<Tuple>, output: Stream, ps: Positions, fs: Frames, c: Combination)
    requires Linked(bs, ps, fs) && |fs| == |bs| > 0 && InRange(bs, fs) && fs[|bs| - 1].1 > 0
    requires c == fs[|bs| - 1].0 + [bs[|bs| - 1][fs[|bs| - 1].1 - 1]]
    requires Progress(j, bs, rhs, output, [c] + Pending(bs, fs))
    ensures Turning(j, bs, rhs, output, ps, fs, |bs|)
  {
    hide Pending, Progress, Linked;
  }

  lemma MeasureAt(bs: Buffers, fs: Frames, child: nat)
    requires InRange(bs, fs)
    ensures Measure(bs, fs, child) == StepsLeft(bs, fs) + if child == |bs| then 1 else 0
  {}

  lemma TurnBack(j: JoinSpec, bs: Buffers, rhs: seq<Tuple>, output: Stream, ps: Positions, fs: Frames, k: nat)
    requires Turning(j, bs, rhs, output, ps, fs, k) && k < |bs| && |fs| == k + 1 && InRange(bs, fs)
             && fs[k].1 == |bs[k]|
    ensures k > 0 ==> |ps| == |bs| && Turning(j, bs, rhs, output, ps[k := -1], fs[..k], k - 1)
    ensures InRange(bs, fs[..k]) && Measure(bs, fs[..k], k) < Measure(bs, fs, k)
    ensures k == 0 ==> Progress(j, bs, rhs, output, [])
  {
    var before := fs[..k];
    LinkedLast(bs, ps, fs);
    Backtrack(bs, before, fs[k].0);
    assert k == 0 ==> Pending(bs, before) == [];
    hide Pending, StepsLeft, Progress, Linked, InRange;
    if k > 0 {
      LinkedBack(bs, ps, fs, ps[k := -1]);
    }
  }

  lemma TurnAfterPut(j: JoinSpec, bs: Buffers, rhs: seq<Tuple>, output: Stream, ps: Positions, fs: Frames)
    requires bs != [] && Turning(j, bs, rhs, output, ps, fs, |bs|) && |fs| == |bs| && InRange(bs, fs)
             && fs[|bs| - 1].1 > 0
    ensures var out := JoinedWith(j, Complete(bs, fs), rhs);
            Turning(j, bs, rhs, if out == [] then output else output + [out], ps, fs, |bs| - 1)
    ensures Measure(bs, fs, |bs| - 1) < Measure(bs, fs, |bs|)
  {
    Put(j, bs, rhs, output, Complete(bs, fs), Pending(bs, fs));
    hide Pending, StepsLeft, Progress, Linked, InRange, Complete;
  }

  /** A block of the last child meets every combination of buffered tuples exactly once. */
  method NestedLoops(j: JoinSpec, bs: Buffers, rhs: seq<Tuple>) returns (output: Stream)
    requires bs != []
    ensures Flat(output) == JoinedAll(j, Combinations(bs), rhs)
    ensures forall i :: 0 <= i < |output| ==> output[i] != []
  {
    output := [];
    var positions: Positions := seq(|bs|, _ => -1);
    var child: nat := 0;
    ghost var fs: Frames := [([], 0)];
    StartOdometer(j, bs, rhs, positions);
    assert Turning(j, bs, rhs, output, positions, fs, child);
    assert InRange(bs, fs);
    hide *;
    while true
      invariant InRange(bs, fs) && Turning(j, bs, rhs, output, positions, fs, child)
      invariant forall i :: 0 <= i < |output| ==> output[i] != []
      decreases Measure(bs, fs, child)
    {
      TurnFacts(j, bs, rhs, output, positions, fs, child);
      if child == |bs| {
        var c := CurrentCombination(bs, positions, fs);
        var out := CombineBlock(j, c, rhs);
        TurnAfterPut(j, bs, rhs, output, positions, fs);
        if |out| > 0 {
          output := output + [out];
        }
        child := child - 1;
      } else {
        var position := positions[child] + 1;
        if position == |bs[child]| {
          TurnBack(j, bs, rhs, output, positions, fs, child);
          if child == 0 {
            AllPut(j, bs, rhs, output);
            break;
          }
          positions := positions[child := -1];
          fs := fs[..child];
          child := child - 1;
        } else {
          fs := TurnDown(j, bs, rhs, output, positions, fs, child);
          positions := positions[child := position];
          child := child + 1;
        }
      }
    }
  }
}
