/** Blocks of tuples with a mask of the slots in use, and the operators that filter streams of
    blocks in place. */
module Blocks {
  import opened SmallBitset
  import opened Cnf

  type Tuple = seq<int>

  const CAPACITY: nat := 64

  /** The numbers of the slots in ascending order. */
  function Slots(mask: Subproblem): seq<nat>
    decreases |mask|
  {
    if mask == {} then [] else [Min(mask)] + Slots(mask - {Min(mask)})
  }

  function Gather(data: seq<Tuple>, slots: seq<nat>): seq<Tuple> {
    if slots == [] then []
    else (if slots[0] < |data| then [data[slots[0]]] else []) + Gather(data, slots[1..])
  }

  /** The word arithmetic `mask & (mask - 1)` removes the lowest slot. */
  lemma ClearLowestOnWords(s: Subproblem, w: nat)
    requires {} < s <= Below(w)
    ensures 0 < Value(s, w) < Pow2(w)
    ensures BitAnd(Value(s, w), Value(s, w) - 1, w) == Value(s - {Min(s)}, w)
  {
    hide Below, Value, Min, Pow2, FromBits;
    LowestSlot(s, w);
    var m, rest := Min(s), s - {Min(s)};
    var lower := rest + Below(m);
    ValueBound(s, w);
    ValuePositive(s, w);
    ValueDisjoint(rest, {m}, w);
    ValueSingleton(m, w);
    ValueDisjoint(rest, Below(m), w);
    ValueOfBelow(m, w);
    FromBitsOfValue(s, w);
    BitsSpelling(lower, Value(s, w) - 1, w);
  }

  lemma LowestSlot(s: Subproblem, w: nat)
    requires {} < s <= Below(w)
    ensures var m, rest := Min(s), s - {Min(s)};
            && m in Below(w) && m < w && s == rest + {m} && rest !! {m} && rest !! Below(m)
            && s * (rest + Below(m)) == rest && (forall x | x in rest + Below(m) :: x < w)
  {
    assert Min(s) in Below(w);
  }

  lemma {:induction false} ValueOfBelow(m: nat, w: nat)
    requires m <= w
    ensures Value(Below(m), w) == Pow2(m) - 1
  {
    if w > m {
      ValueOfBelow(m, w - 1);
    } else if m > 0 {
      ValueOfBelow(m - 1, m - 1);
      ValueIgnoresAbove(Below(m), Below(m - 1), m - 1);
    }
  }

  class Block {
    const data: array<Tuple>
    var mask: Subproblem

    ghost predicate Valid()
      reads this
    {
      data.Length == CAPACITY && mask <= Below(CAPACITY)
    }

    /** The tuples in use, in the order of their slots. */
    ghost function Contents(): seq<Tuple>
      reads this, data
    {
      Gather(data[..], Slots(mask))
    }

    /** A block filled by a scan: the tuples are in the first slots. */
    constructor (tuples: seq<Tuple>)
      requires |tuples| <= CAPACITY
      ensures Valid() && fresh(data) && Contents() == tuples
    {
      data := new Tuple[CAPACITY](i => if 0 <= i < |tuples| then tuples[i] else []);
      mask := Below(|tuples|);
      new;
      GatherFirst(data[..], tuples, 0);
      FirstSlots(0, |tuples|);
      assert Range(0, |tuples|) == Below(|tuples|);
    }

    method Erase(index: nat)
      requires index < CAPACITY
      modifies `mask
      ensures mask == old(mask) - {index}
    {
      mask := mask - {index};
    }

    /** Puts all slots to use. */
    method Fill()
      requires Valid()
      modifies `mask
      ensures Valid() && mask == Below(CAPACITY)
    {
      mask := Below(CAPACITY);
    }

    /** Reads the tuples in use. */
    method Tuples() returns (ts: seq<Tuple>)
      requires Valid()
      ensures ts == Contents()
    {
      ts := [];
      var it := mask;
      while it != {}
        invariant it <= mask && ts + Gather(data[..], Slots(it)) == Contents()
        decreases it
      {
        var index := Min(it);
        assert index in it;
        FirstSlot(data[..], it, mask);
        hide Gather, Slots, Min, Below;
        ts := ts + [data[index]];
        it := it - {index};
      }
    }

    method IsEmpty() returns (b: bool)
      requires Valid()
      ensures b <==> Contents() == []
    {
      b := |mask| == 0;
      EmptyContents(data[..], mask);
    }
  }

  function Range(a: nat, b: nat): Subproblem {
    set i | i in Below(b) && a <= i
  }

  function Numbers(a: nat, b: nat): seq<nat>
    decreases b - a
  {
    if a >= b then [] else [a] + Numbers(a + 1, b)
  }

  lemma {:induction false} FirstSlots(a: nat, b: nat)
    requires a <= b
    ensures Slots(Range(a, b)) == Numbers(a, b)
    decreases b - a
  {
    if a < b {
      assert a in Range(a, b);
      assert Min(Range(a, b)) == a;
      assert Range(a, b) - {a} == Range(a + 1, b);
      FirstSlots(a + 1, b);
    } else {
      assert Range(a, b) == {};
    }
  }

  lemma {:induction false} GatherFirst(data: seq<Tuple>, tuples: seq<Tuple>, k: nat)
    requires k <= |tuples| <= |data| && forall i :: 0 <= i < |tuples| ==> data[i] == tuples[i]
    ensures Gather(data, Numbers(k, |tuples|)) == tuples[k..]
    decreases |tuples| - k
  {
    if k < |tuples| {
      GatherFirst(data, tuples, k + 1);
      assert Numbers(k, |tuples|)[1..] == Numbers(k + 1, |tuples|);
      assert tuples[k..] == [tuples[k]] + tuples[k + 1..];
    }
  }

  lemma EmptyContents(data: seq<Tuple>, mask: Subproblem)
    requires mask <= Below(|data|)
    ensures mask == {} <==> Gather(data, Slots(mask)) == []
  {
    if mask != {} {
      assert Min(mask) in Below(|data|);
      assert Slots(mask)[0] == Min(mask);
    }
  }

  // ---------------------------------------------------------------- erasing while iterating

  function Satisfying(c: Tuple -> bool, ts: seq<Tuple>): seq<Tuple> {
    if ts == [] then [] else (if c(ts[0]) then [ts[0]] else []) + Satisfying(c, ts[1..])
  }

  /** The slots whose tuples pass. */
  function Kept(data: seq<Tuple>, mask: Subproblem, c: Tuple -> bool): Subproblem {
    set i | i in mask && i < |data| && c(data[i])
  }

  lemma SlotsWith(m: nat, rest: Subproblem)
    requires forall x | x in rest :: m < x
    ensures Slots({m} + rest) == [m] + Slots(rest)
  {
    assert Min({m} + rest) == m;
    assert {m} + rest - {m} == rest;
  }

  lemma KeptStep(data: seq<Tuple>, m: nat, rest: Subproblem, c: Tuple -> bool)
    requires m < |data| && forall x | x in rest :: m < x
    ensures Kept(data, {m} + rest, c) == if c(data[m]) then {m} + Kept(data, rest, c) else Kept(data, rest, c)
  {}

  lemma FirstSlot(data: seq<Tuple>, it: Subproblem, mask: Subproblem)
    requires it != {} && it <= mask <= Below(|data|)
    ensures var m := Min(it); m < |data| && Gather(data, Slots(it)) == [data[m]] + Gather(data, Slots(it - {m}))
  {
    var m := Min(it);
    assert m in Below(|data|);
    assert Slots(it) == [m] + Slots(it - {m});
    GatherStep(data, m, Slots(it - {m}));
  }

  lemma GatherStep(data: seq<Tuple>, m: nat, slots: seq<nat>)
    requires m < |data|
    ensures Gather(data, [m] + slots) == [data[m]] + Gather(data, slots)
  {}

  lemma SatisfyingStep(c: Tuple -> bool, t: Tuple, ts: seq<Tuple>)
    ensures Satisfying(c, [t] + ts) == (if c(t) then [t] else []) + Satisfying(c, ts)
  {
    assert ([t] + ts)[1..] == ts;
  }

  /** Erasing the slots whose tuples fail leaves the other tuples in order. */
  lemma {:induction false} ErasedFails(data: seq<Tuple>, mask: Subproblem, c: Tuple -> bool)
    requires mask <= Below(|data|)
    ensures Gather(data, Slots(Kept(data, mask, c))) == Satisfying(c, Gather(data, Slots(mask)))
    decreases |mask|
  {
    if mask == {} {
      assert Kept(data, mask, c) == {};
    } else {
      var m := Min(mask);
      var rest := mask - {m};
      assert m in Below(|data|) && mask == {m} + rest;
      assert forall x | x in rest :: m < x;
      ErasedFails(data, rest, c);
      KeptStep(data, m, rest, c);
      assert forall x | x in Kept(data, rest, c) :: m < x;
      hide Min, Slots, Gather, Satisfying, Kept, Below;
      SlotsWith(m, rest);
      SlotsWith(m, Kept(data, rest, c));
      GatherStep(data, m, Slots(rest));
      GatherStep(data, m, Slots(Kept(data, rest, c)));
      SatisfyingStep(c, data[m], Gather(data, Slots(rest)));
      assert [] + Satisfying(c, Gather(data, Slots(rest))) == Satisfying(c, Gather(data, Slots(rest)));
    }
  }

  function Passes(c: Tuple -> Truth): Tuple -> bool {
    (t: Tuple) => c(t) == True
  }

  /** The filter operator on one block: the iterator runs over the slots that were in use at the
      start, in ascending order, while tuples are erased. */
  method FilterBlock(b: Block, c: Tuple -> Truth)
    requires b.Valid()
    modifies b`mask
    ensures b.Valid() && b.Contents() == Satisfying(Passes(c), old(b.Contents()))
    ensures b.mask == Kept(b.data[..], old(b.mask), Passes(c))
  {
    ghost var start, data := b.mask, b.data[..];
    var it := b.mask;
    StartErasing(data, start, Passes(c));
    while it != {}
      invariant it <= start <= Below(CAPACITY) && b.mask == it + Kept(data, start - it, Passes(c))
      decreases |it|
    {
      var index := Min(it);
      assert index in Below(CAPACITY);
      EraseStep(data, start, it, index, Passes(c));
      hide Below, Kept, Min;
      if c(b.data[index]) != True {
        b.Erase(index);
      }
      it := it - {index};
    }
    assert start - it == start;
    ErasedFails(data, start, Passes(c));
    hide Kept, Slots, Gather, Satisfying, Passes;
    assert b.mask == Kept(data, start, Passes(c));
  }

  lemma StartErasing(data: seq<Tuple>, mask: Subproblem, c: Tuple -> bool)
    ensures mask == mask + Kept(data, mask - mask, c)
  {
    assert mask - mask == {};
  }

  /** One step of the iterator: the slot is erased unless its tuple passes. */
  lemma EraseStep(data: seq<Tuple>, start: Subproblem, it: Subproblem, m: nat, c: Tuple -> bool)
    requires m in it && it <= start && m < |data|
    ensures var mask := it + Kept(data, start - it, c);
            (if c(data[m]) then mask else mask - {m}) == (it - {m}) + Kept(data, start - (it - {m}), c)
  {}

  // ------------------------------------------------------------------ disjunctions and limits

  /** Whether one of the predicates is TRUE; the first such predicate decides. */
  predicate Any(cs: seq<Tuple -> Truth>, t: Tuple) {
    cs != [] && (cs[0](t) == True || Any(cs[1..], t))
  }

  function Disjunction(cs: seq<Tuple -> Truth>): Tuple -> Truth {
    (t: Tuple) => OrOf(cs, t)
  }

  function OrOf(cs: seq<Tuple -> Truth>, t: Tuple): Truth {
    if cs == [] then False else Or(cs[0](t), OrOf(cs[1..], t))
  }

  lemma {:induction false} AnyMeansOr(cs: seq<Tuple -> Truth>, t: Tuple)
    ensures Any(cs, t) <==> OrOf(cs, t) == True
  {
    if cs != [] {
      AnyMeansOr(cs[1..], t);
    }
  }

  method SomePredicate(cs: seq<Tuple -> Truth>, t: Tuple) returns (b: bool)
    ensures b <==> OrOf(cs, t) == True
  {
    AnyMeansOr(cs, t);
    var i := 0;
    while i < |cs|
      invariant 0 <= i <= |cs| && (Any(cs, t) <==> Any(cs[i..], t))
    {
      assert cs[i..][1..] == cs[i + 1..];
      if cs[i](t) == True {
        return true;
      }
      i := i + 1;
    }
    return false;
  }

  /** The disjunctive filter on one block evaluates the predicates one by one. */
  method DisjunctiveFilterBlock(b: Block, cs: seq<Tuple -> Truth>)
    requires b.Valid()
    modifies b`mask
    ensures b.Valid() && b.Contents() == Satisfying(Passes(Disjunction(cs)), old(b.Contents()))
  {
    ghost var start, data, c := b.mask, b.data[..], Passes(Disjunction(cs));
    var it := b.mask;
    StartErasing(data, start, c);
    while it != {}
      invariant it <= start <= Below(CAPACITY) && b.mask == it + Kept(data, start - it, c)
      decreases |it|
    {
      var index := Min(it);
      assert index in Below(CAPACITY);
      EraseStep(data, start, it, index, c);
      hide Below, Kept, Min;
      var satisfied := SomePredicate(cs, b.data[index]);
      if !satisfied {
        b.Erase(index);
      }
      it := it - {index};
    }
    assert start - it == start;
    ErasedFails(data, start, c);
    hide Kept, Slots, Gather, Satisfying, Passes;
    assert b.mask == Kept(data, start, c);
  }

  /** The tuples whose positions, counted from `first`, lie from `from` to `to`. */
  function Window(ts: seq<Tuple>, first: nat, from: nat, to: nat): seq<Tuple> {
    if ts == [] then []
    else (if from <= first < to then [ts[0]] else []) + Window(ts[1..], first + 1, from, to)
  }

  function WindowSlots(slots: seq<nat>, first: nat, from: nat, to: nat): seq<nat> {
    if slots == [] then []
    else
      (if from <= first < to then [slots[0]] else [])
      + WindowSlots(slots[1..], first + 1, from, to)
  }

  lemma {:induction false} WindowOfGathered(data: seq<Tuple>, slots: seq<nat>, first: nat, from: nat, to: nat)
    requires forall i :: 0 <= i < |slots| ==> slots[i] < |data|
    ensures Gather(data, WindowSlots(slots, first, from, to)) == Window(Gather(data, slots), first, from, to)
  {
    if slots != [] {
      WindowOfGathered(data, slots[1..], first + 1, from, to);
      var rest := WindowSlots(slots[1..], first + 1, from, to);
      GatherStep(data, slots[0], rest);
      assert [] + rest == rest;
      assert [] + Window(Gather(data, slots[1..]), first + 1, from, to)
             == Window(Gather(data, slots[1..]), first + 1, from, to);
      assert Gather(data, slots) == [data[slots[0]]] + Gather(data, slots[1..]);
      assert Gather(data, slots)[1..] == Gather(data, slots[1..]);
    }
  }

  lemma {:induction false} SlotsMembers(mask: Subproblem, x: nat)
    ensures x in Slots(mask) <==> x in mask
    decreases |mask|
  {
    if mask != {} {
      SlotsMembers(mask - {Min(mask)}, x);
    }
  }

  /** Erasing a slot removes it from the enumeration. */
  lemma {:induction false} SlotsWithout(mask: Subproblem, pre: seq<nat>, m: nat, post: seq<nat>)
    requires Slots(mask) == pre + [m] + post
    ensures Slots(mask - {m}) == pre + post
    decreases |pre|
  {
    var whole := pre + [m] + post;
    assert mask != {};
    var first, rest := Min(mask), mask - {Min(mask)};
    assert whole[0] == first && whole[1..] == Slots(rest);
    if pre == [] {
      assert whole[1..] == post && pre + post == post;
    } else {
      assert pre[0] == first && whole[1..] == pre[1..] + [m] + post;
      SlotsWithout(rest, pre[1..], m, post);
      SlotsMembers(rest, m);
      assert m in whole[1..];
      assert mask - {m} == {first} + (rest - {m});
      SlotsWith(first, rest - {m});
      assert pre + post == [first] + (pre[1..] + post);
    }
  }

  /** The slots in use are those kept so far and those to come, and together with the window on
      the latter the former make up the window on all. */
  ghost predicate Counting(mask: Subproblem, it: Subproblem, kept: seq<nat>, counted: nat, goal: seq<nat>, total: nat,
                           from: nat, to: nat) {
    && Slots(mask) == kept + Slots(it)
    && kept + WindowSlots(Slots(it), counted, from, to) == goal
    && counted + |Slots(it)| == total
  }

  lemma CountingStep(mask: Subproblem, it: Subproblem, kept: seq<nat>, counted: nat, goal: seq<nat>, total: nat,
                     from: nat, to: nat)
    requires Counting(mask, it, kept, counted, goal, total, from, to) && it != {}
    ensures var m := Min(it);
            if from <= counted < to
            then Counting(mask, it - {m}, kept + [m], counted + 1, goal, total, from, to)
            else Counting(mask - {m}, it - {m}, kept, counted + 1, goal, total, from, to)
  {
    var m := Min(it);
    var rest := Slots(it - {m});
    assert Slots(it) == [m] + rest;
    KeepOrErase(mask, it, kept, m, rest);
    WindowStep(kept, m, rest, counted, from, to);
    hide Slots, WindowSlots, Min;
  }

  lemma KeepOrErase(mask: Subproblem, it: Subproblem, kept: seq<nat>, m: nat, rest: seq<nat>)
    requires Slots(mask) == kept + Slots(it) && Slots(it) == [m] + rest
    ensures Slots(mask) == kept + [m] + rest && Slots(mask - {m}) == kept + rest
  {
    hide *;
    assert kept + ([m] + rest) == kept + [m] + rest;
    SlotsWithout(mask, kept, m, rest);
  }

  lemma CountingEnds(mask: Subproblem, kept: seq<nat>, counted: nat, goal: seq<nat>, total: nat, from: nat,
                     to: nat)
    requires Counting(mask, {}, kept, counted, goal, total, from, to)
    ensures Slots(mask) == goal && counted == total
  {
    assert Slots({}) == [] && kept + [] == kept;
  }

  /** The limit operator on one block: counts the tuples and erases those outside of the window. */
  method LimitBlock(b: Block, numTuples: nat, from: nat, to: nat) returns (counted: nat)
    requires b.Valid()
    modifies b`mask
    ensures b.Valid() && b.Contents() == Window(old(b.Contents()), numTuples, from, to)
    ensures counted == numTuples + |old(b.Contents())|
  {
    hide *;
    ContentsMean(b);
    ghost var start, tuples := Slots(b.mask), b.Contents();
    ghost var goal, total := WindowSlots(start, numTuples, from, to), numTuples + |start|;
    StartCounting(b.data[..], b.mask, numTuples, from, to);
    counted := numTuples;
    var it := b.mask;
    ghost var kept: seq<nat> := [];
    while it != {}
      invariant InUse(it) && InUse(b.mask)
      invariant Counting(b.mask, it, kept, counted, goal, total, from, to)
      decreases it
    {
      it, kept := CountTuple(b, it, kept, counted, goal, total, from, to);
      counted := counted + 1;
    }
    CountingEnds(b.mask, kept, counted, goal, total, from, to);
    EndCounting(b, start, tuples, numTuples, from, to);
  }

  lemma ContentsMean(b: Block)
    requires b.Valid()
    ensures b.data.Length == CAPACITY && b.mask <= Below(CAPACITY)
    ensures b.Contents() == Gather(b.data[..], Slots(b.mask))
  {}

  /** Looks at the tuple under the iterator and moves on. */
  method CountTuple(b: Block, it: Subproblem, ghost kept: seq<nat>, counted: nat, ghost goal: seq<nat>,
                    ghost total: nat, from: nat, to: nat) returns (next: Subproblem, ghost more: seq<nat>)
    requires it != {} && InUse(it) && InUse(b.mask) && Counting(b.mask, it, kept, counted, goal, total, from, to)
    modifies b`mask
    ensures next < it && InUse(next) && InUse(b.mask)
    ensures Counting(b.mask, next, more, counted + 1, goal, total, from, to)
  {
    CountingStep(b.mask, it, kept, counted, goal, total, from, to);
    var index := Min(it);
    assert index in it;
    StillInUse(it, index);
    StillInUse(b.mask, index);
    hide *;
    more := kept;
    if counted < from || counted >= to {
      b.Erase(index);
    } else {
      more := kept + [index];
    }
    next := it - {index};
  }

  ghost predicate InUse(mask: Subproblem) {
    mask <= Below(CAPACITY)
  }

  lemma StillInUse(mask: Subproblem, index: nat)
    requires InUse(mask)
    ensures InUse(mask - {index}) && (index in mask ==> index < CAPACITY)
  {}

  lemma StartCounting(data: seq<Tuple>, mask: Subproblem, first: nat, from: nat, to: nat)
    requires |data| == CAPACITY && mask <= Below(CAPACITY)
    ensures var slots := Slots(mask);
            && InUse(mask)
               && Counting(mask, mask, [], first, WindowSlots(slots, first, from, to), first + |slots|, from,
                           to)
            && Gather(data, WindowSlots(slots, first, from, to))
               == Window(Gather(data, slots), first, from, to)
            && |Gather(data, slots)| == |slots|
  {
    SlotsInRange(mask, CAPACITY);
    GatherAll(data, Slots(mask));
    WindowOfGathered(data, Slots(mask), first, from, to);
    hide Slots, Gather, Window, WindowSlots;
    assert [] + Slots(mask) == Slots(mask);
    assert [] + WindowSlots(Slots(mask), first, from, to) == WindowSlots(Slots(mask), first, from, to);
  }

  lemma EndCounting(b: Block, slots: seq<nat>, tuples: seq<Tuple>, first: nat, from: nat, to: nat)
    requires InUse(b.mask) && b.data.Length == CAPACITY && Slots(b.mask) == WindowSlots(slots, first, from, to)
    requires Gather(b.data[..], WindowSlots(slots, first, from, to)) == Window(tuples, first, from, to)
    ensures b.Valid() && b.Contents() == Window(tuples, first, from, to)
  {
    hide Slots, Gather, Window, WindowSlots;
  }

  lemma WindowStep(kept: seq<nat>, m: nat, rest: seq<nat>, counted: nat, from: nat, to: nat)
    ensures kept + WindowSlots([m] + rest, counted, from, to)
         == (if from <= counted < to then kept + [m] else kept)
           + WindowSlots(rest, counted + 1, from, to)
  {
    assert ([m] + rest)[1..] == rest;
    assert [] + WindowSlots(rest, counted + 1, from, to) == WindowSlots(rest, counted + 1, from, to);
  }

  lemma SlotsInRange(mask: Subproblem, n: nat)
    requires mask <= Below(n)
    ensures forall i :: 0 <= i < |Slots(mask)| ==> Slots(mask)[i] < n
  {
    hide Slots;
    forall i | 0 <= i < |Slots(mask)| ensures Slots(mask)[i] < n {
      SlotsMembers(mask, Slots(mask)[i]);
    }
  }

  lemma {:induction false} GatherAll(data: seq<Tuple>, slots: seq<nat>)
    requires forall i :: 0 <= i < |slots| ==> slots[i] < |data|
    ensures |Gather(data, slots)| == |slots|
  {
    if slots != [] {
      GatherAll(data, slots[1..]);
    }
  }

  // ---------------------------------------------------------------------------- streams of blocks

  /** A stream as it arrives: the tuples of one block after the other. */
  type Stream = seq<seq<Tuple>>

  ghost predicate Fits(stream: Stream) {
    forall i :: 0 <= i < |stream| ==> |stream[i]| <= CAPACITY
  }

  function Flat(stream: Stream): seq<Tuple> {
    if stream == [] then [] else Flat(stream[..|stream| - 1]) + stream[|stream| - 1]
  }

  lemma BlockFits(stream: Stream, i: nat)
    requires Fits(stream) && i < |stream|
    ensures |stream[i]| <= CAPACITY
  {}

  lemma FlatStep(stream: Stream, i: nat)
    requires i < |stream|
    ensures Flat(stream[..i + 1]) == Flat(stream[..i]) + stream[i]
  {
    assert stream[..i + 1][..i] == stream[..i];
  }

  lemma {:induction false} SatisfyingAppend(c: Tuple -> bool, xs: seq<Tuple>, ys: seq<Tuple>)
    ensures Satisfying(c, xs + ys) == Satisfying(c, xs) + Satisfying(c, ys)
  {
    if xs == [] {
      assert xs + ys == ys;
    } else {
      assert (xs + ys)[1..] == xs[1..] + ys;
      SatisfyingAppend(c, xs[1..], ys);
    }
  }

  lemma {:induction false} WindowAppend(xs: seq<Tuple>, ys: seq<Tuple>, first: nat, from: nat, to: nat)
    ensures Window(xs + ys, first, from, to)
            == Window(xs, first, from, to) + Window(ys, first + |xs|, from, to)
  {
    if xs == [] {
      assert xs + ys == ys;
    } else {
      assert (xs + ys)[1..] == xs[1..] + ys && (xs + ys)[0] == xs[0];
      WindowAppend(xs[1..], ys, first + 1, from, to);
      var head := if from <= first < to then [xs[0]] else [];
      var a, b := Window(xs[1..], first + 1, from, to), Window(ys, first + |xs|, from, to);
      assert Window(xs + ys, first, from, to) == head + (a + b);
      assert Window(xs, first, from, to) == head + a;
      hide Window;
      assert head + (a + b) == (head + a) + b;
    }
  }

  lemma {:induction false} WindowOver(xs: seq<Tuple>, first: nat, from: nat, to: nat)
    requires first >= to
    ensures Window(xs, first, from, to) == []
  {
    if xs != [] {
      WindowOver(xs[1..], first + 1, from, to);
    }
  }

  /** However the stream is cut into blocks, the filter hands on the tuples whose condition is
      TRUE; blocks without tuples are not handed on. */
  method FilterStream(stream: Stream, c: Tuple -> Truth) returns (output: Stream)
    requires Fits(stream)
    ensures Flat(output) == Satisfying(Passes(c), Flat(stream))
    ensures forall i :: 0 <= i < |output| ==> output[i] != []
  {
    output := [];
    var i := 0;
    while i < |stream|
      invariant 0 <= i <= |stream| && Flat(output) == Satisfying(Passes(c), Flat(stream[..i]))
      invariant forall k :: 0 <= k < |output| ==> output[k] != []
    {
      FlatStep(stream, i);
      SatisfyingAppend(Passes(c), Flat(stream[..i]), stream[i]);
      hide Flat, Satisfying, Passes;
      var b := new Block(stream[i]);
      FilterBlock(b, c);
      output := Emit(output, b);
      i := i + 1;
    }
    assert stream[..i] == stream;
  }

  method DisjunctiveFilterStream(stream: Stream, cs: seq<Tuple -> Truth>) returns (output: Stream)
    requires Fits(stream)
    ensures Flat(output) == Satisfying(Passes(Disjunction(cs)), Flat(stream))
    ensures forall i :: 0 <= i < |output| ==> output[i] != []
  {
    output := [];
    var i := 0;
    while i < |stream|
      invariant 0 <= i <= |stream| && Flat(output) == Satisfying(Passes(Disjunction(cs)), Flat(stream[..i]))
      invariant forall k :: 0 <= k < |output| ==> output[k] != []
    {
      FlatStep(stream, i);
      SatisfyingAppend(Passes(Disjunction(cs)), Flat(stream[..i]), stream[i]);
      hide Flat, Satisfying, Passes;
      var b := new Block(stream[i]);
      DisjunctiveFilterBlock(b, cs);
      output := Emit(output, b);
      i := i + 1;
    }
    assert stream[..i] == stream;
  }

  /** Hands a block to the parent, unless it is empty. */
  method Emit(output: Stream, b: Block) returns (next: Stream)
    requires b.Valid()
    ensures Flat(next) == Flat(output) + b.Contents()
    ensures (forall k :: 0 <= k < |output| ==> output[k] != []) ==> forall k :: 0 <= k < |next| ==> next[k] != []
  {
    next := output;
    var empty := b.IsEmpty();
    if !empty {
      var tuples := b.Tuples();
      next := output + [tuples];
      assert next[..|output|] == output;
    } else {
      assert Flat(output) + [] == Flat(output);
    }
  }

  const WORD: nat := 0x1_0000_0000_0000_0000

  /** The sum of two words. */
  function WrappedSum(a: nat, b: nat): nat {
    (a + b) % WORD
  }

  /** The limit operator hands on the tuples from position `offset` to `offset + limit`, although it stops
      reading as soon as it has seen them all.  When that sum wraps around, it hands on nothing. */
  method LimitStream(stream: Stream, offset: nat, limit: nat) returns (output: Stream)
    requires Fits(stream) && offset < WORD && limit < WORD
    ensures Flat(output) == if offset + limit < WORD then Clip(Flat(stream), offset, offset + limit) else []
  {
    WindowAskedFor(Flat(stream), offset, limit);
    hide *;
    output := ReadWindow(stream, offset, WrappedSum(offset, limit));
  }

  /** The limit operator on the block at `i`. */
  method LimitNext(stream: Stream, i: nat, numTuples: nat, output: Stream, from: nat, to: nat)
    returns (counted: nat, next: Stream)
    requires Fits(stream) && i < |stream| && numTuples == |Flat(stream[..i])|
    requires Flat(output) == Window(Flat(stream[..i]), 0, from, to)
    ensures counted == |Flat(stream[..i + 1])| && Flat(next) == Window(Flat(stream[..i + 1]), 0, from, to)
  {
    hide *;
    FlatStep(stream, i);
    WindowAppend(Flat(stream[..i]), stream[i], 0, from, to);
    BlockFits(stream, i);
    var b := new Block(stream[i]);
    counted := LimitBlock(b, numTuples, from, to);
    next := Emit(output, b);
  }

  /** Reads blocks until the tuple at `to` has been reached. */
  method ReadWindow(stream: Stream, from: nat, to: nat) returns (output: Stream)
    requires Fits(stream)
    ensures Flat(output) == Window(Flat(stream), 0, from, to)
  {
    output := [];
    var numTuples, i := 0, 0;
    assert stream[..0] == [] && Flat([]) == [] && Window([], 0, from, to) == [];
    hide *;
    while i < |stream|
      invariant 0 <= i <= |stream| && numTuples == |Flat(stream[..i])|
      invariant Flat(output) == Window(Flat(stream[..i]), 0, from, to)
    {
      numTuples, output := LimitNext(stream, i, numTuples, output, from, to);
      i := i + 1;
      if numTuples >= to {
        RestIsOver(stream, i, from, to);
        return;
      }
    }
    assert stream[..i] == stream;
  }

  /** The sum that wraps around is less than the offset. */
  lemma WindowAskedFor(ts: seq<Tuple>, offset: nat, limit: nat)
    requires offset < WORD && limit < WORD
    ensures Window(ts, 0, offset, WrappedSum(offset, limit))
            == if offset + limit < WORD then Clip(ts, offset, offset + limit) else []
  {
    WindowIsSlice(ts, 0, offset, WrappedSum(offset, limit));
    hide Window, Clip;
  }

  /** A LIMIT clause.  The plan gets a limit operator unless both numbers are zero, so the clause gives what
      it asks for exactly when not both are zero and their sum does not wrap around, or when there is no row
      behind the offset anyway. */
  method LimitClause(stream: Stream, offset: nat, limit: nat) returns (output: Stream)
    requires Fits(stream) && offset < WORD && limit < WORD
    ensures offset == limit == 0 ==> Flat(output) == Flat(stream)
    ensures Flat(output) == Clip(Flat(stream), offset, offset + limit)
            <==> (offset + limit < WORD && (offset > 0 || limit > 0)) || |Flat(stream)| <= offset
  {
    output := stream;
    if limit > 0 || offset > 0 {
      output := LimitStream(stream, offset, limit);
    }
  }

  lemma {:induction false} FlatAppend(s: Stream, t: Stream)
    ensures Flat(s + t) == Flat(s) + Flat(t)
  {
    if t == [] {
      assert s + t == s;
    } else {
      assert (s + t)[..|s + t| - 1] == s + t[..|t| - 1];
      FlatAppend(s, t[..|t| - 1]);
    }
  }

  lemma RestIsOver(stream: Stream, i: nat, from: nat, to: nat)
    requires i <= |stream| && |Flat(stream[..i])| >= to
    ensures Window(Flat(stream), 0, from, to) == Window(Flat(stream[..i]), 0, from, to)
  {
    assert stream == stream[..i] + stream[i..];
    FlatAppend(stream[..i], stream[i..]);
    WindowAppend(Flat(stream[..i]), Flat(stream[i..]), 0, from, to);
    WindowOver(Flat(stream[i..]), |Flat(stream[..i])|, from, to);
  }

  /** The tuples from position `a` to `b`, as far as there are such positions. */
  function Clip(ts: seq<Tuple>, a: int, b: int): seq<Tuple>
    requires a <= b
  {
    var from := if a < 0 then 0 else if a > |ts| then |ts| else a;
    var to := if b < 0 then 0 else if b > |ts| then |ts| else b;
    ts[from..to]
  }

  lemma ClipStep(ts: seq<Tuple>, a: int, b: int)
    requires ts != [] && a <= b
    ensures Clip(ts, a, b) == (if a <= 0 < b then [ts[0]] else []) + Clip(ts[1..], a - 1, b - 1)
  {}

  /** The window is the slice of the tuples that the clause asks for. */
  lemma {:induction false} WindowIsSlice(ts: seq<Tuple>, first: nat, from: nat, to: nat)
    ensures Window(ts, first, from, to) == if from <= to then Clip(ts, from - first, to - first) else []
  {
    if ts != [] {
      WindowIsSlice(ts[1..], first + 1, from, to);
      if from <= to {
        ClipStep(ts, from - first, to - first);
      }
      hide Clip;
    }
  }
}
