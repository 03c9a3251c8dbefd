/** The hash join below a filter.  The filter erases tuples from the output block of the join, which
    is filled once per probe tuple only, although it may be handed on several times in between. */
module FilteredJoin {
  import opened SmallBitset
  import opened Cnf
  import opened Blocks
  import opened HashJoin

  /** The tuples in the first slots of the output block, the slots in use, what the filter has handed
      on, and whether no tuple was put into a slot that is not in use. */
  datatype Output = Output(slots: seq<Tuple>, alive: Subproblem, out: seq<Tuple>, asserted: bool) {
    ghost predicate Valid() {
      |slots| <= CAPACITY && alive <= Below(CAPACITY)
    }
  }

  /** Hands a full block to the filter. */
  function Flushed(c: Tuple -> bool, s: Output): Output {
    Output([], Kept(s.slots, s.alive, c), s.out + Satisfying(c, Gather(s.slots, Slots(s.alive))), s.asserted)
  }

  /** Puts a result into the next slot; a full block is handed on first. */
  function Put(c: Tuple -> bool, s: Output, r: Tuple): Output {
    var q := if |s.slots| == CAPACITY then Flushed(c, s) else s;
    Output(q.slots + [r], q.alive, q.out, q.asserted && |q.slots| in q.alive)
  }

  function PutAll(c: Tuple -> bool, s: Output, rs: seq<Tuple>): Output {
    if rs == [] then s else Put(c, PutAll(c, s, rs[..|rs| - 1]), rs[|rs| - 1])
  }

  /** A probe tuple with the results `rs`: the block is filled before. */
  function Probed(c: Tuple -> bool, s: Output, rs: seq<Tuple>): Output {
    PutAll(c, s.(alive := Below(CAPACITY)), rs)
  }

  // ------------------------------------------------------------------------ what gets lost

  /** How often a tuple was handed on or still will be. */
  function Due(c: Tuple -> bool, s: Output, x: Tuple): nat {
    multiset(s.out)[x] + Wanted(c, s.slots, x)
  }

  function Wanted(c: Tuple -> bool, ts: seq<Tuple>, x: Tuple): nat {
    if c(x) then multiset(ts)[x] else 0
  }

  lemma {:induction false} SatisfyingCount(c: Tuple -> bool, ts: seq<Tuple>, x: Tuple)
    ensures multiset(Satisfying(c, ts))[x] == Wanted(c, ts, x)
  {
    if ts != [] {
      SatisfyingCount(c, ts[1..], x);
      assert ts == [ts[0]] + ts[1..];
    }
  }

  lemma SlotOut(data: seq<Tuple>, b: Subproblem)
    requires b != {} && b <= Below(|data|)
    ensures Min(b) < |data|
    ensures multiset(Gather(data, Slots(b))) == multiset(Gather(data, Slots(b - {Min(b)}))) + multiset{data[Min(b)]}
  {
    FirstSlot(data, b, b);
    hide *;
  }

  lemma {:induction false} RemoveSlot(data: seq<Tuple>, b: Subproblem, m: nat)
    requires b <= Below(|data|) && m in b
    ensures multiset(Gather(data, Slots(b))) == multiset(Gather(data, Slots(b - {m}))) + multiset{data[m]}
    decreases |b|
  {
    hide *;
    var first := Min(b);
    SlotOut(data, b);
    if m != first {
      RemoveSlot(data, b - {first}, m);
      var a := b - {m};
      assert first in a && forall x | x in a :: first <= x;
      assert Min(a) == first && (b - {first}) - {m} == a - {first};
      SlotOut(data, a);
    }
  }

  lemma {:induction false} FewerSlots(data: seq<Tuple>, a: Subproblem, b: Subproblem, x: Tuple)
    requires a <= b <= Below(|data|)
    ensures multiset(Gather(data, Slots(a)))[x] <= multiset(Gather(data, Slots(b)))[x]
    ensures (forall m | m in b :: m in a || data[m] != x)
            ==> multiset(Gather(data, Slots(a)))[x] == multiset(Gather(data, Slots(b)))[x]
    decreases |b|
  {
    if m :| m in b && m !in a {
      RemoveSlot(data, b, m);
      hide Gather, Slots, Below;
      FewerSlots(data, a, b - {m}, x);
    } else {
      assert a == b;
    }
  }

  lemma AllSlots(data: seq<Tuple>)
    ensures Gather(data, Slots(Below(|data|))) == data
  {
    FirstSlots(0, |data|);
    assert Range(0, |data|) == Below(|data|);
    GatherFirst(data, data, 0);
  }

  /** Of a block that is handed on, the tuples in slots not in use are lost. */
  lemma FlushedDue(c: Tuple -> bool, s: Output, x: Tuple)
    requires s.Valid() && |s.slots| == CAPACITY
    ensures Flushed(c, s).Valid() && Due(c, Flushed(c, s), x) <= Due(c, s, x)
    ensures s.alive == Below(CAPACITY) ==> Due(c, Flushed(c, s), x) == Due(c, s, x)
  {
    var held := Gather(s.slots, Slots(s.alive));
    SatisfyingCount(c, held, x);
    FewerSlots(s.slots, s.alive, Below(CAPACITY), x);
    AllSlots(s.slots);
    hide Gather, Slots, Below, Satisfying;
  }

  /** No tuple that passes is in a slot that is not in use. */
  ghost predicate KeepsPassing(c: Tuple -> bool, s: Output) {
    forall j: nat :: j < |s.slots| && c(s.slots[j]) ==> j in s.alive
  }

  ghost predicate SameDue(c: Tuple -> bool, s: Output, q: Output) {
    forall x :: Due(c, q, x) == Due(c, s, x)
  }

  /** Exactly then nothing is lost when a full block is handed on. */
  lemma FlushKeepsIff(c: Tuple -> bool, s: Output)
    requires s.Valid() && |s.slots| == CAPACITY
    ensures SameDue(c, s, Flushed(c, s)) <==> KeepsPassing(c, s)
  {
    if KeepsPassing(c, s) {
      forall x ensures Due(c, Flushed(c, s), x) == Due(c, s, x) {
        FlushKeeps(c, s, x);
      }
    } else {
      var j: nat :| j < |s.slots| && c(s.slots[j]) && j !in s.alive;
      FlushLoses(c, s, j);
    }
  }

  lemma FlushKeeps(c: Tuple -> bool, s: Output, x: Tuple)
    requires s.Valid() && |s.slots| == CAPACITY && KeepsPassing(c, s)
    ensures Due(c, Flushed(c, s), x) == Due(c, s, x)
  {
    SatisfyingCount(c, Gather(s.slots, Slots(s.alive)), x);
    FewerSlots(s.slots, s.alive, Below(CAPACITY), x);
    AllSlots(s.slots);
    assert forall m | m in Below(CAPACITY) :: m < |s.slots|;
    hide Gather, Slots, Below, Satisfying;
  }

  lemma FlushLoses(c: Tuple -> bool, s: Output, j: nat)
    requires s.Valid() && |s.slots| == CAPACITY && j < CAPACITY && j !in s.alive && c(s.slots[j])
    ensures Due(c, Flushed(c, s), s.slots[j]) < Due(c, s, s.slots[j])
  {
    var x := s.slots[j];
    SatisfyingCount(c, Gather(s.slots, Slots(s.alive)), x);
    RemoveSlot(s.slots, Below(CAPACITY), j);
    FewerSlots(s.slots, s.alive, Below(CAPACITY) - {j}, x);
    AllSlots(s.slots);
    hide Gather, Slots, Below, Satisfying;
  }

  lemma PutDue(c: Tuple -> bool, s: Output, r: Tuple, x: Tuple)
    requires s.Valid()
    ensures Put(c, s, r).Valid() && Due(c, Put(c, s, r), x) <= Due(c, s, x) + Wanted(c, [r], x)
    ensures |s.slots| < CAPACITY || s.alive == Below(CAPACITY)
            ==> Due(c, Put(c, s, r), x) == Due(c, s, x) + Wanted(c, [r], x)
  {
    if |s.slots| == CAPACITY {
      FlushedDue(c, s, x);
    }
    hide Flushed, Below;
  }

  lemma WantedStep(c: Tuple -> bool, rs: seq<Tuple>, x: Tuple)
    requires rs != []
    ensures Wanted(c, rs, x) == Wanted(c, rs[..|rs| - 1], x) + Wanted(c, [rs[|rs| - 1]], x)
  {
    assert rs == rs[..|rs| - 1] + [rs[|rs| - 1]];
  }

  /** Results may get lost, but none is invented. */
  lemma {:induction false} NothingInvented(c: Tuple -> bool, s: Output, rs: seq<Tuple>, x: Tuple)
    requires s.Valid()
    ensures PutAll(c, s, rs).Valid() && Due(c, PutAll(c, s, rs), x) <= Due(c, s, x) + Wanted(c, rs, x)
  {
    if rs != [] {
      var k := |rs| - 1;
      NothingInvented(c, s, rs[..k], x);
      PutDue(c, PutAll(c, s, rs[..k]), rs[k], x);
      WantedStep(c, rs, x);
      hide Put, Due, Wanted, Output.Valid;
    }
  }

  /** The slots written since the block was last handed on are in use. */
  ghost predicate Written(s: Output) {
    forall i: nat :: i < |s.slots| ==> i in s.alive
  }

  lemma PutWrites(c: Tuple -> bool, s: Output, r: Tuple)
    requires s.Valid() && (s.asserted ==> Written(s))
    ensures Put(c, s, r).asserted ==> s.asserted && Written(Put(c, s, r))
    ensures s.asserted && |s.slots| == CAPACITY ==> s.alive == Below(CAPACITY)
  {
    hide Kept, Satisfying, Gather, Slots;
  }

  /** A run that only writes slots in use loses nothing. */
  lemma {:induction false} AssertedLosesNothing(c: Tuple -> bool, s: Output, rs: seq<Tuple>, x: Tuple)
    requires s.Valid() && Written(s)
    ensures var q := PutAll(c, s, rs);
            && q.Valid() && (q.asserted ==> s.asserted && Written(q))
            && (q.asserted ==> Due(c, q, x) == Due(c, s, x) + Wanted(c, rs, x))
  {
    if rs != [] {
      var k := |rs| - 1;
      AssertedLosesNothing(c, s, rs[..k], x);
      PutWrites(c, PutAll(c, s, rs[..k]), rs[k]);
      PutDue(c, PutAll(c, s, rs[..k]), rs[k], x);
      WantedStep(c, rs, x);
      hide Put, Due, Wanted, Written, Output.Valid;
    }
  }

  // ----------------------------------------------------------- when exactly nothing gets lost

  /** Of `n` results, the first one that is still in the output block; those before were handed on. */
  function FirstHeld(n: nat): (first: nat)
    ensures first <= n && n - first <= CAPACITY && first % CAPACITY == 0
  {
    if n == 0 then 0 else (n - 1) / CAPACITY * CAPACITY
  }

  /** All results before position `n` that were put into slot `j` pass. */
  ghost predicate AllPassed(c: Tuple -> bool, total: seq<Tuple>, n: nat, j: nat)
    requires n <= |total|
  {
    forall p: nat :: p < n && p % CAPACITY == j ==> c(total[p])
  }

  /** If a result before position `n` passes, so do all before it in the same slot. */
  ghost predicate KeepsUpTo(c: Tuple -> bool, total: seq<Tuple>, n: nat)
    requires n <= |total|
  {
    forall p: nat :: p < n && c(total[p]) ==> AllPassed(c, total, p, p % CAPACITY)
  }

  /** The same of all results that have been handed on. */
  ghost predicate Keeps(c: Tuple -> bool, total: seq<Tuple>) {
    KeepsUpTo(c, total, FirstHeld(|total|))
  }

  /** The output block after `total` results: what it holds, and which slots are in use. */
  ghost predicate After(c: Tuple -> bool, total: seq<Tuple>, q: Output) {
    && q.Valid() && q.slots == total[FirstHeld(|total|)..]
    && forall j: nat :: j < CAPACITY ==> (j in q.alive <==> AllPassed(c, total, FirstHeld(|total|), j))
  }

  ghost predicate AllDue(c: Tuple -> bool, s: Output, q: Output, rs: seq<Tuple>) {
    forall x :: Due(c, q, x) == Due(c, s, x) + Wanted(c, rs, x)
  }

  /** The results of one probe tuple, behind those held already: where they are, and exactly when none
      of them gets lost. */
  lemma {:induction false} LosesNothingIff(c: Tuple -> bool, s: Output, rs: seq<Tuple>)
    requires s.Valid() && s.alive == Below(CAPACITY)
    ensures After(c, s.slots + rs, PutAll(c, s, rs))
    ensures AllDue(c, s, PutAll(c, s, rs), rs) <==> Keeps(c, s.slots + rs)
  {
    hide *;
    if rs == [] {
      NothingPut(c, s);
    } else {
      var k := |rs| - 1;
      var q, total := PutAll(c, s, rs[..k]), s.slots + rs[..k];
      LosesNothingIff(c, s, rs[..k]);
      assert s.slots + rs == total + [rs[k]];
      PutLast(c, s, rs);
      AfterIsValid(c, total, q);
      DueStep(c, s, q, rs);
      AfterStep(c, total, q, rs[k]);
    }
  }

  lemma PutLast(c: Tuple -> bool, s: Output, rs: seq<Tuple>)
    requires rs != []
    ensures PutAll(c, s, rs) == Put(c, PutAll(c, s, rs[..|rs| - 1]), rs[|rs| - 1])
  {}

  lemma NothingPut(c: Tuple -> bool, s: Output)
    requires s.Valid() && s.alive == Below(CAPACITY)
    ensures After(c, s.slots + [], PutAll(c, s, [])) && AllDue(c, s, PutAll(c, s, []), []) && Keeps(c, s.slots + [])
  {
    assert s.slots + [] == s.slots && FirstHeld(|s.slots|) == 0;
  }

  lemma AfterIsValid(c: Tuple -> bool, total: seq<Tuple>, q: Output)
    requires After(c, total, q)
    ensures q.Valid()
  {}

  /** Nothing is lost exactly if nothing was lost before and nothing is by the last result. */
  lemma DueStep(c: Tuple -> bool, s: Output, q: Output, rs: seq<Tuple>)
    requires s.Valid() && q.Valid() && rs != [] && q == PutAll(c, s, rs[..|rs| - 1])
    ensures AllDue(c, s, Put(c, q, rs[|rs| - 1]), rs)
            <==> AllDue(c, s, q, rs[..|rs| - 1]) && (|q.slots| == CAPACITY ==> KeepsPassing(c, q))
  {
    var k := |rs| - 1;
    var next, flushed := Put(c, q, rs[k]), if |q.slots| == CAPACITY then Flushed(c, q) else q;
    forall x
      ensures Due(c, q, x) <= Due(c, s, x) + Wanted(c, rs[..k], x) && Due(c, flushed, x) <= Due(c, q, x)
      ensures Due(c, next, x) == Due(c, flushed, x) + Wanted(c, [rs[k]], x)
      ensures Wanted(c, rs, x) == Wanted(c, rs[..k], x) + Wanted(c, [rs[k]], x)
    {
      NothingInvented(c, s, rs[..k], x);
      WantedStep(c, rs, x);
      if |q.slots| == CAPACITY {
        FlushedDue(c, q, x);
      }
      PutDue(c, flushed, rs[k], x);
      assert Put(c, flushed, rs[k]).slots == next.slots && Put(c, flushed, rs[k]).out == next.out;
    }
    if |q.slots| == CAPACITY {
      FlushKeepsIff(c, q);
    }
    hide Due, Wanted, PutAll, Put, Flushed, KeepsPassing;
  }

  lemma FirstHeldStep(n: nat)
    ensures FirstHeld(n + 1) == if n - FirstHeld(n) == CAPACITY then n else FirstHeld(n)
  {}

  lemma PassedInPrefix(c: Tuple -> bool, total: seq<Tuple>, all: seq<Tuple>, n: nat, j: nat)
    requires n <= |total| && total <= all
    ensures AllPassed(c, all, n, j) <==> AllPassed(c, total, n, j)
  {
    assert forall p: nat :: p < n ==> all[p] == total[p];
  }

  lemma KeptInPrefix(c: Tuple -> bool, total: seq<Tuple>, all: seq<Tuple>, n: nat)
    requires n <= |total| && total <= all
    ensures KeepsUpTo(c, all, n) <==> KeepsUpTo(c, total, n)
  {
    hide AllPassed;
    forall p: nat | p < n
      ensures all[p] == total[p] && (AllPassed(c, all, p, p % CAPACITY) <==> AllPassed(c, total, p, p % CAPACITY))
    {
      PassedInPrefix(c, total, all, p, p % CAPACITY);
    }
  }

  /** A block has one result for each slot. */
  lemma PassedInBlock(c: Tuple -> bool, total: seq<Tuple>, first: nat, j: nat)
    requires first % CAPACITY == 0 && first + CAPACITY <= |total| && j < CAPACITY
    ensures (first + j) % CAPACITY == j
    ensures AllPassed(c, total, first + j, j) <==> AllPassed(c, total, first, j)
    ensures AllPassed(c, total, first + CAPACITY, j) <==> AllPassed(c, total, first, j) && c(total[first + j])
  {
    forall p: nat | first <= p < first + CAPACITY ensures p % CAPACITY == p - first {}
  }

  lemma KeptInBlock(c: Tuple -> bool, total: seq<Tuple>, first: nat)
    requires first % CAPACITY == 0 && first + CAPACITY <= |total|
    ensures KeepsUpTo(c, total, first + CAPACITY)
            <==> KeepsUpTo(c, total, first)
                 && forall j: nat :: j < CAPACITY && c(total[first + j]) ==> AllPassed(c, total, first, j)
  {
    hide AllPassed;
    forall j: nat | j < CAPACITY
      ensures (first + j) % CAPACITY == j && (AllPassed(c, total, first + j, j) <==> AllPassed(c, total, first, j))
    {
      PassedInBlock(c, total, first, j);
    }
    forall p: nat | first <= p < first + CAPACITY
      ensures AllPassed(c, total, p, p % CAPACITY) <==> AllPassed(c, total, first, p - first)
    {
      PassedInBlock(c, total, first, p - first);
    }
  }

  lemma AfterStep(c: Tuple -> bool, total: seq<Tuple>, q: Output, r: Tuple)
    requires After(c, total, q)
    ensures After(c, total + [r], Put(c, q, r))
    ensures Keeps(c, total + [r]) <==> Keeps(c, total) && (|q.slots| == CAPACITY ==> KeepsPassing(c, q))
  {
    var n, first, all := |total|, FirstHeld(|total|), total + [r];
    FirstHeldStep(n);
    hide AllPassed, KeepsUpTo, FirstHeld;
    KeptInPrefix(c, total, all, first);
    forall j: nat | j < CAPACITY ensures AllPassed(c, all, first, j) <==> AllPassed(c, total, first, j) {
      PassedInPrefix(c, total, all, first, j);
    }
    if |q.slots| == CAPACITY {
      FlushedAfter(c, total, q, r);
    } else {
      assert all[first..] == total[first..] + [r];
    }
  }

  lemma FlushedAfter(c: Tuple -> bool, total: seq<Tuple>, q: Output, r: Tuple)
    requires After(c, total, q) && |q.slots| == CAPACITY
    ensures After(c, total + [r], Put(c, q, r)) && (Keeps(c, total + [r]) <==> Keeps(c, total) && KeepsPassing(c, q))
  {
    var n, first, all := |total|, FirstHeld(|total|), total + [r];
    FirstHeldStep(n);
    assert first == n - CAPACITY && FirstHeld(|all|) == n && all[n..] == [r];
    PutWrapped(c, q, r);
    assert forall j: nat :: j < CAPACITY ==> (j in q.alive <==> AllPassed(c, total, first, j));
    hide AllPassed, KeepsUpTo, FirstHeld, Put, Below;
    KeptInPrefix(c, total, all, first);
    KeptInBlock(c, all, first);
    forall j: nat | j < CAPACITY
      ensures q.slots[j] == all[first + j] && (AllPassed(c, all, first, j) <==> j in q.alive)
      ensures AllPassed(c, all, n, j) <==> j in q.alive && c(q.slots[j])
    {
      PassedInPrefix(c, total, all, first, j);
      PassedInBlock(c, all, first, j);
    }
  }

  lemma PutWrapped(c: Tuple -> bool, q: Output, r: Tuple)
    requires q.Valid() && |q.slots| == CAPACITY
    ensures var next := Put(c, q, r);
            && next.Valid() && next.slots == [r]
            && forall j: nat :: j < CAPACITY ==> (j in next.alive <==> j in q.alive && c(q.slots[j]))
  {
    hide Satisfying, Gather, Slots;
  }

  function Copies(x: Tuple, n: nat): (ts: seq<Tuple>)
    ensures |ts| == n && forall i :: 0 <= i < n ==> ts[i] == x
  {
    seq(n, i => x)
  }

  lemma {:induction false} CopiesFit(c: Tuple -> bool, s: Output, x: Tuple, n: nat)
    requires |s.slots| + n <= CAPACITY
    ensures var q := PutAll(c, s, Copies(x, n));
            && q.slots == s.slots + Copies(x, n) && q.alive == s.alive && q.out == s.out
            && (q.asserted <==> s.asserted && forall i :: |s.slots| <= i < |s.slots| + n ==> i in s.alive)
  {
    if n > 0 {
      CopiesFit(c, s, x, n - 1);
      assert Copies(x, n)[..n - 1] == Copies(x, n - 1);
    } else {
      assert s.slots + Copies(x, 0) == s.slots;
    }
  }

  lemma {:induction false} PutAppended(c: Tuple -> bool, s: Output, rs: seq<Tuple>, qs: seq<Tuple>)
    ensures PutAll(c, s, rs + qs) == PutAll(c, PutAll(c, s, rs), qs)
  {
    if qs == [] {
      assert rs + qs == rs;
    } else {
      assert (rs + qs)[..|rs + qs| - 1] == rs + qs[..|qs| - 1];
      PutAppended(c, s, rs, qs[..|qs| - 1]);
      hide Put;
    }
  }

  /** The bound on the results of one probe tuple is tight.  If one probe tuple has 64 results that fail
      and the next one 65 that pass, then all slots are erased when the block is first handed on, and
      the 64 results put there next are lost. */
  lemma ResultsGetLost(c: Tuple -> bool, bad: Tuple, good: Tuple)
    requires !c(bad) && c(good)
    ensures var s := Probed(c, Output([], {}, [], true), Copies(bad, CAPACITY));
            var q := Probed(c, s, Copies(good, CAPACITY + 1));
            && Due(c, s, good) == 0 && s.asserted && Wanted(c, Copies(good, CAPACITY + 1), good) == CAPACITY + 1
            && q.out == [] && q.slots == [good] && Due(c, q, good) == 1 && !q.asserted
  {
    var goods := Copies(good, CAPACITY);
    assert goods == [good] + Copies(good, CAPACITY - 1);
    assert Copies(good, CAPACITY + 1) == goods + [good];
    FirstProbe(c, bad, good);
    var s := Probed(c, Output([], {}, [], true), Copies(bad, CAPACITY));
    hide Put, PutAll, Copies, Below;
    PutAppended(c, s, goods, [good]);
    PutAppended(c, s, [good], Copies(good, CAPACITY - 1));
    FirstHandOn(c, s, bad, good);
    var second := Put(c, s, good);
    PutOne(c, s, good);
    CopiesFit(c, second, good, CAPACITY - 1);
    var third := PutAll(c, second, Copies(good, CAPACITY - 1));
    PutOne(c, third, good);
    SecondHandOn(c, third, good);
    AllCopies(good, CAPACITY + 1);
  }

  lemma FirstProbe(c: Tuple -> bool, bad: Tuple, good: Tuple)
    requires !c(bad) && c(good)
    ensures Probed(c, Output([], {}, [], true), Copies(bad, CAPACITY))
            == Output(Copies(bad, CAPACITY), Below(CAPACITY), [], true)
    ensures Wanted(c, Copies(bad, CAPACITY), good) == 0
  {
    CopiesFit(c, Output([], Below(CAPACITY), [], true), bad, CAPACITY);
    assert [] + Copies(bad, CAPACITY) == Copies(bad, CAPACITY);
    assert good !in multiset(Copies(bad, CAPACITY));
  }

  lemma PutOne(c: Tuple -> bool, s: Output, r: Tuple)
    ensures PutAll(c, s, [r]) == Put(c, s, r)
  {
    assert [r][..0] == [];
  }

  lemma {:induction false} NoneSatisfies(c: Tuple -> bool, ts: seq<Tuple>)
    requires forall i :: 0 <= i < |ts| ==> !c(ts[i])
    ensures Satisfying(c, ts) == []
  {
    if ts != [] {
      NoneSatisfies(c, ts[1..]);
    }
  }

  lemma FirstHandOn(c: Tuple -> bool, s: Output, bad: Tuple, good: Tuple)
    requires !c(bad) && s == Output(Copies(bad, CAPACITY), Below(CAPACITY), [], s.asserted)
    ensures Put(c, s, good) == Output([good], {}, [], false)
  {
    AllSlots(s.slots);
    NoneSatisfies(c, s.slots);
    hide Gather, Slots, Satisfying, Below;
    assert Kept(s.slots, s.alive, c) == {};
  }

  lemma SecondHandOn(c: Tuple -> bool, s: Output, good: Tuple)
    requires |s.slots| == CAPACITY && s.alive == {} && s.out == [] && !s.asserted && c(good)
    ensures Put(c, s, good) == Output([good], {}, [], false) && Due(c, Put(c, s, good), good) == 1
  {
    assert Slots({}) == [] && Gather(s.slots, []) == [];
    assert Kept(s.slots, {}, c) == {};
  }

  lemma {:induction false} AllCopies(x: Tuple, n: nat)
    ensures multiset(Copies(x, n))[x] == n
  {
    if n > 0 {
      AllCopies(x, n - 1);
      assert Copies(x, n) == Copies(x, n - 1) + [x];
    }
  }

  // ------------------------------------------------------------------------- the probe phase

  /** The block and its counter are in the state `s`. */
  ghost predicate Holds(b: Block, i: nat, out: seq<Tuple>, s: Output)
    reads b, b.data
  {
    && b.Valid() && s.Valid() && i == |s.slots| && out == s.out
    && b.data[..i] == s.slots && b.mask == s.alive
  }

  /** Hands the full block to the filter. */
  method HandOn(b: Block, c: Tuple -> Truth, out: seq<Tuple>, ghost s: Output) returns (next: seq<Tuple>)
    requires Holds(b, CAPACITY, out, s)
    modifies b`mask
    ensures Holds(b, 0, next, Flushed(Passes(c), s))
  {
    assert b.data[..] == s.slots;
    hide Satisfying, Gather, Slots, Below;
    FilterBlock(b, c);
    var tuples := b.Tuples();
    next := out + tuples;
  }

  method PutResult(b: Block, i: nat, c: Tuple -> Truth, out: seq<Tuple>, r: Tuple, ghost s: Output)
    returns (j: nat, next: seq<Tuple>)
    requires Holds(b, i, out, s)
    modifies b, b.data
    ensures Holds(b, j, next, Put(Passes(c), s, r))
  {
    hide Below, Passes, Flushed;
    j, next := i, out;
    ghost var q := s;
    if i == CAPACITY {
      next := HandOn(b, c, out, s);
      j, q := 0, Flushed(Passes(c), s);
    }
    b.data[j] := r;
    assert b.data[..j + 1] == q.slots + [r];
    j := j + 1;
  }

  /** Probes with one tuple; `found` are the build tuples with its key. */
  method ProbeTuple(ht: HashTable, t: Tuple, b: Block, i: nat, c: Tuple -> Truth, out: seq<Tuple>, ghost s: Output)
    returns (j: nat, next: seq<Tuple>, ghost found: seq<Tuple>)
    requires Holds(b, i, out, s)
    modifies b, b.data
    ensures multiset(found) == multiset(WithKey(ht.entries, ht.e.probeKey(t)))
    ensures Holds(b, j, next, Probed(Passes(c), s, CombineAll(ht.e, found, t)))
  {
    hide Put, Passes, Below, CombineAll, WithKey;
    b.Fill();
    ghost var start := s.(alive := Below(CAPACITY));
    var ts := ht.ForAll(ht.e.probeKey(t));
    found := ts;
    j, next := i, out;
    var k := 0;
    NothingCombined(ht.e, ts, t);
    while k < |ts|
      invariant 0 <= k <= |ts|
      invariant Holds(b, j, next, PutAll(Passes(c), start, CombineAll(ht.e, ts[..k], t)))
    {
      var r := ht.e.combine(ts[k], t);
      OneMoreCombined(Passes(c), ht.e, ts, k, t, start);
      hide *;
      j, next := PutResult(b, j, c, next, r, PutAll(Passes(c), start, CombineAll(ht.e, ts[..k], t)));
      k := k + 1;
    }
  }

  lemma NothingCombined(e: EquiJoin, ts: seq<Tuple>, t: Tuple)
    ensures CombineAll(e, ts[..0], t) == [] && ts[..|ts|] == ts
  {}

  lemma OneMoreCombined(c: Tuple -> bool, e: EquiJoin, ts: seq<Tuple>, k: nat, t: Tuple, s: Output)
    requires k < |ts|
    ensures PutAll(c, s, CombineAll(e, ts[..k + 1], t))
            == Put(c, PutAll(c, s, CombineAll(e, ts[..k], t)), e.combine(ts[k], t))
  {
    assert ts[..k + 1] == ts[..k] + [ts[k]] && [ts[k]][1..] == [];
    CombineAppend(e, ts[..k], [ts[k]], t);
    var before, r := CombineAll(e, ts[..k], t), e.combine(ts[k], t);
    assert CombineAll(e, [ts[k]], t) == [r];
    PutAppended(c, s, before, [r]);
    hide *;
    PutOne(c, PutAll(c, s, before), r);
  }

  /** No key occurs more often in the build side than the block has slots. */
  ghost predicate FewDuplicates(e: EquiJoin, build: seq<Tuple>) {
    forall k: Key :: |WithKey(Keyed(e, build), k)| <= CAPACITY
  }

  /** What is due after the results `rs`: not too much, and all of it exactly in the given case. */
  ghost predicate Accounted(c: Tuple -> bool, s: Output, rs: seq<Tuple>, all: bool) {
    && (forall x :: Due(c, s, x) <= Wanted(c, rs, x))
    && (all <==> forall x :: Due(c, s, x) == Wanted(c, rs, x))
  }

  /** A probe tuple adds its results to what is due, and loses none exactly if the blocks that it hands
      on keep them. */
  lemma ProbeAccounted(c: Tuple -> bool, e: EquiJoin, build: seq<Tuple>, t: Tuple, s: Output, found: seq<Tuple>,
                       rs: seq<Tuple>, all: bool)
    requires s.Valid() && multiset(found) == multiset(WithKey(Keyed(e, build), e.probeKey(t)))
    requires Accounted(c, s, rs, all)
    ensures var results, q := CombineAll(e, found, t), Probed(c, s, CombineAll(e, found, t));
            && Accounted(c, q, rs + Matches(e, build, t), all && Keeps(c, s.slots + results))
            && After(c, s.slots + results, q) && (q.asserted ==> s.asserted)
            && (q.asserted || FewDuplicates(e, build) ==> Keeps(c, s.slots + results))
  {
    hide *;
    var results, q := CombineAll(e, found, t), Probed(c, s, CombineAll(e, found, t));
    FoundResults(e, build, t, found);
    ProbeDue(c, s, results);
    MoreAccounted(c, s, q, rs, results, Matches(e, build, t), all);
  }

  lemma MoreAccounted(c: Tuple -> bool, s: Output, q: Output, rs: seq<Tuple>, results: seq<Tuple>, more: seq<Tuple>,
                      all: bool)
    requires Accounted(c, s, rs, all) && multiset(results) == multiset(more)
    requires AllDue(c, s, q, results) <==> Keeps(c, s.slots + results)
    requires forall x :: Due(c, q, x) <= Due(c, s, x) + Wanted(c, results, x)
    ensures Accounted(c, q, rs + more, all && Keeps(c, s.slots + results))
  {
    hide Due, Wanted, Keeps;
    forall x ensures Wanted(c, rs + more, x) == Wanted(c, rs, x) + Wanted(c, results, x) {
      WantedOfBoth(c, rs, more, results, x);
    }
  }

  lemma FoundResults(e: EquiJoin, build: seq<Tuple>, t: Tuple, found: seq<Tuple>)
    requires multiset(found) == multiset(WithKey(Keyed(e, build), e.probeKey(t)))
    ensures multiset(CombineAll(e, found, t)) == multiset(Matches(e, build, t))
    ensures FewDuplicates(e, build) ==> |CombineAll(e, found, t)| <= CAPACITY
  {
    var entries := WithKey(Keyed(e, build), e.probeKey(t));
    LookupMatches(e, build, t);
    CombinePermutes(e, found, entries, t);
    CombineSize(e, found, t);
    hide WithKey, Keyed, CombineAll, Matches;
    assert |multiset(found)| == |found| && |multiset(entries)| == |entries|;
  }

  lemma {:induction false} CombineSize(e: EquiJoin, ts: seq<Tuple>, t: Tuple)
    ensures |CombineAll(e, ts, t)| == |ts|
  {
    if ts != [] {
      CombineSize(e, ts[1..], t);
    }
  }

  lemma ProbeDue(c: Tuple -> bool, s: Output, rs: seq<Tuple>)
    requires s.Valid()
    ensures var q := Probed(c, s, rs);
            && After(c, s.slots + rs, q) && (AllDue(c, s, q, rs) <==> Keeps(c, s.slots + rs))
            && (forall x :: Due(c, q, x) <= Due(c, s, x) + Wanted(c, rs, x)) && (q.asserted ==> s.asserted)
            && (q.asserted || |rs| <= CAPACITY ==> Keeps(c, s.slots + rs))
  {
    var filled, q := s.(alive := Below(CAPACITY)), Probed(c, s, rs);
    assert filled.Valid() && Written(filled) && q == PutAll(c, filled, rs) && filled.slots == s.slots;
    assert forall x :: Due(c, filled, x) == Due(c, s, x);
    assert AllDue(c, filled, q, rs) <==> AllDue(c, s, q, rs);
    assert AllDue(c, s, q, rs) <==> forall x :: Due(c, q, x) == Due(c, s, x) + Wanted(c, rs, x);
    LosesNothingIff(c, filled, rs);
    AssertedLosesNothing(c, filled, rs, []);
    hide *;
    forall x ensures Due(c, q, x) <= Due(c, s, x) + Wanted(c, rs, x)
      ensures q.asserted ==> s.asserted && Due(c, q, x) == Due(c, s, x) + Wanted(c, rs, x)
    {
      NothingInvented(c, filled, rs, x);
      AssertedLosesNothing(c, filled, rs, x);
    }
    if |rs| <= CAPACITY {
      FewAreKept(c, s.slots, rs);
    }
  }

  /** With at most as many results as slots, at most one block is handed on. */
  lemma FewAreKept(c: Tuple -> bool, held: seq<Tuple>, rs: seq<Tuple>)
    requires |held| <= CAPACITY && |rs| <= CAPACITY
    ensures Keeps(c, held + rs)
  {
    assert FirstHeld(|held + rs|) <= CAPACITY;
    forall p: nat | p < FirstHeld(|held + rs|) ensures AllPassed(c, held + rs, p, p % CAPACITY) {}
  }

  /** No filter whatsoever makes results get lost exactly if those handed on from one slot are all alike. */
  lemma SafeForAllFilters(total: seq<Tuple>)
    ensures (forall c: Tuple -> bool :: Keeps(c, total))
            <==> forall q: nat, p: nat :: q < p < FirstHeld(|total|) && q % CAPACITY == p % CAPACITY ==>
                     total[q] == total[p]
  {
    var n := FirstHeld(|total|);
    if forall c: Tuple -> bool :: Keeps(c, total) {
      forall q: nat, p: nat | q < p < n && q % CAPACITY == p % CAPACITY ensures total[q] == total[p] {
        var only := (t: Tuple) => t == total[p];
        assert Keeps(only, total) && only(total[p]) && AllPassed(only, total, p, p % CAPACITY);
        assert only(total[q]);
      }
    } else {
      var c: Tuple -> bool :| !Keeps(c, total);
      var p: nat :| p < n && c(total[p]) && !AllPassed(c, total, p, p % CAPACITY);
      var q: nat :| q < p && q % CAPACITY == p % CAPACITY && !c(total[q]);
      assert total[q] != total[p];
    }
  }

  /** The results left in the output block after those of the probe tuples so far. */
  function Held(results: seq<seq<Tuple>>): seq<Tuple> {
    if results == [] then []
    else
      var total := Held(results[..|results| - 1]) + results[|results| - 1];
      total[FirstHeld(|total|)..]
  }

  /** For every probe tuple of a block, the blocks that it hands on keep the results that pass. */
  ghost predicate Lossless(c: Tuple -> bool, results: seq<seq<Tuple>>) {
    forall k {:trigger Held(results[..k])} :: 0 <= k < |results| ==> Keeps(c, Held(results[..k]) + results[k])
  }

  /** The results of every probe tuple, in the order in which they were found. */
  ghost predicate AreResults(e: EquiJoin, build: seq<Tuple>, block: seq<Tuple>, results: seq<seq<Tuple>>) {
    && |results| == |block|
    && forall k :: 0 <= k < |block| ==> multiset(results[k]) == multiset(Matches(e, build, block[k]))
  }

  lemma LosslessStep(c: Tuple -> bool, results: seq<seq<Tuple>>, rs: seq<Tuple>)
    ensures var total := Held(results) + rs;
            && Held(results + [rs]) == total[FirstHeld(|total|)..]
            && (Lossless(c, results + [rs]) <==> Lossless(c, results) && Keeps(c, total))
  {
    var all := results + [rs];
    assert all[..|results|] == results;
    hide Keeps;
    forall k | 0 <= k < |results| ensures all[..k] == results[..k] && all[k] == results[k] {}
    if Lossless(c, all) {
      forall k | 0 <= k < |results| ensures Keeps(c, Held(results[..k]) + results[k]) {
        assert Keeps(c, Held(all[..k]) + all[k]);
      }
      assert Keeps(c, Held(all[..|results|]) + all[|results|]);
    }
    hide Held;
  }

  lemma ResultsStep(e: EquiJoin, build: seq<Tuple>, block: seq<Tuple>, k: nat, results: seq<seq<Tuple>>,
                    rs: seq<Tuple>)
    requires k < |block| && AreResults(e, build, block[..k], results)
    requires multiset(rs) == multiset(Matches(e, build, block[k]))
    ensures AreResults(e, build, block[..k + 1], results + [rs])
  {
    hide Matches;
  }

  lemma WantedOfBoth(c: Tuple -> bool, xs: seq<Tuple>, ys: seq<Tuple>, zs: seq<Tuple>, x: Tuple)
    requires multiset(ys) == multiset(zs)
    ensures Wanted(c, xs + ys, x) == Wanted(c, xs, x) + Wanted(c, zs, x)
  {
    assert multiset(xs + ys) == multiset(xs) + multiset(ys);
  }

  /** The state after some probe tuples of a block, and the results that were found for them. */
  ghost predicate Probing(c: Tuple -> bool, e: EquiJoin, build: seq<Tuple>, probed: seq<Tuple>, s: Output,
                          results: seq<seq<Tuple>>) {
    && s.Valid() && AreResults(e, build, probed, results) && s.slots == Held(results)
    && Accounted(c, s, AllMatches(e, build, probed), Lossless(c, results))
    && (s.asserted || FewDuplicates(e, build) ==> Lossless(c, results))
  }

  lemma ProbingStep(c: Tuple -> bool, e: EquiJoin, build: seq<Tuple>, block: seq<Tuple>, k: nat, s: Output,
                    results: seq<seq<Tuple>>, found: seq<Tuple>)
    requires k < |block| && Probing(c, e, build, block[..k], s, results)
    requires multiset(found) == multiset(WithKey(Keyed(e, build), e.probeKey(block[k])))
    ensures var rs := CombineAll(e, found, block[k]);
            Probing(c, e, build, block[..k + 1], Probed(c, s, rs), results + [rs])
  {
    hide AreResults, Held, Accounted, AllMatches, Lossless, Output.Valid, WithKey, Keyed, CombineAll, Probed, Matches,
         FewDuplicates, Keeps;
    var t, rs := block[k], CombineAll(e, found, block[k]);
    ProbeAccounted(c, e, build, t, s, found, AllMatches(e, build, block[..k]), Lossless(c, results));
    FoundResults(e, build, t, found);
    LosslessStep(c, results, rs);
    ResultsStep(e, build, block, k, results, rs);
    AfterIsValid(c, s.slots + rs, Probed(c, s, rs));
    AfterHolds(c, s.slots + rs, Probed(c, s, rs));
    MatchesStep(e, build, block, k);
    hide After;
  }

  lemma ProbingMeans(c: Tuple -> bool, e: EquiJoin, build: seq<Tuple>, probed: seq<Tuple>, s: Output,
                     results: seq<seq<Tuple>>)
    requires Probing(c, e, build, probed, s, results)
    ensures AreResults(e, build, probed, results)
    ensures Accounted(c, s, AllMatches(e, build, probed), Lossless(c, results))
    ensures s.asserted || FewDuplicates(e, build) ==> Lossless(c, results)
  {
    hide AreResults, Accounted, Lossless, FewDuplicates;
  }

  /** Probes with the tuple at `k`. */
  method ProbeNext(ht: HashTable, block: seq<Tuple>, k: nat, b: Block, i: nat, c: Tuple -> Truth, out: seq<Tuple>,
                   ghost build: seq<Tuple>, ghost s: Output, ghost results: seq<seq<Tuple>>)
    returns (j: nat, next: seq<Tuple>, ghost q: Output, ghost more: seq<seq<Tuple>>)
    requires k < |block| && Holds(b, i, out, s) && ht.entries == Keyed(ht.e, build)
    requires Probing(Passes(c), ht.e, build, block[..k], s, results)
    modifies b, b.data
    ensures Holds(b, j, next, q) && Probing(Passes(c), ht.e, build, block[..k + 1], q, more)
  {
    hide *;
    ghost var found;
    j, next, found := ProbeTuple(ht, block[k], b, i, c, out, s);
    ProbingStep(Passes(c), ht.e, build, block, k, s, results, found);
    ghost var rs := CombineAll(ht.e, found, block[k]);
    q, more := Probed(Passes(c), s, rs), results + [rs];
  }

  /** Probes with all tuples of a block. */
  method ProbeTuples(ht: HashTable, block: seq<Tuple>, b: Block, c: Tuple -> Truth, ghost build: seq<Tuple>)
    returns (i: nat, out: seq<Tuple>, ghost s: Output, ghost results: seq<seq<Tuple>>)
    requires b.Valid() && ht.entries == Keyed(ht.e, build)
    modifies b, b.data
    ensures Holds(b, i, out, s) && Probing(Passes(c), ht.e, build, block, s, results)
  {
    out, results, i := [], [], 0;
    s := Output([], b.mask, [], true);
    Begin(b, Passes(c), s, ht.e, build, block);
    var k := 0;
    hide *;
    while k < |block|
      invariant 0 <= k <= |block| && Holds(b, i, out, s) && ht.entries == Keyed(ht.e, build)
      invariant Probing(Passes(c), ht.e, build, block[..k], s, results)
    {
      i, out, s, results := ProbeNext(ht, block, k, b, i, c, out, build, s, results);
      k := k + 1;
    }
    assert block[..k] == block;
  }

  /** Probes with a block; what is left in the output block at its end is handed on. */
  method ProbeBlock(ht: HashTable, block: seq<Tuple>, b: Block, c: Tuple -> Truth, ghost build: seq<Tuple>)
    returns (out: seq<Tuple>, ghost asserted: bool, ghost results: seq<seq<Tuple>>)
    requires b.Valid() && ht.entries == Keyed(ht.e, build)
    modifies b, b.data
    ensures b.Valid() && AreResults(ht.e, build, block, results)
    ensures Handed(Passes(c), out, AllMatches(ht.e, build, block), Lossless(Passes(c), results))
    ensures asserted || FewDuplicates(ht.e, build) ==> Lossless(Passes(c), results)
  {
    hide *;
    var i;
    ghost var s;
    i, out, s, results := ProbeTuples(ht, block, b, c, build);
    ProbingMeans(Passes(c), ht.e, build, block, s, results);
    asserted := s.asserted;
    out := HandOnRest(b, i, c, out, s, AllMatches(ht.e, build, block), Lossless(Passes(c), results));
  }

  lemma AfterHolds(c: Tuple -> bool, total: seq<Tuple>, q: Output)
    requires After(c, total, q)
    ensures q.slots == total[FirstHeld(|total|)..]
  {}

  lemma Begin(b: Block, c: Tuple -> bool, s: Output, e: EquiJoin, build: seq<Tuple>, block: seq<Tuple>)
    requires b.Valid() && s == Output([], b.mask, [], true)
    ensures Holds(b, 0, [], s) && Probing(c, e, build, block[..0], s, [])
  {
    assert block[..0] == [] && b.data[..0] == [];
  }

  lemma MatchesStep(e: EquiJoin, build: seq<Tuple>, block: seq<Tuple>, k: nat)
    requires k < |block|
    ensures AllMatches(e, build, block[..k + 1]) == AllMatches(e, build, block[..k]) + Matches(e, build, block[k])
  {
    assert block[..k + 1] == block[..k] + [block[k]];
    AllMatchesAppend(e, build, block[..k], [block[k]]);
    OneProbe(e, build, block[k]);
    hide *;
  }

  /** The tuples handed on are results that pass the filter, and all of them exactly in the given case. */
  ghost predicate Handed(c: Tuple -> bool, out: seq<Tuple>, rs: seq<Tuple>, all: bool) {
    && (forall x :: multiset(out)[x] <= Wanted(c, rs, x))
    && (all <==> forall x :: multiset(out)[x] == Wanted(c, rs, x))
  }

  /** At the end the slots written last are in use. */
  method HandOnRest(b: Block, i: nat, c: Tuple -> Truth, out: seq<Tuple>, ghost s: Output, ghost rs: seq<Tuple>,
                    ghost all: bool)
    returns (next: seq<Tuple>)
    requires Holds(b, i, out, s) && Accounted(Passes(c), s, rs, all)
    modifies b`mask
    ensures b.Valid() && Handed(Passes(c), next, rs, all)
  {
    hide Passes, Accounted, Handed;
    next := out;
    if i != 0 {
      b.mask := Below(i);
      FirstTuples(b.data[..], i);
      BelowWithin(i);
      FilterBlock(b, c);
      var tuples := b.Tuples();
      next := next + tuples;
    } else {
      assert out + Satisfying(Passes(c), []) == out;
    }
    RestHanded(Passes(c), s, next, rs, all);
  }

  lemma BelowWithin(i: nat)
    requires i <= CAPACITY
    ensures Below(i) <= Below(CAPACITY)
  {}

  lemma FirstTuples(data: seq<Tuple>, i: nat)
    requires i <= |data|
    ensures Gather(data, Slots(Below(i))) == data[..i]
  {
    FirstSlots(0, i);
    assert Range(0, i) == Below(i);
    GatherFirst(data, data[..i], 0);
  }

  lemma RestHanded(c: Tuple -> bool, s: Output, next: seq<Tuple>, rs: seq<Tuple>, all: bool)
    requires Accounted(c, s, rs, all) && next == s.out + Satisfying(c, s.slots)
    ensures Handed(c, next, rs, all)
  {
    forall x ensures multiset(next)[x] == Due(c, s, x) {
      SatisfyingCount(c, s.slots, x);
    }
    hide Due, Wanted;
  }

  /** The results found for a stream of probe tuples, block by block. */
  ghost predicate AreRuns(e: EquiJoin, build: seq<Tuple>, probe: Stream, runs: seq<seq<seq<Tuple>>>) {
    |runs| == |probe| && forall k :: 0 <= k < |probe| ==> AreResults(e, build, probe[k], runs[k])
  }

  ghost predicate AllLossless(c: Tuple -> bool, runs: seq<seq<seq<Tuple>>>) {
    forall k :: 0 <= k < |runs| ==> Lossless(c, runs[k])
  }

  lemma RunsStep(c: Tuple -> bool, e: EquiJoin, build: seq<Tuple>, probe: Stream, k: nat, runs: seq<seq<seq<Tuple>>>,
                 results: seq<seq<Tuple>>)
    requires k < |probe| && AreRuns(e, build, probe[..k], runs) && AreResults(e, build, probe[k], results)
    ensures AreRuns(e, build, probe[..k + 1], runs + [results])
    ensures AllLossless(c, runs + [results]) <==> AllLossless(c, runs) && Lossless(c, results)
  {
    hide AreResults, Lossless;
    var all := runs + [results];
    assert forall j :: 0 <= j < |runs| ==> all[j] == runs[j];
    assert all[|runs|] == results;
  }

  /** The hash join below a filter, for any cut into blocks.  Whatever the filter erases, only results
      that pass it are handed on.  All of them are exactly if every probe tuple hands on blocks that keep
      its results; so it is if no key occurs more often in the build side than a block has slots, and in
      every run that puts tuples into slots in use only. */
  method HashJoinBelowFilter(e: EquiJoin, build: Stream, probe: Stream, c: Tuple -> Truth)
    returns (out: seq<Tuple>, ghost asserted: bool, ghost runs: seq<seq<seq<Tuple>>>)
    ensures AreRuns(e, Flat(build), probe, runs)
    ensures multiset(out) <= multiset(Satisfying(Passes(c), AllMatches(e, Flat(build), Flat(probe))))
    ensures multiset(out) == multiset(Satisfying(Passes(c), AllMatches(e, Flat(build), Flat(probe))))
            <==> AllLossless(Passes(c), runs)
    ensures asserted || FewDuplicates(e, Flat(build)) ==> AllLossless(Passes(c), runs)
  {
    out, asserted, runs := [], true, [];
    var ht := Build(e, build);
    if |ht.entries| == 0 {
      runs := seq(|probe|, k requires 0 <= k < |probe| => seq(|probe[k]|, j => []));
      NoBuild(e, Flat(build), Flat(probe));
      NoRuns(Passes(c), e, Flat(build), probe);
      HandedMeans(Passes(c), out, [], true);
      return;
    }
    hide *;
    out, asserted, runs := ProbeStream(ht, probe, c, Flat(build));
    HandedMeans(Passes(c), out, AllMatches(e, Flat(build), Flat(probe)), AllLossless(Passes(c), runs));
  }

  /** The probe phase. */
  method ProbeStream(ht: HashTable, probe: Stream, c: Tuple -> Truth, ghost build: seq<Tuple>)
    returns (out: seq<Tuple>, ghost asserted: bool, ghost runs: seq<seq<seq<Tuple>>>)
    requires ht.entries == Keyed(ht.e, build)
    ensures AreRuns(ht.e, build, probe, runs)
    ensures Handed(Passes(c), out, AllMatches(ht.e, build, Flat(probe)), AllLossless(Passes(c), runs))
    ensures asserted || FewDuplicates(ht.e, build) ==> AllLossless(Passes(c), runs)
  {
    hide *;
    out, asserted, runs := [], true, [];
    var b := new Block([]);
    var k := 0;
    assert probe[..0] == [];
    NoProbe(Passes(c), ht.e, build);
    while k < |probe|
      invariant 0 <= k <= |probe| && b.Valid() && fresh(b) && fresh(b.data)
      invariant ht.entries == Keyed(ht.e, build) && AreRuns(ht.e, build, probe[..k], runs)
      invariant Handed(Passes(c), out, AllMatches(ht.e, build, Flat(probe[..k])), AllLossless(Passes(c), runs))
      invariant asserted || FewDuplicates(ht.e, build) ==> AllLossless(Passes(c), runs)
    {
      var more;
      ghost var right, results;
      more, right, results := ProbeBlock(ht, probe[k], b, c, build);
      OneMoreRun(Passes(c), ht.e, build, probe, k, runs, results, out, more);
      out, asserted, runs := out + more, asserted && right, runs + [results];
      k := k + 1;
    }
    assert probe[..k] == probe;
  }

  lemma OneMoreRun(c: Tuple -> bool, e: EquiJoin, build: seq<Tuple>, probe: Stream, k: nat, runs: seq<seq<seq<Tuple>>>,
                   results: seq<seq<Tuple>>, out: seq<Tuple>, more: seq<Tuple>)
    requires k < |probe| && AreRuns(e, build, probe[..k], runs) && AreResults(e, build, probe[k], results)
    requires Handed(c, out, AllMatches(e, build, Flat(probe[..k])), AllLossless(c, runs))
    requires Handed(c, more, AllMatches(e, build, probe[k]), Lossless(c, results))
    ensures AreRuns(e, build, probe[..k + 1], runs + [results])
    ensures Handed(c, out + more, AllMatches(e, build, Flat(probe[..k + 1])), AllLossless(c, runs + [results]))
    ensures AllLossless(c, runs + [results]) <==> AllLossless(c, runs) && Lossless(c, results)
  {
    hide *;
    FlatStep(probe, k);
    AllMatchesAppend(e, build, Flat(probe[..k]), probe[k]);
    BothHanded(c, out, more, AllMatches(e, build, Flat(probe[..k])), AllMatches(e, build, probe[k]),
               AllLossless(c, runs), Lossless(c, results));
    RunsStep(c, e, build, probe, k, runs, results);
  }

  /** With an empty build side nothing is probed. */
  lemma NoRuns(c: Tuple -> bool, e: EquiJoin, build: seq<Tuple>, probe: Stream)
    requires build == []
    ensures var runs := seq(|probe|, k requires 0 <= k < |probe| => seq(|probe[k]|, j => []));
            AreRuns(e, build, probe, runs) && AllLossless(c, runs)
  {
    var runs: seq<seq<seq<Tuple>>> := seq(|probe|, k requires 0 <= k < |probe| => seq(|probe[k]|, j => []));
    forall k | 0 <= k < |runs| ensures Lossless(c, runs[k]) && AreResults(e, build, probe[k], runs[k]) {
      NothingHeld(c, runs[k]);
    }
  }

  lemma {:induction false} NothingHeld(c: Tuple -> bool, results: seq<seq<Tuple>>)
    requires forall k :: 0 <= k < |results| ==> results[k] == []
    ensures Held(results) == [] && Lossless(c, results)
  {
    if results != [] {
      var rest := results[..|results| - 1];
      NothingHeld(c, rest);
      assert results == rest + [[]];
      LosslessStep(c, rest, []);
      FewAreKept(c, Held(rest), []);
    }
  }

  lemma NoProbe(c: Tuple -> bool, e: EquiJoin, build: seq<Tuple>)
    ensures AreRuns(e, build, [], []) && AllLossless(c, [])
    ensures Handed(c, [], AllMatches(e, build, Flat([])), AllLossless(c, []))
  {
    assert Flat([]) == [] && AllMatches(e, build, []) == [];
  }

  lemma BothHanded(c: Tuple -> bool, xs: seq<Tuple>, ys: seq<Tuple>, rs: seq<Tuple>, qs: seq<Tuple>, p: bool, q: bool)
    requires Handed(c, xs, rs, p) && Handed(c, ys, qs, q)
    ensures Handed(c, xs + ys, rs + qs, p && q)
  {
    forall x ensures multiset(xs + ys)[x] == multiset(xs)[x] + multiset(ys)[x]
      ensures Wanted(c, rs + qs, x) == Wanted(c, rs, x) + Wanted(c, qs, x)
    {
      assert multiset(xs + ys) == multiset(xs) + multiset(ys);
      assert multiset(rs + qs) == multiset(rs) + multiset(qs);
    }
    hide Wanted;
    if (forall x :: multiset(xs + ys)[x] == Wanted(c, rs + qs, x)) {
      forall x ensures multiset(xs)[x] == Wanted(c, rs, x) && multiset(ys)[x] == Wanted(c, qs, x) {
        assert multiset(xs + ys)[x] == Wanted(c, rs + qs, x);
      }
    }
  }

  lemma HandedMeans(c: Tuple -> bool, out: seq<Tuple>, rs: seq<Tuple>, all: bool)
    requires Handed(c, out, rs, all)
    ensures multiset(out) <= multiset(Satisfying(c, rs))
    ensures all <==> multiset(out) == multiset(Satisfying(c, rs))
  {
    forall x ensures multiset(Satisfying(c, rs))[x] == Wanted(c, rs, x) {
      SatisfyingCount(c, rs, x);
    }
    hide Wanted, Satisfying;
  }
}
