/** The join trees that a filled plan table spells out through the operands of its entries.
    Entries may be replaced while the table is filled; the tree read from the finished table
    nevertheless has exactly the cost that the table promises. */
module TableTrees {
  import opened SmallBitset
  import opened AdjacencyMatrix
  import opened PlanTables
  import opened EnumerationFacts

  /** Following the operands of the entries from `s` on yields `t`. */
  ghost predicate Spells(e: Entries, s: Subproblem, t: JoinTree) {
    && s in e && t.Rels() == s
    && match t
       case Leaf(_) => e[s].left == {} && e[s].right == {}
       case Join(a, b) =>
         && e[s].left == a.Rels() && e[s].right == b.Rels()
         && Spells(e, e[s].left, a) && Spells(e, e[s].right, b)
  }

  /** Every node joins disjoint sets of sources. */
  ghost predicate Disjoint(t: JoinTree) {
    t.Join? ==> Disjoint(t.left) && Disjoint(t.right) && t.left.Rels() !! t.right.Rels()
  }

  ghost predicate IsScan(space: SearchSpace, cm: CostModel, e: Entries, s: Subproblem)
    requires s in e
  {
    exists i: nat :: i < space.NumSources() && s == {i} && e[s] == Entry({}, {}, cm.scan(i))
  }

  /** The cost of an entry is the one its operands have now, and these operands are final. */
  ghost predicate IsJoin(space: SearchSpace, cm: CostModel, log: Calls, e: Entries, s: Subproblem)
    requires s in e
  {
    var (l, r) := (e[s].left, e[s].right);
    && l in e && r in e && l + r == s && Pair(space, l, r)
    && e[s].cost == cm.join(l, r, e[l].cost, e[r].cost)
    && Settled(space, log, l) && Settled(space, log, r)
  }

  ghost predicate Grounded(space: SearchSpace, cm: CostModel, log: Calls, e: Entries) {
    forall s :: s in e ==> IsScan(space, cm, e, s) || IsJoin(space, cm, log, e, s)
  }

  lemma SettledGrows(space: SearchSpace, log: Calls, c: (Subproblem, Subproblem), s: Subproblem)
    requires Settled(space, log, s)
    ensures Settled(space, log + [c], s)
  {
    hide Pair;
  }

  /** An entry that the call does not replace stays grounded, because its operands are final. */
  lemma OldEntryStaysGrounded(space: SearchSpace, cm: CostModel, log: Calls, e: Entries, l: Subproblem, r: Subproblem,
                              s: Subproblem)
    requires Established(space, cm, log, e) && space.Valid()
    requires Pair(space, l, r) && l in e && r in e
    requires s in e && IsJoin(space, cm, log, e, s) && Updated(cm, e, l, r)[s] == e[s]
    ensures IsJoin(space, cm, log + [(l, r)], Updated(cm, e, l, r), s)
  {
    var (x, y) := (e[s].left, e[s].right);
    PairFacts(space, x, y);
    SettledGrows(space, log, (l, r), x);
    SettledGrows(space, log, (l, r), y);
    FinalEntry(space, cm, log, e, l, r, x);
    FinalEntry(space, cm, log, e, l, r, y);
    hide Settled, Pair, Established, Updated;
  }

  lemma FinalEntry(space: SearchSpace, cm: CostModel, log: Calls, e: Entries, l: Subproblem, r: Subproblem,
                   x: Subproblem)
    requires Established(space, cm, log, e) && space.Valid()
    requires Pair(space, l, r) && l in e && r in e
    requires x in e && Settled(space, log, x) && space.HasTree(x)
    ensures Updated(cm, e, l, r)[x] == e[x]
  {
    hide Settled, SearchSpace.HasTree, SearchSpace.Joinable, SearchSpace.Admits, Candidate, Attained, Covers;
    if x == l + r {
      SettledIsOptimal(space, cm, e, log, x);
      CandidateAttained(space, cm, e, l, r);
      var t :| space.Admits(t) && t.Rels() == l + r && cm.Cost(t) == Candidate(cm, e, l, r).cost;
      assert e[x].cost <= cm.Cost(t);
    }
  }

  lemma NewEntryIsGrounded(space: SearchSpace, cm: CostModel, log: Calls, e: Entries, l: Subproblem, r: Subproblem)
    requires space.Valid() && Pair(space, l, r) && l in e && r in e
    requires Settled(space, log, l) && Settled(space, log, r)
    requires l + r !in e || Updated(cm, e, l, r)[l + r] != e[l + r]
    ensures IsJoin(space, cm, log + [(l, r)], Updated(cm, e, l, r), l + r)
  {
    hide Settled, Pair;
    PairFacts(space, l, r);
    ReplacedEntry(cm, e, l, r);
    SettledGrows(space, log, (l, r), l);
    SettledGrows(space, log, (l, r), r);
    hide Updated;
    CandidateIsJoin(space, cm, log + [(l, r)], Updated(cm, e, l, r), e, l, r);
  }

  lemma ReplacedEntry(cm: CostModel, e: Entries, l: Subproblem, r: Subproblem)
    requires l in e && r in e && l < l + r && r < l + r
    requires l + r !in e || Updated(cm, e, l, r)[l + r] != e[l + r]
    ensures var e' := Updated(cm, e, l, r);
            && l in e' && r in e' && l + r in e'
            && e'[l] == e[l] && e'[r] == e[r] && e'[l + r] == Candidate(cm, e, l, r)
  {
    hide Candidate;
  }

  lemma CandidateIsJoin(space: SearchSpace, cm: CostModel, log: Calls, e': Entries, e: Entries, l: Subproblem,
                        r: Subproblem)
    requires Pair(space, l, r) && Pair(space, r, l) && l in e && r in e && l in e' && r in e' && l + r in e'
    requires e'[l] == e[l] && e'[r] == e[r] && e'[l + r] == Candidate(cm, e, l, r)
    requires Settled(space, log, l) && Settled(space, log, r)
    ensures IsJoin(space, cm, log, e', l + r)
  {
    hide Settled, Pair;
    assert r + l == l + r;
  }

  lemma GroundedStep(space: SearchSpace, cm: CostModel, log: Calls, e: Entries, l: Subproblem, r: Subproblem)
    requires Established(space, cm, log, e) && space.Valid() && Grounded(space, cm, log, e)
    requires Pair(space, l, r) && l in e && r in e
    requires Settled(space, log, l) && Settled(space, log, r)
    ensures Grounded(space, cm, log + [(l, r)], Updated(cm, e, l, r))
  {
    var log', e' := log + [(l, r)], Updated(cm, e, l, r);
    hide Established, Settled, IsJoin, Candidate;
    forall s | s in e' ensures IsScan(space, cm, e', s) || IsJoin(space, cm, log', e', s) {
      if s in e && e'[s] == e[s] {
        if IsJoin(space, cm, log, e, s) {
          OldEntryStaysGrounded(space, cm, log, e, l, r, s);
        } else {
          assert IsScan(space, cm, e, s);
        }
      } else {
        NewEntryIsGrounded(space, cm, log, e, l, r);
      }
    }
  }

  lemma {:induction false} ReplayIsGrounded(space: SearchSpace, cm: CostModel, log: Calls)
    requires space.Valid() && cm.Monotone() && WellOrdered(space, log)
    ensures Grounded(space, cm, log, Replay(cm, space.NumSources(), log))
  {
    hide WellOrdered, Settled, Established, IsJoin, CostModel.Monotone;
    var n := space.NumSources();
    var e := Replay(cm, n, log);
    if log == [] {
      forall s | s in e ensures IsScan(space, cm, e, s) {
        var i: nat :| i < n && s == {i};
        InitialEntry(cm, n, i);
      }
    } else {
      var k := |log| - 1;
      var (l, r) := log[k];
      WellOrderedPrefix(space, log, k);
      WellOrderedLast(space, log);
      ReplayIsGrounded(space, cm, log[..k]);
      ReplayEstablishes(space, cm, log[..k]);
      OperandsPlanned(space, cm, log, k);
      GroundedStep(space, cm, log[..k], Replay(cm, n, log[..k]), l, r);
      assert log == log[..k] + [(l, r)];
    }
  }

  lemma InitialEntry(cm: CostModel, n: nat, i: nat)
    requires i < n
    ensures {i} in Initial(cm, n) && Initial(cm, n)[{i}] == Entry({}, {}, cm.scan(i))
  {
    assert forall j: nat :: {j} == {i} ==> j == i by {
      forall j: nat | {j} == {i} ensures j == i { assert j in {i}; }
    }
  }

  lemma OperandsPlanned(space: SearchSpace, cm: CostModel, log: Calls, k: nat)
    requires space.Valid() && cm.Monotone() && WellOrdered(space, log) && k < |log|
    ensures var e := Replay(cm, space.NumSources(), log[..k]); log[k].0 in e && log[k].1 in e
  {
    WellOrderedPrefix(space, log, k);
    CallsAreOptimal(space, cm, log[..k], log[k].0);
    CallsAreOptimal(space, cm, log[..k], log[k].1);
  }

  /** Every entry of a table filled in a good order spells out a join tree of the search space
      whose cost is the cost stored in the entry. */
  lemma TableSpellsTree(space: SearchSpace, cm: CostModel, log: Calls, s: Subproblem) returns (t: JoinTree)
    requires space.Valid() && cm.Monotone() && WellOrdered(space, log)
    requires s in Replay(cm, space.NumSources(), log)
    ensures var e := Replay(cm, space.NumSources(), log);
            space.Admits(t) && Spells(e, s, t) && cm.Cost(t) == e[s].cost
  {
    ReplayIsGrounded(space, cm, log);
    t := GroundedSpellsTree(space, cm, log, Replay(cm, space.NumSources(), log), s);
  }

  lemma {:induction false} GroundedSpellsTree(space: SearchSpace, cm: CostModel, log: Calls, e: Entries, s: Subproblem)
    returns (t: JoinTree)
    requires space.Valid() && Grounded(space, cm, log, e) && s in e
    ensures space.Admits(t) && Spells(e, s, t) && cm.Cost(t) == e[s].cost
    decreases |s|
  {
    hide Settled, SearchSpace.HasTree;
    if IsScan(space, cm, e, s) {
      var i: nat :| i < space.NumSources() && s == {i} && e[s] == Entry({}, {}, cm.scan(i));
      t := Leaf(i);
    } else {
      var l, r := e[s].left, e[s].right;
      PairFacts(space, l, r);
      var a := GroundedSpellsTree(space, cm, log, e, l);
      var b := GroundedSpellsTree(space, cm, log, e, r);
      t := Join(a, b);
    }
  }

  // ------------------------------------------------------------------- tables filled in any order

  /** Every call joins disjoint subproblems. */
  ghost predicate DisjointCalls(log: Calls) {
    forall c :: c in log ==> c.0 !! c.1
  }

  /** Every call joins two planned subproblems, and their union has no plan yet. */
  ghost predicate EachIsNew(cm: CostModel, n: nat, log: Calls) {
    forall k :: 0 <= k < |log| ==> CallIsNew(Replay(cm, n, log[..k]), log[k])
  }

  ghost predicate CallIsNew(e: Entries, c: (Subproblem, Subproblem)) {
    c.0 in e && c.1 in e && c.0 + c.1 !in e
  }

  lemma OneMoreNew(cm: CostModel, n: nat, log: Calls, c: (Subproblem, Subproblem))
    requires EachIsNew(cm, n, log) && CallIsNew(Replay(cm, n, log), c)
    ensures EachIsNew(cm, n, log + [c])
  {
    var longer := log + [c];
    hide Replay, CallIsNew;
    forall k | 0 <= k < |longer| ensures CallIsNew(Replay(cm, n, longer[..k]), longer[k]) {
      if k < |log| {
        assert longer[..k] == log[..k];
      } else {
        assert longer[..k] == log;
      }
    }
  }

  lemma OneMoreCall(cm: CostModel, n: nat, log: Calls, c: (Subproblem, Subproblem))
    requires EachIsNew(cm, n, log) && DisjointCalls(log) && c.0 !! c.1
    requires c.0 in Replay(cm, n, log) && c.1 in Replay(cm, n, log) && c.0 + c.1 !in Replay(cm, n, log)
    ensures EachIsNew(cm, n, log + [c]) && DisjointCalls(log + [c])
  {
    hide Replay;
    assert CallIsNew(Replay(cm, n, log), c);
    OneMoreNew(cm, n, log, c);
    hide EachIsNew;
  }

  lemma OnlyPairsIsDisjoint(space: SearchSpace, log: Calls)
    requires OnlyPairs(space, log)
    ensures DisjointCalls(log)
  {
    hide SearchSpace.HasTree;
    forall c | c in log ensures c.0 !! c.1 {
      assert Pair(space, c.0, c.1);
    }
  }

  ghost predicate LeafEntry(cm: CostModel, n: nat, e: Entries, s: Subproblem)
    requires s in e
  {
    exists i: nat :: i < n && s == {i} && e[s] == Entry({}, {}, cm.scan(i))
  }

  /** The operands of an entry are disjoint and have plans.  These may have become cheaper since,
      unless no entry is ever replaced. */
  ghost predicate NodeEntry(cm: CostModel, e: Entries, s: Subproblem, final: bool)
    requires s in e
  {
    var (l, r) := (e[s].left, e[s].right);
    && l in e && r in e && l != {} && r != {} && l !! r && l + r == s
    && (cm.Monotone() ==> cm.join(l, r, e[l].cost, e[r].cost) <= e[s].cost)
    && (final ==> cm.join(l, r, e[l].cost, e[r].cost) == e[s].cost)
  }

  ghost predicate Consistent(cm: CostModel, n: nat, e: Entries, final: bool) {
    forall s :: s in e ==> LeafEntry(cm, n, e, s) || NodeEntry(cm, e, s, final)
  }

  lemma ConsistentStep(cm: CostModel, n: nat, e: Entries, l: Subproblem, r: Subproblem, final: bool)
    requires Consistent(cm, n, e, final) && l in e && r in e && l !! r && (final ==> l + r !in e)
    ensures Consistent(cm, n, Updated(cm, e, l, r), final)
  {
    var e' := Updated(cm, e, l, r);
    PlannedIsNotEmpty(cm, n, e, l, final);
    PlannedIsNotEmpty(cm, n, e, r, final);
    hide Consistent, CostModel.Monotone;
    forall s | s in e' ensures LeafEntry(cm, n, e', s) || NodeEntry(cm, e', s, final) {
      if s in e && e'[s] == e[s] {
        EntryStays(cm, n, e, l, r, s, final);
      } else {
        assert NodeEntry(cm, e', s, final) by {
          hide LeafEntry;
          NewNodeEntry(cm, e, l, r, final);
        }
      }
    }
    ConsistentFrom(cm, n, e', final);
  }

  lemma ConsistentFrom(cm: CostModel, n: nat, e: Entries, final: bool)
    requires forall s :: s in e ==> LeafEntry(cm, n, e, s) || NodeEntry(cm, e, s, final)
    ensures Consistent(cm, n, e, final)
  {}

  lemma PlannedIsNotEmpty(cm: CostModel, n: nat, e: Entries, s: Subproblem, final: bool)
    requires Consistent(cm, n, e, final) && s in e
    ensures s != {}
  {
    hide CostModel.Monotone;
  }

  lemma EntryStays(cm: CostModel, n: nat, e: Entries, l: Subproblem, r: Subproblem, s: Subproblem, final: bool)
    requires Consistent(cm, n, e, final) && l in e && r in e && (final ==> l + r !in e)
    requires s in e && s in Updated(cm, e, l, r) && Updated(cm, e, l, r)[s] == e[s]
    ensures LeafEntry(cm, n, Updated(cm, e, l, r), s) || NodeEntry(cm, Updated(cm, e, l, r), s, final)
  {
    var e' := Updated(cm, e, l, r);
    assert forall x :: x in e ==> x in e' && e'[x].cost <= e[x].cost && (final ==> e'[x] == e[x]);
    hide Updated, Consistent;
    assert LeafEntry(cm, n, e, s) || NodeEntry(cm, e, s, final) by { EntryOf(cm, n, e, s, final); }
  }

  lemma EntryOf(cm: CostModel, n: nat, e: Entries, s: Subproblem, final: bool)
    requires Consistent(cm, n, e, final) && s in e
    ensures LeafEntry(cm, n, e, s) || NodeEntry(cm, e, s, final)
  {}

  lemma NewNodeEntry(cm: CostModel, e: Entries, l: Subproblem, r: Subproblem, final: bool)
    requires l in e && r in e && l != {} && r != {} && l !! r
    requires l + r !in e || Updated(cm, e, l, r)[l + r] != e[l + r]
    ensures l + r in Updated(cm, e, l, r) && NodeEntry(cm, Updated(cm, e, l, r), l + r, final)
  {
    ProperSides(l, r);
    ReplacedEntry(cm, e, l, r);
    hide Updated, CostModel.Monotone;
  }

  lemma ProperSides(l: Subproblem, r: Subproblem)
    requires l != {} && r != {} && l !! r
    ensures l < l + r && r < l + r && |l| < |l + r| && |r| < |l + r|
  {
    var x, y :| x in l && y in r;
    assert x in l + r && y in l + r && x !in r && y !in l;
    assert |l + r| == |l| + |r|;
  }

  lemma {:induction false} ReplayIsConsistent(cm: CostModel, n: nat, log: Calls, final: bool)
    requires DisjointCalls(log) && (final ==> EachIsNew(cm, n, log))
    ensures Consistent(cm, n, Replay(cm, n, log), final)
  {
    hide CostModel.Monotone;
    if log == [] {
      InitialIsConsistent(cm, n, final);
    } else {
      var k := |log| - 1;
      var before := log[..k];
      var (l, r) := log[k];
      assert log[k] in log && forall i :: 0 <= i < k ==> before[..i] == log[..i];
      ReplayIsConsistent(cm, n, before, final);
      var e := Replay(cm, n, before);
      hide Consistent, Updated;
      if l in e && r in e {
        ConsistentStep(cm, n, e, l, r, final);
      }
    }
  }

  lemma InitialIsConsistent(cm: CostModel, n: nat, final: bool)
    ensures Consistent(cm, n, Initial(cm, n), final)
  {
    forall s | s in Initial(cm, n) ensures LeafEntry(cm, n, Initial(cm, n), s) {
      var i: nat :| i < n && s == {i};
      InitialEntry(cm, n, i);
    }
  }

  /** The entry spells out a join tree over its relations, which is not dearer than the entry says;
      and exactly as dear if no entry was ever replaced. */
  ghost predicate Spelled(cm: CostModel, n: nat, e: Entries, s: Subproblem, final: bool)
    requires s in e
  {
    exists t :: SpelledBy(cm, n, e, s, final, t)
  }

  ghost predicate SpelledBy(cm: CostModel, n: nat, e: Entries, s: Subproblem, final: bool, t: JoinTree)
    requires s in e
  {
    && AllJoins(n).Admits(t) && Spells(e, s, t)
    && (cm.Monotone() ==> cm.Cost(t) <= e[s].cost)
    && (final ==> cm.Cost(t) == e[s].cost)
  }

  /** Every entry is spelled out by a tree, whatever the order of the calls. */
  lemma AnyTableSpellsTrees(cm: CostModel, n: nat, log: Calls, final: bool)
    requires DisjointCalls(log) && (final ==> EachIsNew(cm, n, log))
    ensures forall s :: s in Replay(cm, n, log) ==> Spelled(cm, n, Replay(cm, n, log), s, final)
  {
    hide *;
    ReplayIsConsistent(cm, n, log, final);
    forall s | s in Replay(cm, n, log) ensures Spelled(cm, n, Replay(cm, n, log), s, final) {
      var t := ConsistentSpellsTree(cm, n, Replay(cm, n, log), s, final);
      SpelledFrom(cm, n, Replay(cm, n, log), s, final, t);
    }
  }

  lemma SpelledFrom(cm: CostModel, n: nat, e: Entries, s: Subproblem, final: bool, t: JoinTree)
    requires s in e && SpelledBy(cm, n, e, s, final, t)
    ensures Spelled(cm, n, e, s, final)
  {
    hide SpelledBy;
  }

  lemma {:induction false} ConsistentSpellsTree(cm: CostModel, n: nat, e: Entries, s: Subproblem, final: bool)
    returns (t: JoinTree)
    requires Consistent(cm, n, e, final) && s in e
    ensures SpelledBy(cm, n, e, s, final, t)
    decreases |s|
  {
    EntryOf(cm, n, e, s, final);
    hide *;
    if LeafEntry(cm, n, e, s) {
      t := LeafSpells(cm, n, e, s, final);
    } else {
      NodeOperands(cm, e, s, final);
      var a := ConsistentSpellsTree(cm, n, e, e[s].left, final);
      var b := ConsistentSpellsTree(cm, n, e, e[s].right, final);
      t := Join(a, b);
      NodeSpells(cm, n, e, s, final, a, b);
    }
  }

  lemma LeafSpells(cm: CostModel, n: nat, e: Entries, s: Subproblem, final: bool) returns (t: JoinTree)
    requires s in e && LeafEntry(cm, n, e, s)
    ensures SpelledBy(cm, n, e, s, final, t)
  {
    var i: nat :| i < n && s == {i} && e[s] == Entry({}, {}, cm.scan(i));
    t := Leaf(i);
  }

  lemma NodeOperands(cm: CostModel, e: Entries, s: Subproblem, final: bool)
    requires s in e && NodeEntry(cm, e, s, final)
    ensures var (l, r) := (e[s].left, e[s].right); l in e && r in e && |l| < |s| && |r| < |s|
  {
    ProperSides(e[s].left, e[s].right);
  }

  lemma NodeSpells(cm: CostModel, n: nat, e: Entries, s: Subproblem, final: bool, a: JoinTree, b: JoinTree)
    requires s in e && NodeEntry(cm, e, s, final)
    requires SpelledBy(cm, n, e, e[s].left, final, a) && SpelledBy(cm, n, e, e[s].right, final, b)
    ensures SpelledBy(cm, n, e, s, final, Join(a, b))
  {
    var l, r := e[s].left, e[s].right;
    assert cm.Monotone() ==> cm.join(l, r, cm.Cost(a), cm.Cost(b)) <= cm.join(l, r, e[l].cost, e[r].cost);
  }

  /** The same for a table in use. */
  lemma TableIsSpelled(pt: PlanTable)
    requires pt.Valid() && EachIsNew(pt.model, pt.n, pt.log) && DisjointCalls(pt.log)
    ensures forall s :: s in pt.entries ==> Spelled(pt.model, pt.n, pt.entries, s, true)
  {
    AnyTableSpellsTrees(pt.model, pt.n, pt.log, true);
    hide Spelled, EachIsNew, DisjointCalls, Replay;
  }
}
