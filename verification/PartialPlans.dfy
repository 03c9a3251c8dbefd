/** What the enumerated partial plans are: exactly the partitions of the relations into subtrees
    of the final plan, each once. */
module PartialPlans {
  import opened SmallBitset
  import opened PlanTables
  import opened TableTrees
  import opened PartialPlanGenerator

  /** The relation sets of all subtrees. */
  function Subtrees(t: JoinTree): set<Subproblem> {
    match t
    case Leaf(_) => {t.Rels()}
    case Join(l, r) => {t.Rels()} + Subtrees(l) + Subtrees(r)
  }

  ghost predicate InForest(f: Forest, r: nat) {
    exists c :: c in f && r in c.Rels()
  }

  ghost predicate SubtreeOf(f: Forest, x: Subproblem) {
    exists c :: c in f && x in Subtrees(c)
  }

  /** Well-formed trees over disjoint relations. */
  ghost predicate Separate(f: Forest) {
    && AllDisjoint(f)
    && forall i, j :: 0 <= i < j < |f| ==> f[i].Rels() !! f[j].Rels()
  }

  /** `xs` splits the relations of `f` into relation sets of subtrees. */
  ghost predicate Partition(xs: set<Subproblem>, f: Forest) {
    && (forall x :: x in xs ==> SubtreeOf(f, x))
    && PairwiseDisjoint(xs)
    && (forall r: nat :: InForest(f, r) ==> Covered(xs, r))
  }

  ghost predicate PairwiseDisjoint(xs: set<Subproblem>) {
    forall x, y :: x in xs && y in xs && x != y ==> x !! y
  }

  ghost predicate Covered(xs: set<Subproblem>, r: nat) {
    exists x :: x in xs && r in x
  }

  function AsSet(f: Forest): set<Subproblem> {
    set t | t in f :: t.Rels()
  }

  lemma SubtreeWithin(t: JoinTree, x: Subproblem)
    ensures x in Subtrees(t) ==> {} < x <= t.Rels()
  {
    if t.Join? {
      SubtreeWithin(t.left, x);
      SubtreeWithin(t.right, x);
    }
  }

  lemma InAppend(f: Forest, t: JoinTree)
    ensures forall c :: c in f + [t] <==> c in f || c == t
    ensures forall r :: InForest(f + [t], r) <==> InForest(f, r) || r in t.Rels()
    ensures forall x :: SubtreeOf(f + [t], x) <==> SubtreeOf(f, x) || x in Subtrees(t)
  {
    assert t in f + [t] && forall c :: c in f ==> c in f + [t];
  }

  lemma DisjointAppend(f: Forest, t: JoinTree)
    requires Separate(f + [t])
    ensures Separate(f) && Disjoint(t)
    ensures forall r :: InForest(f, r) ==> r !in t.Rels()
    ensures t.Join? ==> Separate(f + [t.left, t.right])
  {
    var g := f + [t];
    forall i | 0 <= i < |f| ensures f[i] == g[i] && f[i].Rels() !! t.Rels() {
      assert g[i].Rels() !! g[|f|].Rels();
    }
    forall r | InForest(f, r) ensures r !in t.Rels() {
      var c :| c in f && r in c.Rels();
      var i :| 0 <= i < |f| && f[i] == c;
    }
    assert g[|f|] == t;
  }

  /** The children of a split tree have the same relations, and all its subtrees but itself. */
  lemma InSplit(f: Forest, t: JoinTree)
    requires t.Join?
    ensures forall r :: InForest(f + [t.left, t.right], r) <==> InForest(f + [t], r)
    ensures forall x :: SubtreeOf(f + [t], x) <==> SubtreeOf(f + [t.left, t.right], x) || x == t.Rels()
    ensures f + [t.left, t.right] == f + [t.left] + [t.right]
  {
    assert f + [t.left, t.right] == f + [t.left] + [t.right];
    InAppend(f, t);
    InAppend(f, t.left);
    InAppend(f + [t.left], t.right);
  }

  /** The whole tree is not among the subtrees left after splitting it. */
  lemma SplitTreeIsGone(f: Forest, t: JoinTree)
    requires t.Join? && Separate(f + [t])
    ensures !SubtreeOf(f + [t.left, t.right], t.Rels())
  {
    DisjointAppend(f, t);
    var x := t.Rels();
    var u, v :| u in t.left.Rels() && v in t.right.Rels();
    forall c | c in f + [t.left, t.right] ensures x !in Subtrees(c) {
      SubtreeWithin(c, x);
      assert u in x && v in x;
      assert c in f && u in c.Rels() ==> InForest(f, u);
    }
  }

  lemma AsSetPrepend(t: JoinTree, f: Forest)
    ensures AsSet([t] + f) == AsSet(f) + {t.Rels()}
  {
    assert forall c :: c in [t] + f <==> c == t || c in f;
  }

  /** The plans for a stack of candidates, by the two choices for the top candidate. */
  lemma PlanCases(f: Forest, t: JoinTree, i: nat)
    requires i < |Plans(f + [t])|
    ensures i < |Plans(f)| ==> Plans(f + [t])[i] == [t] + Plans(f)[i]
    ensures i >= |Plans(f)| ==> t.Join? && i - |Plans(f)| < |Plans(f + [t.left, t.right])|
                                && Plans(f + [t])[i] == Plans(f + [t.left, t.right])[i - |Plans(f)|]
    ensures |Plans(f + [t])| == |Plans(f)| + if t.Join? then |Plans(f + [t.left, t.right])| else 0
  {
    assert (f + [t])[..|f|] == f;
  }

  /** Soundness: every plan is a partition into subtrees. */
  lemma {:induction false} PlansAreSound(f: Forest, i: nat)
    requires Separate(f) && i < |Plans(f)|
    ensures Partition(AsSet(Plans(f)[i]), f)
    decreases SizeOf(f)
  {
    hide *;
    if f == [] {
      OnlyThePlanOfNothing();
    } else {
      var rest, t := f[..|f| - 1], f[|f| - 1];
      assert f == rest + [t];
      PlanCases(rest, t, i);
      DisjointAppend(rest, t);
      SizeOfAppend(rest, t);
      TreeHasSize(t);
      if i < |Plans(rest)| {
        PlansAreSound(rest, i);
        AsSetPrepend(t, Plans(rest)[i]);
        PartitionTaken(AsSet(Plans(rest)[i]), rest, t);
      } else {
        SizeOfSplit(rest, t);
        PlansAreSound(rest + [t.left, t.right], i - |Plans(rest)|);
        PartitionSplit(AsSet(Plans(f)[i]), rest, t);
      }
    }
  }

  lemma PartitionTaken(xs: set<Subproblem>, f: Forest, t: JoinTree)
    requires Separate(f + [t]) && Partition(xs, f)
    ensures Partition(xs + {t.Rels()}, f + [t]) && t.Rels() !in xs
  {
    InAppend(f, t);
    DisjointAppend(f, t);
    TopIsSubtree(t);
    hide Separate, InForest, SubtreeOf, JoinTree.Rels, Disjoint, Subtrees;
    var ys := xs + {t.Rels()};
    forall x | x in xs ensures x !! t.Rels() && x != t.Rels() {
      PieceElsewhere(xs, f, t, x);
    }
    OneMorePiece(xs, t.Rels());
    hide PairwiseDisjoint, Covered;
    assert forall r: nat :: InForest(f + [t], r) ==> Covered(ys, r);
  }

  lemma OneMorePiece(xs: set<Subproblem>, piece: Subproblem)
    requires PairwiseDisjoint(xs) && forall x :: x in xs ==> x !! piece
    ensures PairwiseDisjoint(xs + {piece})
    ensures forall r: nat :: Covered(xs, r) || r in piece ==> Covered(xs + {piece}, r)
  {
    forall r: nat | Covered(xs, r) || r in piece ensures Covered(xs + {piece}, r) {
      assert piece in xs + {piece};
    }
  }

  lemma TopIsSubtree(t: JoinTree)
    ensures t.Rels() in Subtrees(t)
  {}

  lemma PieceElsewhere(xs: set<Subproblem>, f: Forest, t: JoinTree, x: Subproblem)
    requires Partition(xs, f) && x in xs && forall r :: InForest(f, r) ==> r !in t.Rels()
    ensures x !! t.Rels() && x != t.Rels()
  {
    var c :| c in f && x in Subtrees(c);
    SubtreeWithin(c, x);
    forall r | r in x ensures r !in t.Rels() {
      assert InForest(f, r);
    }
  }

  lemma PartitionSplit(xs: set<Subproblem>, f: Forest, t: JoinTree)
    requires t.Join? && Partition(xs, f + [t.left, t.right])
    ensures Partition(xs, f + [t])
  {
    InSplit(f, t);
  }

  /** Completeness: every partition into subtrees is among the plans. */
  lemma {:induction false} PlansAreComplete(f: Forest, xs: set<Subproblem>) returns (i: nat)
    requires Separate(f) && Partition(xs, f)
    ensures i < |Plans(f)| && AsSet(Plans(f)[i]) == xs
    decreases SizeOf(f)
  {
    hide *;
    if f == [] {
      i := 0;
      OnlyThePlanOfNothing();
      NothingToPartition(xs);
    } else {
      var rest, t := f[..|f| - 1], f[|f| - 1];
      assert f == rest + [t];
      DisjointAppend(rest, t);
      SizeOfAppend(rest, t);
      TreeHasSize(t);
      if t.Rels() in xs {
        PartitionWithout(xs, rest, t);
        i := PlansAreComplete(rest, xs - {t.Rels()});
        PlanCount(rest, t);
        PlanCases(rest, t, i);
        AsSetPrepend(t, Plans(rest)[i]);
      } else {
        PartitionBelow(xs, rest, t);
        SizeOfSplit(rest, t);
        var k := PlansAreComplete(rest + [t.left, t.right], xs);
        PlanCount(rest, t);
        i := |Plans(rest)| + k;
        PlanCases(rest, t, i);
      }
    }
  }

  lemma PlanCount(f: Forest, t: JoinTree)
    ensures |Plans(f + [t])| == |Plans(f)| + if t.Join? then |Plans(f + [t.left, t.right])| else 0
  {
    assert (f + [t])[..|f|] == f;
  }

  lemma NothingToPartition(xs: set<Subproblem>)
    requires Partition(xs, [])
    ensures xs == {}
  {
    assert forall x :: x in xs ==> SubtreeOf([], x);
  }

  lemma PartitionWithout(xs: set<Subproblem>, f: Forest, t: JoinTree)
    requires Separate(f + [t]) && Partition(xs, f + [t]) && t.Rels() in xs
    ensures Partition(xs - {t.Rels()}, f)
  {
    InAppend(f, t);
    DisjointAppend(f, t);
    hide Separate, InForest, SubtreeOf, JoinTree.Rels, Disjoint, Subtrees;
    forall x | x in xs - {t.Rels()} ensures SubtreeOf(f, x) {
      assert x !! t.Rels();
      SubtreeWithin(t, x);
    }
    forall r: nat | InForest(f, r) ensures Covered(xs - {t.Rels()}, r) {
      CoveredElsewhere(xs, t.Rels(), r);
    }
  }

  lemma CoveredElsewhere(xs: set<Subproblem>, piece: Subproblem, r: nat)
    requires Covered(xs, r) && r !in piece
    ensures Covered(xs - {piece}, r)
  {
    var x :| x in xs && r in x;
    assert x in xs - {piece};
  }

  lemma PartitionBelow(xs: set<Subproblem>, f: Forest, t: JoinTree)
    requires Separate(f + [t]) && Partition(xs, f + [t]) && t.Rels() !in xs
    ensures t.Join? && Partition(xs, f + [t.left, t.right])
  {
    InAppend(f, t);
    DisjointAppend(f, t);
    var r :| r in t.Rels();
    assert InForest(f + [t], r);
    var x :| x in xs && r in x;
    forall c | c in f ensures x !in Subtrees(c) {
      SubtreeWithin(c, x);
      assert r in c.Rels() ==> InForest(f, r);
    }
    InSplit(f, t);
  }

  /** No plan is produced twice: different positions hold different partitions. */
  lemma {:induction false} PlansAreDistinct(f: Forest, i: nat, j: nat)
    requires Separate(f) && i < j < |Plans(f)|
    ensures AsSet(Plans(f)[i]) != AsSet(Plans(f)[j])
    decreases SizeOf(f)
  {
    hide *;
    if f == [] {
      OnlyThePlanOfNothing();
    } else {
      var rest, t := f[..|f| - 1], f[|f| - 1];
      assert f == rest + [t];
      DisjointAppend(rest, t);
      PlanCases(rest, t, i);
      PlanCases(rest, t, j);
      SizeOfAppend(rest, t);
      TreeHasSize(t);
      var split := |Plans(rest)|;
      if j < split {
        PlansAreDistinct(rest, i, j);
        BothTaken(rest, t, i, j);
      } else if i >= split {
        SizeOfSplit(rest, t);
        PlansAreDistinct(rest + [t.left, t.right], i - split, j - split);
      } else {
        OneTaken(rest, t, i, j - split);
      }
    }
  }

  lemma OnlyThePlanOfNothing()
    ensures |Plans([])| == 1 && AsSet(Plans([])[0]) == {} && Partition({}, [])
  {}

  lemma BothTaken(f: Forest, t: JoinTree, i: nat, j: nat)
    requires Separate(f + [t]) && i < |Plans(f)| && j < |Plans(f)| && AsSet(Plans(f)[i]) != AsSet(Plans(f)[j])
    ensures AsSet([t] + Plans(f)[i]) != AsSet([t] + Plans(f)[j])
  {
    AsSetPrepend(t, Plans(f)[i]);
    AsSetPrepend(t, Plans(f)[j]);
    TakenIsNew(f, t, i);
    TakenIsNew(f, t, j);
    hide *;
    StillDifferent(AsSet(Plans(f)[i]), AsSet(Plans(f)[j]), t.Rels());
  }

  lemma OneTaken(f: Forest, t: JoinTree, i: nat, j: nat)
    requires t.Join? && Separate(f + [t]) && i < |Plans(f)| && j < |Plans(f + [t.left, t.right])|
    ensures AsSet([t] + Plans(f)[i]) != AsSet(Plans(f + [t.left, t.right])[j])
  {
    AsSetPrepend(t, Plans(f)[i]);
    DisjointAppend(f, t);
    PlansAreSound(f + [t.left, t.right], j);
    hide *;
    GoneFromPlans(AsSet(Plans(f + [t.left, t.right])[j]), f, t);
  }

  lemma StillDifferent(x: set<Subproblem>, y: set<Subproblem>, r: Subproblem)
    requires x != y && r !in x && r !in y
    ensures x + {r} != y + {r}
  {
    assert x == (x + {r}) - {r} && y == (y + {r}) - {r};
  }

  lemma GoneFromPlans(xs: set<Subproblem>, f: Forest, t: JoinTree)
    requires t.Join? && Separate(f + [t]) && Partition(xs, f + [t.left, t.right])
    ensures t.Rels() !in xs
  {
    SplitTreeIsGone(f, t);
  }

  lemma TakenIsNew(f: Forest, t: JoinTree, i: nat)
    requires Separate(f + [t]) && i < |Plans(f)|
    ensures t.Rels() !in AsSet(Plans(f)[i])
  {
    DisjointAppend(f, t);
    PlansAreSound(f, i);
    PartitionTaken(AsSet(Plans(f)[i]), f, t);
  }

  /** The number of plans: one for a relation, and one more than the product for a join. */
  function NumPlans(t: JoinTree): nat {
    match t
    case Leaf(_) => 1
    case Join(l, r) => 1 + NumPlans(l) * NumPlans(r)
  }

  function Product(f: Forest): nat {
    if f == [] then 1 else Product(f[..|f| - 1]) * NumPlans(f[|f| - 1])
  }

  lemma ProductAppend(f: Forest, t: JoinTree)
    ensures Product(f + [t]) == Product(f) * NumPlans(t)
  {
    assert (f + [t])[..|f|] == f;
  }

  lemma {:induction false} PlansCounted(f: Forest)
    ensures |Plans(f)| == Product(f)
    decreases SizeOf(f)
  {
    if f != [] {
      var rest, t := f[..|f| - 1], f[|f| - 1];
      assert f == rest + [t];
      SizeOfAppend(rest, t);
      TreeHasSize(t);
      PlansCounted(rest);
      PlanCount(rest, t);
      ProductAppend(rest, t);
      if t.Join? {
        SizeOfSplit(rest, t);
        PlansCounted(rest + [t.left, t.right]);
        ProductAppend(rest, t.left);
        ProductAppend(rest + [t.left], t.right);
        assert rest + [t.left, t.right] == rest + [t.left] + [t.right];
        Distribute(Product(rest), NumPlans(t.left), NumPlans(t.right));
      }
    }
  }

  lemma Distribute(p: nat, a: nat, b: nat)
    ensures p + p * a * b == p * (1 + a * b)
  {}

  lemma RootsAsSet(f: Forest)
    ensures (set x | x in Roots(f)) == AsSet(f)
  {
    forall x | x in AsSet(f) ensures x in Roots(f) {
      var t :| t in f && x == t.Rels();
      var i :| 0 <= i < |f| && f[i] == t;
      assert Roots(f)[i] == x;
    }
  }

  /** The result of the enumeration of a final plan `t`: as many callbacks as `NumPlans` says, each a
      partition of all relations into subtrees of `t`, no two alike, and none missing. */
  lemma CallbacksAreExactlyThePartialPlans(t: JoinTree)
    requires Disjoint(t)
    ensures var calls := MapRoots(Plans([t]));
            && |calls| == NumPlans(t)
            && (forall i :: 0 <= i < |calls| ==> Partition(set x | x in calls[i], [t]))
            && (forall i, j :: 0 <= i < j < |calls| ==> (set x | x in calls[i]) != (set x | x in calls[j]))
            && (forall xs: set<Subproblem> :: Partition(xs, [t]) ==>
                  exists i :: 0 <= i < |calls| && (set x | x in calls[i]) == xs)
  {
    hide Partition, Plans, AsSet, NumPlans, Disjoint;
    var calls := MapRoots(Plans([t]));
    PlansCounted([t]);
    ProductAppend([], t);
    assert [] + [t] == [t];
    forall i | 0 <= i < |calls|
      ensures (set x | x in calls[i]) == AsSet(Plans([t])[i]) && Partition(set x | x in calls[i], [t])
    {
      RootsAsSet(Plans([t])[i]);
      PlansAreSound([t], i);
    }
    forall i, j | 0 <= i < j < |calls| ensures (set x | x in calls[i]) != (set x | x in calls[j]) {
      PlansAreDistinct([t], i, j);
    }
    forall xs: set<Subproblem> | Partition(xs, [t])
      ensures exists i :: 0 <= i < |calls| && (set x | x in calls[i]) == xs
    {
      var i := PlansAreComplete([t], xs);
      assert (set x | x in calls[i]) == AsSet(Plans([t])[i]);
    }
  }
}
