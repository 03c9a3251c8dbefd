/** The enumerator `LinearizedDP`: dynamic programming over the intervals of a linearization,
    with a window that moves to and fro and grows at the ends. */
module LinearizedDP {
  import opened SmallBitset
  import opened AdjacencyMatrix
  import opened PlanTables
  import opened EnumerationFacts
  import opened SpanningForest
  import opened IKKBZ

  function Window(order: seq<nat>, i: nat, j: nat): Subproblem
    requires i <= j <= |order|
  {
    Elements(order[i..j])
  }

  lemma WindowMembers(order: seq<nat>, i: nat, j: nat)
    requires i <= j <= |order| && Distinct(order)
    ensures forall x | 0 <= x < |order| :: order[x] in Window(order, i, j) <==> i <= x < j
  {
    forall x | i <= x < j ensures order[x] in Window(order, i, j) {
      assert order[x] == order[i..j][x - i];
    }
  }

  /** The window over the linearization, with its set of relations kept up to date bit by bit. */
  class Sequence {
    const order: seq<nat>
    var first: nat
    var end: nat
    var subproblem: Subproblem

    ghost predicate Valid()
      reads this
    {
      Distinct(order) && first <= end <= |order| && subproblem == Window(order, first, end)
    }

    constructor (order: seq<nat>, first: nat, end: nat)
      requires Distinct(order) && first < end <= |order|
      ensures Valid() && this.order == order && this.first == first && this.end == end
    {
      this.order, this.first, this.end := order, first, end;
      this.subproblem := {};
      new;
      this.subproblem := SubproblemOf(order, first, end);
    }

    /** The relations of an interval of the linearization. */
    static method SubproblemOf(order: seq<nat>, first: nat, end: nat) returns (s: Subproblem)
      requires first < end <= |order|
      ensures s == Window(order, first, end)
    {
      s := {};
      var i := first;
      while i != end
        invariant first <= i <= end && s == Window(order, first, i)
        decreases end - i
      {
        assert order[first..i + 1] == order[first..i] + [order[i]];
        s := s + {order[i]};
        i := i + 1;
      }
    }

    method ExtendAtFront()
      requires Valid() && first > 0
      modifies this
      ensures Valid() && first == old(first) - 1 && end == old(end)
    {
      assert order[first - 1..end] == [order[first - 1]] + order[first..end];
      first := first - 1;
      subproblem := subproblem + {order[first]};
    }

    method ExtendAtBack()
      requires Valid() && end < |order|
      modifies this
      ensures Valid() && first == old(first) && end == old(end) + 1
    {
      assert order[first..end + 1] == order[first..end] + [order[end]];
      end := end + 1;
      subproblem := subproblem + {order[end - 1]};
    }

    method ShrinkAtFront()
      requires Valid() && first < end
      modifies this
      ensures Valid() && first == old(first) + 1 && end == old(end)
    {
      assert order[first..end] == [order[first]] + order[first + 1..end];
      subproblem := subproblem - {order[first]};
      first := first + 1;
    }

    method ShrinkAtBack()
      requires Valid() && first < end
      modifies this
      ensures Valid() && first == old(first) && end == old(end) - 1
    {
      assert order[first..end] == order[first..end - 1] + [order[end - 1]];
      subproblem := subproblem - {order[end - 1]};
      end := end - 1;
    }
  }

  type Windows = seq<(nat, nat)>

  function Length(w: (nat, nat)): int {
    w.1 - w.0
  }

  /** The windows visited before the window `first..end`: the shorter ones, and those of the same
      length on the side it comes from. */
  ghost predicate Visited(n: nat, first: nat, end: nat, movesRight: bool, w: (nat, nat)) {
    && w.0 + 2 <= w.1 <= n
    && (Length(w) < end - first
        || (Length(w) == end - first && if movesRight then w.0 < first else w.0 > first))
  }

  ghost predicate VisitedOnce(n: nat, first: nat, end: nat, movesRight: bool, windows: Windows) {
    && (forall w :: w in windows <==> Visited(n, first, end, movesRight, w))
    && (forall i, j :: 0 <= i < j < |windows| ==>
          windows[i] != windows[j] && Length(windows[i]) <= Length(windows[j]))
  }

  /** Appending the current window and moving on. */
  lemma VisitStep(n: nat, first: nat, end: nat, movesRight: bool, windows: Windows)
    requires first + 2 <= end <= n && VisitedOnce(n, first, end, movesRight, windows)
    ensures forall w :: w in windows + [(first, end)] <==> Visited(n, first, end, movesRight, w) || w == (first, end)
    ensures forall i, j :: 0 <= i < j < |windows + [(first, end)]| ==>
              var ws := windows + [(first, end)]; ws[i] != ws[j] && Length(ws[i]) <= Length(ws[j])
  {
    forall i | 0 <= i < |windows| ensures Visited(n, first, end, movesRight, windows[i]) {
      assert windows[i] in windows;
    }
  }

  // ---------------------------------------------------------------------- splits of a window

  /** All splits of the window that join two buildable parts were considered. */
  ghost predicate Considered(space: SearchSpace, log: Calls, order: seq<nat>, i: nat, j: nat)
    requires i <= j <= |order|
  {
    forall k | i < k < j :: Pair(space, Window(order, i, k), Window(order, k, j))
                            ==> (Window(order, i, k), Window(order, k, j)) in log
  }

  /** Two disjoint intervals whose union is an interval are neighbors. */
  lemma IntervalSplit(order: seq<nat>, a: Subproblem, b: Subproblem, i: nat, j: nat) returns (k: nat)
    requires Distinct(order) && i < j <= |order| && IsInterval(order, a) && IsInterval(order, b)
    requires a !! b && a + b == Window(order, i, j)
    ensures i < k < j
    ensures (a == Window(order, i, k) && b == Window(order, k, j))
            || (b == Window(order, i, k) && a == Window(order, k, j))
  {
    var p, q :| 0 <= p < q <= |order| && a == Elements(order[p..q]);
    var r, s :| 0 <= r < s <= |order| && b == Elements(order[r..s]);
    WindowMembers(order, i, j);
    WindowMembers(order, p, q);
    WindowMembers(order, r, s);
    assert a == Window(order, p, q) && b == Window(order, r, s);
    assert order[i] in a + b && order[p] in a + b && order[r] in a + b;
    assert order[q - 1] in a + b && order[s - 1] in a + b;
    if p == i {
      k := q;
      SplitAfterFirst(order, i, j, q, r, s);
    } else {
      k := s;
      assert r == i;
      assert b + a == a + b;
      SplitAfterFirst(order, i, j, s, p, q);
    }
  }

  lemma SplitAfterFirst(order: seq<nat>, i: nat, j: nat, q: nat, r: nat, s: nat)
    requires Distinct(order) && i < q <= j <= |order| && i <= r < s <= j
    requires Window(order, i, q) !! Window(order, r, s)
    requires Window(order, i, q) + Window(order, r, s) == Window(order, i, j)
    ensures q == r && s == j
  {
    WindowMembers(order, i, j);
    WindowMembers(order, i, q);
    WindowMembers(order, r, s);
    assert order[r] in Window(order, r, s);
    assert order[j - 1] in Window(order, i, j);
    if q < j {
      assert order[q] in Window(order, i, j);
    }
  }

  lemma ContiguousIsConnected(m: Matrix, order: seq<nat>, t: JoinTree)
    requires Contiguous(m, order).Admits(t)
    ensures NoCrossProducts(m).Admits(t)
  {}

  /** A window that is not connected has no split into buildable, joinable parts. */
  lemma UnconnectedWindow(m: Matrix, order: seq<nat>, log: Calls, i: nat, j: nat)
    requires m.Valid() && i <= j <= |order| && !m.Connected(Window(order, i, j))
    ensures Considered(Contiguous(m, order), log, order, i, j)
  {
    hide Window, Pair, Matrix.Connected;
    forall k | i < k < j
      ensures Pair(Contiguous(m, order), Window(order, i, k), Window(order, k, j)) ==> m.Connected(Window(order, i, j))
    {
      if Pair(Contiguous(m, order), Window(order, i, k), Window(order, k, j)) {
        SplitWindowConnected(m, order, i, k, j);
      }
    }
  }

  lemma SplitWindowConnected(m: Matrix, order: seq<nat>, i: nat, k: nat, j: nat)
    requires m.Valid() && i <= k <= j <= |order|
    requires Pair(Contiguous(m, order), Window(order, i, k), Window(order, k, j))
    ensures m.Connected(Window(order, i, j))
  {
    WindowUnion(order, i, k, j);
    PairIsConnected(m, order, Window(order, i, k), Window(order, k, j));
  }

  lemma WindowUnion(order: seq<nat>, i: nat, k: nat, j: nat)
    requires i <= k <= j <= |order|
    ensures Window(order, i, k) + Window(order, k, j) == Window(order, i, j)
  {
    assert order[i..j] == order[i..k] + order[k..j];
  }

  lemma PairIsConnected(m: Matrix, order: seq<nat>, a: Subproblem, b: Subproblem)
    requires m.Valid() && Pair(Contiguous(m, order), a, b)
    ensures m.Connected(a + b)
  {
    PairFacts(Contiguous(m, order), a, b);
    hide Pair, IsInterval;
    var t :| Contiguous(m, order).Admits(t) && t.Rels() == a + b;
    ContiguousIsConnected(m, order, t);
    TreeIsConnected(m, t);
  }

  /** With all splits of a window considered, the window is settled. */
  lemma ConsideredIsSettled(m: Matrix, order: seq<nat>, log: Calls, i: nat, j: nat)
    requires m.Valid() && Distinct(order) && i < j <= |order|
    requires Considered(Contiguous(m, order), log, order, i, j)
    ensures Settled(Contiguous(m, order), log, Window(order, i, j))
  {
    var space := Contiguous(m, order);
    forall a, b | a + b == Window(order, i, j) && Pair(space, a, b) ensures PairIn(log, a, b) {
      PairFacts(space, a, b);
      var k := IntervalSplit(order, a, b, i, j);
      assert Pair(space, Window(order, i, k), Window(order, k, j));
    }
  }

  /** The invariant of the outer loop: the calls are well ordered and cover the visited windows. */
  ghost predicate Progress(m: Matrix, order: seq<nat>, log: Calls, first: nat, end: nat, movesRight: bool) {
    && WellOrdered(Contiguous(m, order), log)
    && forall w: (nat, nat) :: Visited(|order|, first, end, movesRight, w) ==>
         Considered(Contiguous(m, order), log, order, w.0, w.1)
  }

  lemma ShorterIsSettled(m: Matrix, order: seq<nat>, log: Calls, first: nat, end: nat, movesRight: bool, i: nat, j: nat)
    requires m.Valid() && Distinct(order) && Progress(m, order, log, first, end, movesRight)
    requires first <= end <= |order| && i < j <= |order| && j - i < end - first
    ensures Settled(Contiguous(m, order), log, Window(order, i, j))
  {
    if j == i + 1 {
      assert Considered(Contiguous(m, order), log, order, i, j);
    } else {
      assert Visited(|order|, first, end, movesRight, (i, j));
    }
    ConsideredIsSettled(m, order, log, i, j);
  }

  lemma ConsideredExtends(space: SearchSpace, log: Calls, later: Calls, order: seq<nat>, i: nat, j: nat)
    requires i <= j <= |order| && Considered(space, log, order, i, j) && log <= later
    ensures Considered(space, later, order, i, j)
  {
    assert forall p :: p in log ==> p in later;
  }

  lemma ProgressExtends(m: Matrix, order: seq<nat>, log: Calls, later: Calls, first: nat, end: nat, movesRight: bool)
    requires Progress(m, order, log, first, end, movesRight) && log <= later
    requires WellOrdered(Contiguous(m, order), later)
    ensures Progress(m, order, later, first, end, movesRight)
  {
    forall w: (nat, nat) | Visited(|order|, first, end, movesRight, w)
      ensures Considered(Contiguous(m, order), later, order, w.0, w.1)
    {
      ConsideredExtends(Contiguous(m, order), log, later, order, w.0, w.1);
    }
  }

  /** The tests of the inner loop pick exactly the pairs among the dissections of a connected
      window. */
  lemma DissectionIsPair(m: Matrix, order: seq<nat>, cm: CostModel, log: Calls, first: nat, mid: nat, end: nat,
                         movesRight: bool)
    requires m.Valid() && cm.Monotone() && Linearization(m, order) && first < mid < end <= |order|
    requires Progress(m, order, log, first, end, movesRight) && m.Connected(Window(order, first, end))
    ensures var l, r := Window(order, first, mid), Window(order, mid, end);
            var e := Replay(cm, |m.rows|, log);
            && ((|l| == 1 || l in e) && (|r| == 1 || r in e) <==> Pair(Contiguous(m, order), l, r))
            && (Pair(Contiguous(m, order), l, r) ==> l in e && r in e)
    ensures Window(order, first, end) - Window(order, first, mid) == Window(order, mid, end)
  {
    var space := Contiguous(m, order);
    var l, r := Window(order, first, mid), Window(order, mid, end);
    DissectionFacts(order, first, mid, end);
    ShorterIsSettled(m, order, log, first, end, movesRight, first, mid);
    ShorterIsSettled(m, order, log, first, end, movesRight, mid, end);
    m.ConnectedHasNoEmptyCut(Window(order, first, end), l);
    WindowWithin(m, order, first, mid);
    WindowWithin(m, order, mid, end);
    hide Window, Settled, Visited, Linearization, Elements;
    HasPlanMeansTree(space, cm, log, l);
    HasPlanMeansTree(space, cm, log, r);
    DissectionJoinable(m, order, first, mid, end);
  }

  lemma DissectionFacts(order: seq<nat>, first: nat, mid: nat, end: nat)
    requires Distinct(order) && first < mid < end <= |order|
    ensures var l, r := Window(order, first, mid), Window(order, mid, end);
            l !! r && l != {} && r != {} && l + r == Window(order, first, end) && l < Window(order, first, end)
            && Window(order, first, end) - l == r
  {
    WindowMembers(order, first, mid);
    WindowMembers(order, mid, end);
    assert order[first..end] == order[first..mid] + order[mid..end];
    assert order[first] in Window(order, first, mid) && order[mid] in Window(order, mid, end);
  }

  lemma DissectionJoinable(m: Matrix, order: seq<nat>, first: nat, mid: nat, end: nat)
    requires Distinct(order) && first < mid < end <= |order|
    requires m.Adjacent(Window(order, first, mid), Window(order, mid, end))
    ensures Contiguous(m, order).Joinable(Window(order, first, mid), Window(order, mid, end))
  {
    DissectionFacts(order, first, mid, end);
    assert IsInterval(order, Window(order, first, mid));
    assert IsInterval(order, Window(order, mid, end));
    assert IsInterval(order, Window(order, first, end));
  }

  lemma WindowWithin(m: Matrix, order: seq<nat>, i: nat, j: nat)
    requires Linearization(m, order) && i < j <= |order|
    ensures {} < Window(order, i, j) <= m.All()
  {
    assert order[i..j][0] in Window(order, i, j);
    forall x | x in Window(order, i, j) ensures x in m.All() {
      assert x in Elements(order);
    }
  }

  // -------------------------------------------------------------------------- the enumerator

  /** All dissections of the window into two sequences. */
  method Dissect(pt: PlanTable, m: Matrix, order: seq<nat>, window: Sequence, ghost movesRight: bool)
    requires m.Valid() && Linearization(m, order) && pt.n == |m.rows| && pt.Valid() && pt.model.Monotone()
    requires window.Valid() && window.order == order && window.first + 2 <= window.end
    requires Progress(m, order, pt.log, window.first, window.end, movesRight)
    modifies pt
    ensures pt.Valid() && Progress(m, order, pt.log, window.first, window.end, movesRight)
    ensures Considered(Contiguous(m, order), pt.log, order, window.first, window.end)
  {
    hide Progress, Pair, Replay, Linearization, Settled, Window, Matrix.Valid, CostModel.Monotone, Distinct;
    ghost var space := Contiguous(m, order);
    var first, end := window.first, window.end;
    var connected := IsWindowConnected(m, order, window);
    if connected {
      var mid := first + 1;
      while mid < end
        invariant first < mid <= end && pt.Valid()
        invariant Progress(m, order, pt.log, first, end, movesRight)
        invariant ConsideredUpTo(space, pt.log, order, first, end, mid)
      {
        var left := Sequence.SubproblemOf(order, first, mid);
        var right := window.subproblem - left;
        DissectionIsPair(m, order, pt.model, pt.log, first, mid, end, movesRight);
        var isLeftConnected := pt.HasPlan(left);
        var isRightConnected := pt.HasPlan(right);
        if isLeftConnected && isRightConnected {
          TakeDissection(m, order, pt.log, first, mid, end, movesRight);
          pt.Update(left, right);
        } else {
          SkipDissection(space, pt.log, order, first, mid, end);
        }
        mid := mid + 1;
      }
      AllDissections(space, pt.log, order, first, end);
    } else {
      UnconnectedWindow(m, order, pt.log, first, end);
    }
  }

  method IsWindowConnected(m: Matrix, order: seq<nat>, window: Sequence) returns (b: bool)
    requires m.Valid() && Linearization(m, order) && window.Valid() && window.order == order
             && window.first < window.end
    ensures b <==> m.Connected(Window(order, window.first, window.end))
  {
    WindowWithin(m, order, window.first, window.end);
    b := m.IsConnected(window.subproblem);
  }

  ghost predicate ConsideredUpTo(space: SearchSpace, log: Calls, order: seq<nat>, i: nat, j: nat, mid: nat)
    requires i <= j <= |order|
  {
    forall k | i < k < j && k < mid :: Pair(space, Window(order, i, k), Window(order, k, j))
                                       ==> (Window(order, i, k), Window(order, k, j)) in log
  }

  lemma AllDissections(space: SearchSpace, log: Calls, order: seq<nat>, i: nat, j: nat)
    requires i <= j <= |order| && ConsideredUpTo(space, log, order, i, j, j)
    ensures Considered(space, log, order, i, j)
  {}

  lemma SkipDissection(space: SearchSpace, log: Calls, order: seq<nat>, i: nat, mid: nat, j: nat)
    requires i < mid < j <= |order| && ConsideredUpTo(space, log, order, i, j, mid)
    requires !Pair(space, Window(order, i, mid), Window(order, mid, j))
    ensures ConsideredUpTo(space, log, order, i, j, mid + 1)
  {
    hide Pair, Window;
  }

  lemma TakeDissection(m: Matrix, order: seq<nat>, log: Calls, i: nat, mid: nat, j: nat, movesRight: bool)
    requires m.Valid() && Distinct(order) && i < mid < j <= |order| && Progress(m, order, log, i, j, movesRight)
    requires ConsideredUpTo(Contiguous(m, order), log, order, i, j, mid)
    requires Pair(Contiguous(m, order), Window(order, i, mid), Window(order, mid, j))
    ensures var later := log + [(Window(order, i, mid), Window(order, mid, j))];
            Progress(m, order, later, i, j, movesRight)
            && ConsideredUpTo(Contiguous(m, order), later, order, i, j, mid + 1)
  {
    hide Pair, Window, Progress;
    var l, r := Window(order, i, mid), Window(order, mid, j);
    TakeIsWellOrdered(m, order, log, i, mid, j, movesRight);
    ProgressExtends(m, order, log, log + [(l, r)], i, j, movesRight);
    assert forall p :: p in log ==> p in log + [(l, r)];
    assert (l, r) in log + [(l, r)];
  }

  lemma TakeIsWellOrdered(m: Matrix, order: seq<nat>, log: Calls, i: nat, mid: nat, j: nat, movesRight: bool)
    requires m.Valid() && Distinct(order) && i < mid < j <= |order| && Progress(m, order, log, i, j, movesRight)
    requires Pair(Contiguous(m, order), Window(order, i, mid), Window(order, mid, j))
    ensures WellOrdered(Contiguous(m, order), log + [(Window(order, i, mid), Window(order, mid, j))])
  {
    hide Pair, Window, Settled, Considered;
    ShorterIsSettled(m, order, log, i, j, movesRight, i, mid);
    ShorterIsSettled(m, order, log, i, j, movesRight, mid, j);
    WellOrderedAppend(Contiguous(m, order), log, Window(order, i, mid), Window(order, mid, j));
  }

  /** Moving and growing the window visits nothing but the window left behind. */
  lemma NextWindow(m: Matrix, order: seq<nat>, log: Calls, windows: Windows, first: nat, end: nat, movesRight: bool,
                   first': nat, end': nat, movesRight': bool)
    requires first + 2 <= end <= |order| && end - first < |order|
    requires Progress(m, order, log, first, end, movesRight) && VisitedOnce(|order|, first, end, movesRight, windows)
    requires Considered(Contiguous(m, order), log, order, first, end)
    requires (first', end', movesRight') ==
             if movesRight then
               if end == |order| then (first - 1, end, false) else (first + 1, end + 1, true)
             else
               if first == 0 then (first, end + 1, true) else (first - 1, end - 1, false)
    ensures Progress(m, order, log, first', end', movesRight')
    ensures VisitedOnce(|order|, first', end', movesRight', windows + [(first, end)])
  {
    forall w ensures Visited(|order|, first', end', movesRight', w)
                     <==> Visited(|order|, first, end, movesRight, w) || w == (first, end)
    {}
    hide Visited, Considered, WellOrdered;
    VisitStep(|order|, first, end, movesRight, windows);
  }

  /** Join ordering by dynamic programming over the intervals of the cheapest greedy linearization along
      a minimum spanning tree: the plan of the full set is optimal among the trees whose nodes are
      intervals, and no dearer than the linear plan of any linearization that was tried. */
  method LinearizedDP(pt: PlanTable, m: Matrix, selectivity: (nat, nat) -> real, rank: (nat, nat) -> real)
    returns (order: seq<nat>, tried: seq<seq<nat>>, windows: Windows, ghost tree: Matrix)
    requires m.Valid() && (|m.rows| >= 2 ==> m.Connected(m.All()))
             && (forall i :: 0 <= i < |m.rows| ==> i !in m.rows[i])
    requires pt.n == |m.rows| && pt.Valid() && pt.log == [] && pt.model.Monotone()
    modifies pt
    ensures pt.n <= 1 ==> pt.entries == old(pt.entries)
    ensures pt.n >= 2 ==> Linearization(m, order) && order in tried && |tried| == pt.n
    ensures forall r :: 0 <= r < |tried| ==>
              Linearization(m, tried[r]) && tried[r][0] == r && Greedy(tree, rank, tried[r])
    ensures pt.n >= 2 ==> IsSpanningTree(tree, m)
    ensures pt.n >= 2 && Symmetric(selectivity) && Nonnegative(selectivity) ==>
              forall h :: Spans(h, m) ==> TotalWeight(selectivity, tree) <= TotalWeight(selectivity, h)
    ensures pt.n >= 2 ==> Optimal(Contiguous(m, order), pt.model, pt.entries, m.All())
    ensures pt.Valid() && (pt.n >= 2 ==> WellOrdered(Contiguous(m, order), pt.log))
    ensures pt.n >= 2 ==> forall other :: other in tried ==>
              other != [] && pt.entries[m.All()].cost <= LinearCost(pt.model, other, |other|)
    ensures pt.n >= 2 ==> forall w :: w in windows <==> w.0 + 2 <= w.1 <= |order|
    ensures forall i, j :: 0 <= i < j < |windows| ==>
              windows[i] != windows[j] && Length(windows[i]) <= Length(windows[j])
  {
    hide Replay, LinearCost, Initial, Greedy, IsSpanningTree, Linearization, Optimal, Matrix.Valid, Matrix.Reaches,
        WellOrdered, Symmetric, Nonnegative, Spans, TotalWeight;
    order, tried, windows, tree := [], [], [], m;
    if |m.rows| <= 1 {
      return;
    }
    var mst := MinimumSpanningForest(m, selectivity);
    tree := mst;
    order, tried := Linearize(pt, m, mst, rank);
    forall r | 0 <= r < |tried| ensures Linearization(m, tried[r]) && tried[r] != [] {
      AlongTheGraph(m, mst, tried[r]);
    }
    assert |order| == |m.rows| by {
      LinearizationSize(m, order);
    }
    windows := PlanIntervals(pt, m, order);
  }

  lemma LinearizationSize(m: Matrix, order: seq<nat>)
    requires Linearization(m, order)
    ensures |order| == |m.rows|
  {
    ElementsSize(order);
    BelowSize(|m.rows|);
  }

  /** Dynamic programming over the intervals of `order`; `windows` are the intervals visited. */
  method PlanIntervals(pt: PlanTable, m: Matrix, order: seq<nat>) returns (windows: Windows)
    requires m.Valid() && Linearization(m, order) && |order| >= 2
    requires pt.n == |m.rows| && pt.Valid() && pt.log == [] && pt.model.Monotone()
    modifies pt
    ensures Optimal(Contiguous(m, order), pt.model, pt.entries, m.All())
    ensures pt.Valid() && WellOrdered(Contiguous(m, order), pt.log)
    ensures pt.entries[m.All()].cost <= LinearCost(pt.model, order, |order|)
    ensures forall w :: w in windows <==> w.0 + 2 <= w.1 <= |order|
    ensures forall i, j :: 0 <= i < j < |windows| ==>
              windows[i] != windows[j] && Length(windows[i]) <= Length(windows[j])
  {
    hide Progress, Replay, Linearization, Considered, Matrix.Valid, Matrix.Connected, CostModel.Monotone, Visited,
        VisitedOnce, LinearCost, Window, Optimal, WellOrdered;
    LinearizationFacts(m, order);
    var window := new Sequence(order, 0, 2);
    var movesRight := true;
    windows := [];
    StartWindows(m, order);
    while true
      invariant window.Valid() && window.order == order && window.first + 2 <= window.end && pt.Valid() && fresh(window)
      invariant Progress(m, order, pt.log, window.first, window.end, movesRight)
      invariant VisitedOnce(|order|, window.first, window.end, movesRight, windows)
      decreases |order| - (window.end - window.first), if movesRight then |order| - window.end else window.first
    {
      Dissect(pt, m, order, window, movesRight);
      ghost var first, end, wasRight, before := window.first, window.end, movesRight, windows;
      windows := windows + [(window.first, window.end)];
      if window.end - window.first == |order| {
        VisitStep(|order|, first, end, movesRight, before);
        AllWindows(|order|, movesRight, windows, before);
        break;
      }
      if movesRight {
        if window.end == |order| {
          movesRight := false;
          window.ExtendAtFront();
        } else {
          window.ExtendAtBack();
          window.ShrinkAtFront();
        }
      } else {
        if window.first == 0 {
          movesRight := true;
          window.ExtendAtBack();
        } else {
          window.ExtendAtFront();
          window.ShrinkAtBack();
        }
      }
      NextWindow(m, order, pt.log, before, first, end, wasRight, window.first, window.end, movesRight);
    }
    FullWindow(m, order, pt.model, pt.log, movesRight);
    ProgressIsWellOrdered(m, order, pt.log, 0, |order|, movesRight);
  }

  lemma ProgressIsWellOrdered(m: Matrix, order: seq<nat>, log: Calls, first: nat, end: nat, movesRight: bool)
    requires Progress(m, order, log, first, end, movesRight)
    ensures WellOrdered(Contiguous(m, order), log)
  {}

  lemma StartWindows(m: Matrix, order: seq<nat>)
    requires |order| >= 2
    ensures Progress(m, order, [], 0, 2, true) && VisitedOnce(|order|, 0, 2, true, [])
  {}

  lemma AllWindows(n: nat, movesRight: bool, windows: Windows, before: Windows)
    requires n >= 2 && VisitedOnce(n, 0, n, movesRight, before)
    requires windows == before + [(0, n)]
    requires forall w :: w in windows <==> Visited(n, 0, n, movesRight, w) || w == (0, n)
    ensures forall w :: w in windows <==> w.0 + 2 <= w.1 <= n
  {}

  /** The tree of the linear plan in the cheaper order of each join. */
  ghost function LinearTree(cm: CostModel, order: seq<nat>, k: nat): JoinTree
    requires 1 <= k <= |order|
  {
    if k == 1 then Leaf(order[0])
    else
      var l, r := LinearTree(cm, order, k - 1), Leaf(order[k - 1]);
      if cm.Cost(Join(r, l)) < cm.Cost(Join(l, r)) then Join(r, l) else Join(l, r)
  }

  lemma {:induction false} LinearTreeIsContiguous(m: Matrix, cm: CostModel, order: seq<nat>, k: nat)
    requires m.Valid() && Linearization(m, order) && 1 <= k <= |order|
    ensures Contiguous(m, order).Admits(LinearTree(cm, order, k))
    ensures LinearTree(cm, order, k).Rels() == Window(order, 0, k)
    ensures cm.Cost(LinearTree(cm, order, k)) == LinearCost(cm, order, k)
  {
    hide Linearization, Window, LinearTree, LinearCost, SearchSpace.Admits, CostModel.Cost, JoinTree.Rels, Matrix.Valid;
    WithinGraph(m, order);
    if k == 1 {
      LinearTreeStart(m, cm, order);
    } else {
      LinearTreeIsContiguous(m, cm, order, k - 1);
      LinearTreeStep(m, cm, order, k);
    }
  }

  lemma LinearTreeStart(m: Matrix, cm: CostModel, order: seq<nat>)
    requires order != [] && order[0] < |m.rows|
    ensures Contiguous(m, order).Admits(LinearTree(cm, order, 1))
    ensures LinearTree(cm, order, 1).Rels() == Window(order, 0, 1)
    ensures cm.Cost(LinearTree(cm, order, 1)) == LinearCost(cm, order, 1)
  {
    WindowSingle(order, 0);
  }

  lemma LinearTreeStep(m: Matrix, cm: CostModel, order: seq<nat>, k: nat)
    requires m.Valid() && Linearization(m, order) && 2 <= k <= |order| && order[k - 1] < |m.rows|
    requires Contiguous(m, order).Admits(LinearTree(cm, order, k - 1))
    requires LinearTree(cm, order, k - 1).Rels() == Window(order, 0, k - 1)
    requires cm.Cost(LinearTree(cm, order, k - 1)) == LinearCost(cm, order, k - 1)
    ensures Contiguous(m, order).Admits(LinearTree(cm, order, k))
    ensures LinearTree(cm, order, k).Rels() == Window(order, 0, k)
    ensures cm.Cost(LinearTree(cm, order, k)) == LinearCost(cm, order, k)
  {
    hide Window, Linearization, SearchSpace.Joinable, Elements;
    var l, r := LinearTree(cm, order, k - 1), Leaf(order[k - 1]);
    LastStep(m, order, k);
    WindowSingle(order, k - 1);
    BothOrdersAdmitted(Contiguous(m, order), l, r);
    assert order[..k - 1] == order[0..k - 1];
    WindowPrefix(order, k - 1);
  }

  lemma WindowSingle(order: seq<nat>, i: nat)
    requires i < |order|
    ensures Window(order, i, i + 1) == {order[i]}
  {
    assert order[i..i + 1] == [order[i]];
  }

  lemma WindowPrefix(order: seq<nat>, k: nat)
    requires k <= |order|
    ensures Window(order, 0, k) == Elements(order[..k])
  {
    assert order[0..k] == order[..k];
  }

  lemma LastStep(m: Matrix, order: seq<nat>, k: nat)
    requires m.Valid() && Linearization(m, order) && 2 <= k <= |order|
    ensures Window(order, 0, k - 1) + Window(order, k - 1, k) == Window(order, 0, k)
    ensures Contiguous(m, order).Joinable(Window(order, 0, k - 1), Window(order, k - 1, k))
  {
    WindowPrefix(order, k);
    assert m.Connected(Elements(order[..k]));
    DissectionFacts(order, 0, k - 1, k);
    hide Window, Elements, Linearization;
    m.ConnectedHasNoEmptyCut(Window(order, 0, k), Window(order, 0, k - 1));
    DissectionJoinable(m, order, 0, k - 1, k);
  }

  lemma FullWindow(m: Matrix, order: seq<nat>, cm: CostModel, log: Calls, movesRight: bool)
    requires m.Valid() && Linearization(m, order) && cm.Monotone() && |order| >= 2
    requires Progress(m, order, log, 0, |order|, movesRight)
    requires Considered(Contiguous(m, order), log, order, 0, |order|)
    ensures Optimal(Contiguous(m, order), cm, Replay(cm, |m.rows|, log), m.All())
    ensures Replay(cm, |m.rows|, log)[m.All()].cost <= LinearCost(cm, order, |order|)
  {
    var space := Contiguous(m, order);
    ConsideredIsSettled(m, order, log, 0, |order|);
    assert order[0..|order|] == order;
    assert Window(order, 0, |order|) == m.All();
    LinearTreeIsContiguous(m, cm, order, |order|);
    var t := LinearTree(cm, order, |order|);
    assert space.Admits(t) && t.Rels() == m.All();
    CallsAreOptimal(space, cm, log, m.All());
  }
}
