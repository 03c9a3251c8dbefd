/** The join graph of a query and the reachability loops on it. */
module AdjacencyMatrix {
  import opened SmallBitset

  /** `rows[i]` holds the relations that share a join predicate with relation `i`. */
  datatype Matrix = Matrix(rows: seq<Subproblem>) {

    ghost predicate Valid() {
      && (forall i, j :: 0 <= i < |rows| && j in rows[i] ==> j < |rows|)
      && (forall i, j :: 0 <= i < |rows| && 0 <= j < |rows| && j in rows[i] ==> i in rows[j])
    }

    function All(): Subproblem {
      Below(|rows|)
    }

    ghost predicate Adjacent(left: Subproblem, right: Subproblem) {
      exists x, y :: x in left && y in right && y < |rows| && x in rows[y]
    }

    /** `p` walks from its first to its last relation along join edges, inside `s`. */
    ghost predicate IsPath(p: seq<nat>, s: Subproblem) {
      && p != []
      && (forall i :: 0 <= i < |p| ==> p[i] in s && p[i] < |rows|)
      && (forall i :: 0 <= i < |p| - 1 ==> p[i + 1] in rows[p[i]])
    }

    ghost predicate Reaches(x: nat, y: nat, s: Subproblem) {
      exists p :: IsPath(p, s) && p[0] == x && p[|p| - 1] == y
    }

    /** Any relation of `s` reaches any other one using only relations of `s`. */
    ghost predicate Connected(s: Subproblem) {
      && {} < s <= All()
      && forall x, y :: x in s && y in s ==> Reaches(x, y, s)
    }

    // --------------------------------------------------------------- the loops of the class

    /** The neighbors of the relations in `s`. */
    method NeighborsOf(s: Subproblem, within: Subproblem, start: Subproblem) returns (n: Subproblem)
      requires s <= All()
      ensures forall y :: y in n <==> y in start || (y in within && exists x :: x in s && y in rows[x])
    {
      n := start;
      var rest := s;
      while rest != {}
        invariant rest <= s
        invariant forall y :: y in n <==> y in start || (y in within && exists x :: x in s - rest && y in rows[x])
        decreases rest
      {
        var x := Min(rest);
        assert x in All();
        n := n + rows[x] * within;
        forall y ensures y in n <==> y in start || (y in within && exists z :: z in s - (rest - {x}) && y in rows[z]) {
          assert s - (rest - {x}) == (s - rest) + {x};
        }
        rest := rest - {x};
      }
    }

    /** The relations of `s` that can be reached from `src` without leaving `s`. */
    method Reachable(src: Subproblem, s: Subproblem) returns (reached: Subproblem)
      requires Valid() && s <= All() && src <= s
      ensures src <= reached <= s && ClosedUnderEdges(reached, s)
      ensures forall y :: y in reached ==> ReachedFrom(src, y, s)
    {
      hide Reaches, IsPath;
      var before: Subproblem := {};
      reached := src;
      forall y | y in src ensures ReachedFrom(src, y, s) {
        ReachesItself(y, s);
      }
      while reached - before != {}
        invariant before <= reached && src <= reached <= s
        invariant forall x, y :: x in before && y in s && y in rows[x] ==> y in reached
        invariant forall y :: y in reached ==> ReachedFrom(src, y, s)
        decreases s - before
      {
        var frontier := reached - before;
        var next := NeighborsOf(frontier, s, reached);
        FrontierStep(src, reached, frontier, next, s);
        before, reached := reached, next;
      }
      forall x | x in reached ensures x in before {
        assert x !in reached - before;
      }
      assert before == reached;
    }

    lemma ReachesItself(x: nat, s: Subproblem)
      requires x in s && x < |rows|
      ensures Reaches(x, x, s)
    {
      assert IsPath([x], s);
    }

    ghost predicate ReachedFrom(src: Subproblem, y: nat, s: Subproblem) {
      exists x :: x in src && Reaches(x, y, s)
    }

    ghost predicate ClosedUnderEdges(a: Subproblem, s: Subproblem) {
      forall x, y :: x in a && x < |rows| && y in s && y in rows[x] ==> y in a
    }

    lemma FrontierStep(src: Subproblem, reached: Subproblem, frontier: Subproblem, next: Subproblem, s: Subproblem)
      requires s <= All() && frontier <= reached <= s
      requires forall y :: y in reached ==> ReachedFrom(src, y, s)
      requires forall y :: y in next ==> y in reached || (y in s && exists z :: z in frontier && y in rows[z])
      ensures forall y :: y in next ==> ReachedFrom(src, y, s)
    {
      forall y | y in next && y !in reached ensures ReachedFrom(src, y, s) {
        var z :| z in frontier && y in rows[z];
        assert ReachedFrom(src, z, s);
        var x :| x in src && Reaches(x, z, s);
        assert y in All() && z in All();
        ReachesStep(x, z, y, s);
      }
    }

    /** Whether `s` induces a connected subgraph. */
    method IsConnected(s: Subproblem) returns (b: bool)
      requires Valid() && s <= All() && s != {}
      ensures b <==> Connected(s)
    {
      var src := {Min(s)};
      var reached := Reachable(src, s);
      b := reached == s;
      ReachedEverything(Min(s), reached, s);
    }

    lemma ReachedEverything(x: nat, reached: Subproblem, s: Subproblem)
      requires Valid() && s <= All() && x in reached && reached <= s
      requires ClosedUnderEdges(reached, s)
      requires forall y :: y in reached ==> ReachedFrom({x}, y, s)
      ensures reached == s <==> Connected(s)
    {
      if reached == s {
        assert forall y :: y in s ==> ReachedFrom({x}, y, s);
        forall u, v | u in s && v in s ensures Reaches(u, v, s) {
          ReachesReverse(x, u, s);
          ReachesTrans(u, x, v, s);
        }
      }
      if Connected(s) {
        forall y | y in s ensures y in reached {
          var p :| IsPath(p, s) && p[0] == x && p[|p| - 1] == y;
          PathStays(p, s, reached);
        }
      }
    }

    /** Whether there is a join edge between `left` and `right`. */
    method IsConnectedPair(left: Subproblem, right: Subproblem) returns (b: bool)
      requires Valid() && left <= All() && right <= All()
      ensures b <==> Adjacent(left, right)
    {
      var n := NeighborsOf(right, All(), {});
      b := left * n != {};
      if b {
        var x :| x in left * n;
        assert x in left && exists y :: y in right && x in rows[y];
      }
      if Adjacent(left, right) {
        var x, y :| x in left && y in right && y < |rows| && x in rows[y];
        assert x in left * n;
      }
    }

    // ------------------------------------------------------------------- facts about paths

    lemma PathStays(p: seq<nat>, s: Subproblem, closed: Subproblem)
      requires Valid() && IsPath(p, s) && p[0] in closed
      requires ClosedUnderEdges(closed, s)
      ensures p[|p| - 1] in closed
    {
      if |p| > 1 {
        assert p[1] in rows[p[0]];
        PathStays(p[1..], s, closed);
      }
    }

    lemma ReachesStep(x: nat, y: nat, z: nat, s: Subproblem)
      requires y < |rows| && z < |rows| && Reaches(x, y, s) && z in s && z in rows[y]
      ensures Reaches(x, z, s)
    {
      var p :| IsPath(p, s) && p[0] == x && p[|p| - 1] == y;
      assert IsPath(p + [z], s);
    }

    lemma ReachesTrans(x: nat, y: nat, z: nat, s: Subproblem)
      requires Reaches(x, y, s) && Reaches(y, z, s)
      ensures Reaches(x, z, s)
    {
      var p :| IsPath(p, s) && p[0] == x && p[|p| - 1] == y;
      var q :| IsPath(q, s) && q[0] == y && q[|q| - 1] == z;
      var r := p + q[1..];
      assert r[|r| - 1] == z;
      assert IsPath(r, s);
    }

    lemma ReachesReverse(x: nat, y: nat, s: Subproblem)
      requires Valid() && Reaches(x, y, s)
      ensures Reaches(y, x, s)
    {
      var p :| IsPath(p, s) && p[0] == x && p[|p| - 1] == y;
      var r := seq(|p|, i requires 0 <= i < |p| => p[|p| - 1 - i]);
      forall i | 0 <= i < |r| - 1 ensures r[i + 1] in rows[r[i]] {
        assert p[|p| - 1 - i] in rows[p[|p| - 2 - i]];
      }
      assert IsPath(r, s);
    }

    lemma ReachesMonotone(x: nat, y: nat, s: Subproblem, t: Subproblem)
      requires Reaches(x, y, s) && s <= t
      ensures Reaches(x, y, t)
    {
      var p :| IsPath(p, s) && p[0] == x && p[|p| - 1] == y;
      assert IsPath(p, t);
    }

    // ------------------------------------------------------------ facts about connectedness

    lemma AdjacentSymmetric(a: Subproblem, b: Subproblem)
      requires Valid() && a <= All() && b <= All() && Adjacent(a, b)
      ensures Adjacent(b, a)
    {
      var x, y :| x in a && y in b && y < |rows| && x in rows[y];
      assert x in All();
    }

    lemma SingletonConnected(x: nat)
      requires x < |rows|
      ensures Connected({x})
    {
      assert IsPath([x], {x});
      assert Reaches(x, x, {x});
    }

    /** Joining two connected, adjacent sets gives a connected set. */
    lemma ConnectedUnion(a: Subproblem, b: Subproblem)
      requires Valid() && Connected(a) && Connected(b) && Adjacent(a, b)
      ensures Connected(a + b)
    {
      var x, y :| x in a && y in b && y < |rows| && x in rows[y];
      assert x in All() && y in All();
      var s := a + b;
      forall u | u in s ensures Reaches(u, x, s) {
        if u in a {
          ReachesMonotone(u, x, a, s);
        } else {
          ReachesMonotone(u, y, b, s);
          ReachesStep(u, y, x, s);
        }
      }
      forall u, v | u in s && v in s ensures Reaches(u, v, s) {
        ReachesReverse(v, x, s);
        ReachesTrans(u, x, v, s);
      }
    }

    /** A connected set has a join edge across every cut: what the enumerators insist on. */
    lemma ConnectedHasNoEmptyCut(s: Subproblem, a: Subproblem)
      requires Valid() && Connected(s) && {} < a < s
      ensures Adjacent(a, s - a) && Adjacent(s - a, a)
    {
      assert s == a + (s - a);
      var x :| x in a;
      var y :| y in s - a;
      assert Reaches(x, y, s);
      var p :| IsPath(p, s) && p[0] == x && p[|p| - 1] == y;
      if ClosedUnderEdges(a, s) {
        PathStays(p, s, a);
      } else {
        var u, v :| u in a && u < |rows| && v in s && v in rows[u] && v !in a;
        assert v in All() && u in rows[v] && v in s - a;
      }
      AdjacentSymmetric(a, s - a);
    }

    /** Every connected set of two or more relations splits into two connected and mutually
        adjacent parts; one of them can even be a single relation. */
    lemma ConnectedSplits(s: Subproblem) returns (a: Subproblem, x: nat)
      requires Valid() && Connected(s) && |s| >= 2
      ensures s == a + {x} && x !in a && Connected(a) && Connected({x})
      ensures Adjacent(a, {x}) && Adjacent({x}, a)
    {
      var start :| start in s;
      a, x := ConnectedSplitsAround(s, start);
    }

    /** The single relation can be chosen other than any given one. */
    lemma ConnectedSplitsAround(s: Subproblem, start: nat) returns (a: Subproblem, x: nat)
      requires Valid() && Connected(s) && |s| >= 2 && start in s
      ensures s == a + {x} && x !in a && start in a && Connected(a) && Connected({x})
      ensures Adjacent(a, {x}) && Adjacent({x}, a)
    {
      hide Reaches, IsPath, Valid;
      assert start in All();
      a := {start};
      SingletonConnected(start);
      while |s - a| > 1
        invariant start in a && a < s && Connected(a)
        decreases |s - a|
      {
        ConnectedHasNoEmptyCut(s, a);
        var u, v :| u in a && v in s - a && v < |rows| && u in rows[v];
        SingletonConnected(v);
        assert Adjacent(a, {v});
        ConnectedUnion(a, {v});
        assert s - (a + {v}) == (s - a) - {v};
        a := a + {v};
      }
      assert s == a + (s - a);
      x :| x in s - a;
      assert |(s - a) - {x}| == |s - a| - 1;
      assert s - a == {x};
      assert x in All();
      SingletonConnected(x);
      ConnectedHasNoEmptyCut(s, a);
    }
  }
}
