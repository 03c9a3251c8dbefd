/** Sets of relations, as the engine's `SmallBitset`: a set of indices together with the
    number its bits spell.  The subset walks of the plan enumerators are defined on sets;
    the lemmas at the end show that the arithmetic on machine words computes them. */
module SmallBitset {

  type Subproblem = set<nat>

  function Pow2(k: nat): (p: nat)
    ensures p > 0
  {
    if k == 0 then 1 else 2 * Pow2(k - 1)
  }

  lemma Pow2Monotone(i: nat, j: nat)
    requires i <= j
    ensures Pow2(i) <= Pow2(j)
    decreases j
  {
    if i < j {
      Pow2Monotone(i, j - 1);
    }
  }

  /** The first `k` indices. */
  function Below(k: nat): (s: Subproblem)
    ensures forall x: nat :: x in s <==> x < k
  {
    if k == 0 then {} else Below(k - 1) + {k - 1}
  }

  /** The number spelled by the bits of `s` below position `k`. */
  function Value(s: Subproblem, k: nat): nat {
    if k == 0 then 0 else Value(s, k - 1) + if k - 1 in s then Pow2(k - 1) else 0
  }

  lemma ValueBound(s: Subproblem, k: nat)
    ensures Value(s, k) < Pow2(k)
  {}

  lemma ValueSubset(a: Subproblem, b: Subproblem, k: nat)
    requires forall x | x in a && x < k :: x in b
    ensures Value(a, k) <= Value(b, k)
  {}

  lemma ValueInjective(a: Subproblem, b: Subproblem, k: nat)
    requires a <= Below(k) && b <= Below(k)
    requires Value(a, k) == Value(b, k)
    ensures a == b
  {
    hide Below;
    if k > 0 {
      var top := k - 1;
      ValueBound(a, top);
      ValueBound(b, top);
      ValueIgnoresAbove(a, a - {top}, top);
      ValueIgnoresAbove(b, b - {top}, top);
      ValueInjective(a - {top}, b - {top}, top);
      assert top in a <==> top in b;
    }
  }

  lemma ValueIgnoresAbove(a: Subproblem, b: Subproblem, k: nat)
    requires forall x: nat | x < k :: x in a <==> x in b
    ensures Value(a, k) == Value(b, k)
  {}

  lemma ValueDisjoint(a: Subproblem, b: Subproblem, k: nat)
    requires a !! b
    ensures Value(a + b, k) == Value(a, k) + Value(b, k)
  {}

  /** A proper subset spells a smaller number. */
  lemma ValueProperSubset(a: Subproblem, b: Subproblem, k: nat)
    requires a < b <= Below(k)
    ensures Value(a, k) < Value(b, k)
  {
    ValueSubset(a, b, k);
    if Value(a, k) == Value(b, k) {
      ValueInjective(a, b, k);
    }
  }

  lemma ValuePositive(s: Subproblem, k: nat)
    requires {} < s <= Below(k)
    ensures Value(s, k) > 0
  {
    ValueProperSubset({}, s, k);
  }

  /** The set whose bits spell `i`. */
  function FromBits(i: nat, k: nat): (s: Subproblem)
    requires i < Pow2(k)
    ensures s <= Below(k)
    ensures Value(s, k) == i
  {
    if k == 0 then {}
    else if i >= Pow2(k - 1) then
      var low := FromBits(i - Pow2(k - 1), k - 1);
      ValueIgnoresAbove(low, low + {k - 1}, k - 1);
      low + {k - 1}
    else
      FromBits(i, k - 1)
  }

  lemma FromBitsOfValue(s: Subproblem, k: nat)
    requires s <= Below(k)
    ensures Value(s, k) < Pow2(k) && FromBits(Value(s, k), k) == s
  {
    ValueBound(s, k);
    ValueInjective(FromBits(Value(s, k), k), s, k);
  }

  /** The lowest and the highest index of a non-empty set. */
  function Min(s: Subproblem): (m: nat)
    requires s != {}
    ensures m in s && forall x | x in s :: m <= x
  {
    MinExists(s);
    var m :| m in s && forall x | x in s :: m <= x;
    m
  }

  function Max(s: Subproblem): (m: nat)
    requires s != {}
    ensures m in s && forall x | x in s :: x <= m
  {
    MaxExists(s);
    var m :| m in s && forall x | x in s :: x <= m;
    m
  }

  lemma MinExists(s: Subproblem)
    requires s != {}
    ensures exists m :: m in s && forall x | x in s :: m <= x
  {
    var m :| m in s;
    while exists x :: x in s && x < m
      invariant m in s
      decreases m
    {
      var x :| x in s && x < m;
      m := x;
    }
  }

  lemma MaxExists(s: Subproblem)
    requires s != {}
    ensures exists m :: m in s && forall x | x in s :: x <= m
  {
    var m :| m in s;
    var rest := s;
    while rest != {}
      invariant m in s
      invariant forall x | x in s :: x in rest || x <= m
      decreases rest
    {
      var x :| x in rest;
      m, rest := if m < x then x else m, rest - {x};
    }
  }

  // -------------------------------------------------------------------- subsets of a set

  function LeastSubset(s: Subproblem): Subproblem
    requires s != {}
  {
    {Min(s)}
  }

  /** The subset of `s` after `a`: the lowest index of `s` missing from `a` is switched on,
      all lower ones are switched off. */
  function NextSubset(a: Subproblem, s: Subproblem): (next: Subproblem)
    requires a < s
    ensures {} < next <= s
  {
    assert s == a + (s - a);
    var k := Min(s - a);
    assert k in s;
    {k} + set x | x in a && x > k
  }

  /** `LeastSubset` is the numerically least non-empty subset. */
  lemma LeastSubsetIsLeast(s: Subproblem, t: Subproblem, k: nat)
    requires {} < t <= s <= Below(k)
    ensures Value(LeastSubset(s), k) <= Value(t, k)
  {
    var m := Min(s);
    var x :| x in t;
    ValueSubset({x}, t, k);
    ValueSingleton(x, k);
    ValueSingleton(m, k);
    assert x in Below(k) && m in Below(k);
    Pow2Monotone(m, x);
  }

  lemma ValueSingleton(x: nat, k: nat)
    ensures Value({x}, k) == if x < k then Pow2(x) else 0
  {}

  /** `NextSubset` skips no subset: it is the numerically next one. */
  lemma NextSubsetIsNext(a: Subproblem, s: Subproblem, t: Subproblem, k: nat)
    requires a < s <= Below(k) && t <= s
    ensures Value(a, k) < Value(NextSubset(a, s), k)
    ensures Value(a, k) < Value(t, k) ==> Value(NextSubset(a, s), k) <= Value(t, k)
  {
    assert s == a + (s - a);
    var m := Min(s - a);
    assert m in s && m in Below(k);
    NextSubsetStep(a, s, t, k);
  }

  lemma {:induction false} NextSubsetStep(a: Subproblem, s: Subproblem, t: Subproblem, k: nat)
    requires a < s && t <= s && s - a != {} && Min(s - a) < k
    ensures Value(a, k) < Value(NextSubset(a, s), k)
    ensures Value(a, k) < Value(t, k) ==> Value(NextSubset(a, s), k) <= Value(t, k)
  {
    var m, next := Min(s - a), NextSubset(a, s);
    ValueBound(a, k - 1);
    ValueBound(t, k - 1);
    ValueBound(next, k - 1);
    if k == m + 1 {
      forall x | x in t && x < m ensures x in a {
        assert x !in s - a;
      }
      ValueSubset(t, a, m);
      ValueIgnoresAbove(next, {}, m);
      ValueSubset({}, a, m);
      ValueZero(m);
    } else {
      NextSubsetStep(a, s, t, k - 1);
    }
  }

  lemma ValueZero(k: nat)
    ensures Value({}, k) == 0
  {}

  // -------------------------------------------------- subsets of one size (Gosper's hack)

  /** The number of elements of `s` below `k`. */
  function Count(s: Subproblem, k: nat): nat {
    if k == 0 then 0 else Count(s, k - 1) + if k - 1 in s then 1 else 0
  }

  lemma CountIsSize(s: Subproblem, k: nat)
    requires s <= Below(k)
    ensures Count(s, k) == |s|
  {
    hide Below;
    if k > 0 {
      var rest := s - {k - 1};
      CountIgnoresAbove(s, rest, k - 1);
      CountIsSize(rest, k - 1);
      assert k - 1 in s ==> s == rest + {k - 1};
      assert k - 1 !in s ==> s == rest;
    }
  }

  lemma CountIgnoresAbove(a: Subproblem, b: Subproblem, k: nat)
    requires forall x: nat | x < k :: x in a <==> x in b
    ensures Count(a, k) == Count(b, k)
  {}

  /** Among the sets with a given number of elements below `k`, the numerically least one has
      them at the bottom and the greatest one at the top. */
  lemma ValueOfCount(s: Subproblem, k: nat)
    ensures Count(s, k) <= k
    ensures Pow2(Count(s, k)) - 1 <= Value(s, k) <= Pow2(k) - Pow2(k - Count(s, k))
  {
    if k > 0 {
      ValueOfCount(s, k - 1);
      Pow2Monotone(Count(s, k - 1), k - 1);
    }
  }

  /** The first index above the lowest run of consecutive indices in `s`. */
  function RunEnd(s: Subproblem, from: nat): (e: nat)
    ensures e >= from && e !in s
    ensures forall x | from <= x < e :: x in s
    decreases if s == {} || Max(s) < from then 0 else Max(s) - from + 1
  {
    if from in s then RunEnd(s, from + 1) else from
  }

  /** The next set of the same size: the index after the lowest run is switched on, and the
      rest of the run moves to the bottom. */
  function NextOfSize(s: Subproblem): Subproblem
    requires s != {}
  {
    var c := Min(s);
    var e := RunEnd(s, c);
    {e} + (set x | x in s && x > e) + Below(e - c - 1)
  }

  lemma NextOfSizeMembers(s: Subproblem, c: nat, e: nat)
    requires s != {} && c == Min(s) && e == RunEnd(s, c)
    ensures forall x: nat :: x in NextOfSize(s) <==> x == e || (x > e && x in s) || x < e - c - 1
  {}

  lemma BelowSize(k: nat)
    ensures |Below(k)| == k
  {
    if k > 0 {
      BelowSize(k - 1);
      assert Below(k) == Below(k - 1) + {k - 1};
    }
  }

  /** `Below(k)` is the numerically least set of size `k`. */
  lemma FirstOfSizeIsLeast(s: Subproblem, k: nat, n: nat)
    requires s <= Below(n) && |s| == k && k <= n
    ensures Value(Below(k), n) <= Value(s, n)
  {
    CountIsSize(s, n);
    ValueOfCount(s, n);
    ValueBelow(k, n);
  }

  lemma ValueBelow(k: nat, n: nat)
    requires k <= n
    ensures Value(Below(k), n) == Pow2(k) - 1
    ensures Count(Below(k), n) == k
  {
    hide Below;
    if n > 0 {
      if k == n {
        ValueIgnoresAbove(Below(k), Below(k - 1), n - 1);
        CountIgnoresAbove(Below(k), Below(k - 1), n - 1);
        ValueBelow(k - 1, n - 1);
      } else {
        ValueBelow(k, n - 1);
      }
    }
  }

  /** `NextOfSize` keeps the size and skips no set of that size. */
  lemma NextOfSizeIsNext(s: Subproblem, t: Subproblem, n: nat)
    requires s != {} && s <= Below(n)
    ensures NextOfSize(s) <= Below(n + 1) && |NextOfSize(s)| == |s|
    ensures Value(s, n + 1) < Value(NextOfSize(s), n + 1)
    ensures t <= Below(n) && |t| == |s| && Value(s, n + 1) < Value(t, n + 1)
            ==> Value(NextOfSize(s), n + 1) <= Value(t, n + 1)
  {
    hide Value, Count, NextOfSize, Below;
    var c, next := Min(s), NextOfSize(s);
    var e := RunEnd(s, c);
    assert e - 1 in s;
    NextOfSizeMembers(s, c, e);
    NextOfSizeStep(s, t, next, c, e, n + 1);
    CountIsSize(s, n + 1);
    CountIsSize(next, n + 1);
    if t <= Below(n) {
      CountIsSize(t, n + 1);
    }
  }

  lemma {:induction false} NextOfSizeStep(s: Subproblem, t: Subproblem, next: Subproblem, c: nat, e: nat, k: nat)
    requires c < e < k && e !in s
    requires forall x: nat | x < e :: x in s <==> c <= x
    requires forall x: nat | x < e :: x in next <==> x < e - c - 1
    requires e in next && forall x: nat | e < x :: x in next <==> x in s
    ensures Count(next, k) == Count(s, k)
    ensures Value(s, k) < Value(next, k)
    ensures Count(t, k) == Count(s, k) && Value(s, k) < Value(t, k)
            ==> Value(next, k) <= Value(t, k)
  {
    if k == e + 1 {
      NextOfSizeBase(s, t, next, c, e);
      hide *;
    } else {
      ValueBound(s, k - 1);
      ValueBound(t, k - 1);
      ValueBound(next, k - 1);
      NextOfSizeStep(s, t, next, c, e, k - 1);
      hide Below;
    }
  }

  lemma NextOfSizeBase(s: Subproblem, t: Subproblem, next: Subproblem, c: nat, e: nat)
    requires c < e && e !in s && e in next
    requires forall x: nat | x < e :: x in s <==> c <= x
    requires forall x: nat | x < e :: x in next <==> x < e - c - 1
    ensures Count(next, e + 1) == Count(s, e + 1) && Value(s, e + 1) < Value(next, e + 1)
    ensures Count(t, e + 1) == Count(s, e + 1) && Value(s, e + 1) < Value(t, e + 1)
            ==> Value(next, e + 1) <= Value(t, e + 1)
  {
    hide Below;
    ValueBound(s, e);
    ValueBound(t, e);
    ValueBound(next, e);
    RunValue(s, c, e);
    ValueIgnoresAbove(next, Below(e - c - 1), e);
    CountIgnoresAbove(next, Below(e - c - 1), e);
    ValueBelow(e - c - 1, e);
    ValueOfCount(t, e);
    Pow2Monotone(e - c - 1, e - 1);
    Pow2Monotone(c, e);
  }

  lemma RunValue(s: Subproblem, c: nat, e: nat)
    requires c <= e
    requires forall x: nat | x < e :: x in s <==> c <= x
    ensures Value(s, e) == Pow2(e) - Pow2(c) && Count(s, e) == e - c
  {
    if c == e {
      ValueIgnoresAbove(s, {}, e);
      CountIgnoresAbove(s, {}, e);
      ValueZero(e);
      CountZero(e);
    } else {
      RunValue(s, c, e - 1);
    }
  }

  lemma CountZero(k: nat)
    ensures Count({}, k) == 0
  {}

  // ------------------------------------------------------- the arithmetic on machine words

  /** `x & y` and `-x` on words of `w` bits. */
  function BitAnd(x: nat, y: nat, w: nat): nat
    requires x < Pow2(w) && y < Pow2(w)
  {
    Value(FromBits(x, w) * FromBits(y, w), w)
  }

  function Negate(x: nat, w: nat): (r: nat)
    requires x < Pow2(w)
    ensures r < Pow2(w)
  {
    if x == 0 then 0 else Pow2(w) - x
  }

  /** `x - y` on words of `w` bits. */
  function Minus(x: nat, y: nat, w: nat): (r: nat)
    requires x < Pow2(w) && y < Pow2(w)
    ensures r < Pow2(w)
  {
    if x >= y then x - y else Pow2(w) + x - y
  }

  lemma {:induction false} NegateIsComplement(d: Subproblem, neg: Subproblem, w: nat)
    requires d != {} && Min(d) < w
    requires forall x: nat | x < w :: x in neg <==> x == Min(d) || (x > Min(d) && x !in d)
    ensures Value(neg, w) + Value(d, w) == Pow2(w)
  {
    var m := Min(d);
    if w == m + 1 {
      forall x: nat | x < m ensures x !in d && x !in neg {}
      ValueIgnoresAbove(neg, {}, m);
      ValueIgnoresAbove(d, {}, m);
      ValueZero(m);
    } else {
      NegateIsComplement(d, neg, w - 1);
    }
  }

  /** The word arithmetic `s & -s` computes `LeastSubset`. */
  lemma LeastSubsetOnWords(s: Subproblem, w: nat)
    requires {} < s <= Below(w)
    ensures Value(s, w) < Pow2(w)
    ensures BitAnd(Value(s, w), Negate(Value(s, w), w), w) == Value(LeastSubset(s), w)
  {
    assert Min(s) in Below(w);
    FromBitsOfValue(s, w);
    NegateOnWords(s, w);
    assert s * NegatedBits(s, w) == LeastSubset(s);
  }

  /** The word arithmetic `(a - s) & s` computes `NextSubset`. */
  lemma NextSubsetOnWords(a: Subproblem, s: Subproblem, w: nat)
    requires a < s <= Below(w)
    ensures Value(s, w) < Pow2(w) && Value(a, w) < Pow2(w)
    ensures BitAnd(Minus(Value(a, w), Value(s, w), w), Value(s, w), w) == Value(NextSubset(a, s), w)
  {
    var d := s - a;
    assert s == a + d;
    FromBitsOfValue(s, w);
    ValueProperSubset(a, s, w);
    ValueDisjoint(a, d, w);
    NegateOnWords(d, w);
    assert NegatedBits(d, w) * s == NextSubset(a, s);
  }

  function NegatedBits(d: Subproblem, w: nat): (neg: Subproblem)
    requires d != {} && Min(d) < w
    ensures forall x: nat :: x in neg <==> x < w && (x == Min(d) || (x > Min(d) && x !in d))
  {
    {Min(d)} + set x | x in Below(w) && x > Min(d) && x !in d
  }

  lemma BitsSpelling(s: Subproblem, i: nat, w: nat)
    requires i == Value(s, w) && forall x | x in s :: x < w
    ensures i < Pow2(w) && FromBits(i, w) == s
  {
    assert s <= Below(w);
    FromBitsOfValue(s, w);
  }

  lemma NegateOnWords(d: Subproblem, w: nat)
    requires {} < d <= Below(w)
    ensures Value(d, w) < Pow2(w) && Min(d) < w
    ensures FromBits(Negate(Value(d, w), w), w) == NegatedBits(d, w)
  {
    assert Min(d) in Below(w);
    ValueBound(d, w);
    ValuePositive(d, w);
    NegateIsComplement(d, NegatedBits(d, w), w);
    BitsSpelling(NegatedBits(d, w), Negate(Value(d, w), w), w);
  }
}
