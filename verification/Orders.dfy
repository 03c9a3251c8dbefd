/** Orders of indices: permutations, insertion, and sums that do not depend on the order. */
module Orders {
  function Iota(n: nat): (s: seq<nat>)
    ensures |s| == n && forall i :: 0 <= i < n ==> s[i] == i
  {
    if n == 0 then [] else Iota(n - 1) + [n - 1]
  }

  function Inserted(order: seq<nat>, k: nat, n: nat): (longer: seq<nat>)
    requires k <= |order|
  {
    order[..k] + [n] + order[k..]
  }

  lemma InsertedAt(order: seq<nat>, k: nat, n: nat, i: nat)
    requires k <= |order| && i <= |order|
    ensures |Inserted(order, k, n)| == |order| + 1
    ensures Inserted(order, k, n)[i] == if i < k then order[i] else if i == k then n else order[i - 1]
  {}

  lemma InsertedBag(order: seq<nat>, k: nat, n: nat)
    requires k <= |order|
    ensures multiset(Inserted(order, k, n)) == multiset(order) + multiset{n}
  {
    assert order == order[..k] + order[k..];
  }

  lemma IotaStep(n: nat)
    ensures multiset(Iota(n + 1)) == multiset(Iota(n)) + multiset{n}
  {}

  lemma SameRest(a: multiset<nat>, b: multiset<nat>, x: nat)
    requires a + multiset{x} == b + multiset{x}
    ensures a == b
  {
    assert a == (a + multiset{x}) - multiset{x};
    assert b == (b + multiset{x}) - multiset{x};
  }

  lemma WithoutOne<T>(s: seq<T>, k: nat)
    requires k < |s|
    ensures multiset(s) == multiset(s[..k] + s[k + 1..]) + multiset{s[k]}
  {
    assert s == s[..k] + [s[k]] + s[k + 1..];
  }

  function Sum(f: nat -> nat, s: seq<nat>): nat {
    if s == [] then 0 else Sum(f, s[..|s| - 1]) + f(s[|s| - 1])
  }

  lemma SumStep(f: nat -> nat, s: seq<nat>, x: nat)
    ensures Sum(f, s + [x]) == Sum(f, s) + f(x)
  {
    assert (s + [x])[..|s|] == s;
  }

  lemma SumLast(f: nat -> nat, s: seq<nat>)
    ensures Sum(f, s) == if s == [] then 0 else Sum(f, s[..|s| - 1]) + f(s[|s| - 1])
  {}

  /** A sum does not depend on the order of its terms. */
  lemma {:induction false} SumPermutes(f: nat -> nat, a: seq<nat>, b: seq<nat>)
    requires multiset(a) == multiset(b)
    ensures Sum(f, a) == Sum(f, b)
    decreases |a|
  {
    if a == [] {
      assert |multiset(b)| == 0;
    } else {
      var n, x := |a| - 1, a[|a| - 1];
      assert a == a[..n] + [x];
      assert x in multiset(b);
      var k :| 0 <= k < |b| && b[k] == x;
      WithoutOne(b, k);
      SameRest(multiset(a[..n]), multiset(b[..k] + b[k + 1..]), x);
      SumPermutes(f, a[..n], b[..k] + b[k + 1..]);
      SumSplit(f, b, k);
    }
  }

  lemma {:induction false} SumSplit(f: nat -> nat, b: seq<nat>, k: nat)
    requires k < |b|
    ensures Sum(f, b) == Sum(f, b[..k] + b[k + 1..]) + f(b[k])
    decreases |b|
  {
    var n := |b| - 1;
    if k == n {
      assert b[..k] + b[k + 1..] == b[..n];
    } else {
      SumSplit(f, b[..n], k);
      WithoutBeforeLast(b, k);
      var rest := b[..n][..k] + b[..n][k + 1..];
      SumStep(f, rest, b[n]);
      SumStep(f, b[..n], b[n]);
      assert b == b[..n] + [b[n]];
      hide Sum;
    }
  }

  lemma WithoutBeforeLast(b: seq<nat>, k: nat)
    requires k + 1 < |b|
    ensures var n := |b| - 1;
            b[..n][k] == b[k] && b[..k] + b[k + 1..] == (b[..n][..k] + b[..n][k + 1..]) + [b[n]]
  {}

  lemma {:induction false} SumGrows(f: nat -> nat, s: seq<nat>, j: nat, k: nat)
    requires j <= k <= |s|
    ensures Sum(f, s[..j]) <= Sum(f, s[..k])
    decreases k - j
  {
    if j < k {
      SumGrows(f, s, j, k - 1);
      assert s[..k] == s[..k - 1] + [s[k - 1]];
      SumStep(f, s[..k - 1], s[k - 1]);
    }
  }

  lemma {:induction false} SumWhole(f: nat -> nat, s: seq<nat>)
    requires forall i :: 0 <= i < |s| ==> f(s[i]) % 8 == 0
    ensures Sum(f, s) % 8 == 0
  {
    if s != [] {
      SumWhole(f, s[..|s| - 1]);
    }
  }

  lemma {:induction false} IotaPrefix(n: nat, k: nat)
    requires k <= n
    ensures Iota(n)[..k] == Iota(k)
  {
    if k < n {
      IotaPrefix(n - 1, k);
    }
  }
}
