/** The contract of Go's sort package that the modelled code relies on, with a small implementation. */
module Sorting {
  predicate Sorted<T>(xs: seq<T>, le: (T, T) -> bool) {
    forall i, j :: 0 <= i < j < |xs| ==> le(xs[i], xs[j])
  }

  ghost predicate TotalOrder<T(!new)>(le: (T, T) -> bool) {
    && (forall x, y :: le(x, y) || le(y, x))
    && (forall x, y, z :: le(x, y) && le(y, z) ==> le(x, z))
  }

  method SortSeq<T(==, !new)>(xs: seq<T>, le: (T, T) -> bool) returns (ys: seq<T>)
    requires TotalOrder(le)
    ensures Sorted(ys, le) && multiset(ys) == multiset(xs)
  {
    ys := [];
    for i := 0 to |xs|
      invariant Sorted(ys, le) && multiset(ys) == multiset(xs[..i])
    {
      assert xs[..i + 1] == xs[..i] + [xs[i]];
      ys := InsertSorted(ys, xs[i], le);
    }
    assert xs[..|xs|] == xs;
  }

  method InsertSorted<T(==, !new)>(xs: seq<T>, x: T, le: (T, T) -> bool) returns (ys: seq<T>)
    requires TotalOrder(le) && Sorted(xs, le)
    ensures Sorted(ys, le) && multiset(ys) == multiset(xs) + multiset{x}
  {
    var k := 0;
    while k < |xs| && le(xs[k], x)
      invariant 0 <= k <= |xs|
      invariant forall i :: 0 <= i < k ==> le(xs[i], x)
    {
      k := k + 1;
    }
    ys := xs[..k] + [x] + xs[k..];
    assert xs == xs[..k] + xs[k..];
    forall j | k <= j < |xs| ensures le(x, xs[j]) {
      assert le(xs[k], xs[j]) || k == j;
    }
    InsertedIsSorted(xs, x, k, le);
  }

  lemma InsertedIsSorted<T(!new)>(xs: seq<T>, x: T, k: nat, le: (T, T) -> bool)
    requires k <= |xs| && Sorted(xs, le)
    requires forall i :: 0 <= i < k ==> le(xs[i], x)
    requires forall j :: k <= j < |xs| ==> le(x, xs[j])
    ensures Sorted(xs[..k] + [x] + xs[k..], le)
  {
    var ys := xs[..k] + [x] + xs[k..];
    forall i, j | 0 <= i < j < |ys| ensures le(ys[i], ys[j]) {
      assert ys[i] == if i < k then xs[i] else if i == k then x else xs[i - 1];
      assert ys[j] == if j < k then xs[j] else if j == k then x else xs[j - 1];
    }
  }

  predicate LexLe(a: string, b: string) {
    a == "" || (b != "" && (a[0] < b[0] || (a[0] == b[0] && LexLe(a[1..], b[1..]))))
  }

  /** The texts agree before `k`, where `a` has the smaller character. */
  predicate FirstBelow(a: string, b: string, k: nat) {
    k < |a| && k < |b| && a[..k] == b[..k] && a[k] < b[k]
  }

  /** The order of texts: a prefix, or a smaller character where they first differ. */
  lemma {:induction false} LexLeIff(a: string, b: string)
    ensures LexLe(a, b) <==> a <= b || exists k: nat :: FirstBelow(a, b, k)
  {
    if a != "" && b != "" && a[0] == b[0] {
      var a', b' := a[1..], b[1..];
      LexLeIff(a', b');
      assert a == [a[0]] + a' && b == [a[0]] + b';
      forall k: nat ensures FirstBelow(a', b', k) <==> FirstBelow(a, b, k + 1) { LaterDifference(a, b, k); }
      forall k: nat | FirstBelow(a, b, k) ensures k > 0 && FirstBelow(a', b', k - 1) { LaterDifference(a, b, k - 1); }
    } else if a != "" && b != "" {
      forall k: nat | k > 0 ensures !FirstBelow(a, b, k) { HeadsDiffer(a, b, k); }
      assert a[0] < b[0] ==> FirstBelow(a, b, 0);
    }
  }

  lemma HeadsDiffer(a: string, b: string, k: nat)
    requires a != "" && b != "" && a[0] != b[0] && k > 0
    ensures !FirstBelow(a, b, k)
  {
    if k <= |a| && k <= |b| { assert a[..k][0] == a[0] && b[..k][0] == b[0]; }
  }

  lemma LaterDifference(a: string, b: string, k: nat)
    requires a != "" && b != "" && a[0] == b[0]
    ensures FirstBelow(a[1..], b[1..], k) <==> FirstBelow(a, b, k + 1)
  {
    if k + 1 <= |a| && k + 1 <= |b| {
      assert a[..k + 1] == [a[0]] + a[1..][..k] && b[..k + 1] == [b[0]] + b[1..][..k];
      if a[..k + 1] == b[..k + 1] { assert a[1..][..k] == a[..k + 1][1..] && b[1..][..k] == b[..k + 1][1..]; }
    }
  }

  lemma LexTotal(a: string, b: string)
    ensures LexLe(a, b) || LexLe(b, a)
  {
  }

  lemma {:induction false} LexTransitive(a: string, b: string, c: string)
    requires LexLe(a, b) && LexLe(b, c)
    ensures LexLe(a, c)
  {
    if a != "" && a[0] == b[0] == c[0] {
      LexTransitive(a[1..], b[1..], c[1..]);
    }
  }

  lemma {:induction false} LexReflexive(a: string)
    ensures LexLe(a, a)
  {
    if a != "" { LexReflexive(a[1..]); }
  }

  lemma LexOrder()
    ensures TotalOrder(LexLe)
  {
    forall a, b ensures LexLe(a, b) || LexLe(b, a) { LexTotal(a, b); }
    forall a, b, c | LexLe(a, b) && LexLe(b, c) ensures LexLe(a, c) { LexTransitive(a, b, c); }
  }

  /** The members of a set, sorted; what a Go loop over map keys followed by sort.Strings yields. */
  method SortedKeys(keys: set<string>) returns (names: seq<string>)
    ensures Sorted(names, LexLe) && multiset(names) == multiset(keys)
  {
    var rest, collected := keys, [];
    while rest != {}
      invariant rest <= keys && multiset(collected) + multiset(rest) == multiset(keys)
      decreases |rest|
    {
      var name :| name in rest;
      rest := rest - {name};
      collected := collected + [name];
    }
    LexOrder();
    names := SortSeq(collected, LexLe);
  }
}
