/** Sorting by a given order, and when a sorted sequence is the only one with its elements. */
module Sorting {

  ghost predicate TotalOrder<T(!new)>(leq: (T, T) -> bool) {
    && (forall a, b :: leq(a, b) || leq(b, a))
    && (forall a, b, c :: leq(a, b) && leq(b, c) ==> leq(a, c))
    && (forall a, b :: leq(a, b) && leq(b, a) ==> a == b)
  }

  predicate Sorted<T>(s: seq<T>, leq: (T, T) -> bool) {
    forall i, j | 0 <= i < j < |s| :: leq(s[i], s[j])
  }

  function Map<T, U>(s: seq<T>, f: T -> U): (r: seq<U>)
    ensures |r| == |s| && forall i | 0 <= i < |s| :: r[i] == f(s[i])
  {
    seq(|s|, i requires 0 <= i < |s| => f(s[i]))
  }

  lemma FirstIsLeast<T(!new)>(s: seq<T>, x: T, leq: (T, T) -> bool)
    requires TotalOrder(leq) && Sorted(s, leq) && s != [] && x in multiset(s)
    ensures leq(s[0], x)
  {
    var i :| 0 <= i < |s| && s[i] == x;
    assert leq(s[0], s[i]) || i == 0;
  }

  lemma {:induction false} OneSortedOrder<T(!new)>(a: seq<T>, b: seq<T>, leq: (T, T) -> bool)
    requires TotalOrder(leq) && Sorted(a, leq) && Sorted(b, leq) && multiset(a) == multiset(b)
    ensures a == b
  {
    if a == [] || b == [] {
      assert |multiset(a)| == |a| && |multiset(b)| == |b|;
    } else {
      FirstIsLeast(a, b[0], leq);
      FirstIsLeast(b, a[0], leq);
      assert a == [a[0]] + a[1..] && b == [b[0]] + b[1..];
      assert multiset(a[1..]) == multiset(a) - multiset{a[0]};
      assert multiset(b[1..]) == multiset(b) - multiset{b[0]};
      OneSortedOrder(a[1..], b[1..], leq);
    }
  }

  lemma TakeOut<T>(a: seq<T>, l: seq<T>, r: seq<T>, x: T)
    requires multiset(a + [x]) == multiset(l + [x] + r)
    ensures multiset(a) == multiset(l + r)
  {
    assert multiset(a) == multiset(a + [x]) - multiset{x};
    assert multiset(l + [x] + r) == multiset(l) + multiset{x} + multiset(r);
    assert multiset(l + r) == multiset(l) + multiset(r);
  }

  lemma MapAround<T, U>(l: seq<T>, x: T, r: seq<T>, f: T -> U)
    ensures multiset(Map(l + [x] + r, f)) == multiset(Map(l + r, f)) + multiset{f(x)}
  {
    assert Map(l + [x] + r, f) == Map(l, f) + [f(x)] + Map(r, f);
    assert Map(l + r, f) == Map(l, f) + Map(r, f);
  }

  lemma {:induction false} MapPermutes<T, U>(a: seq<T>, b: seq<T>, f: T -> U)
    requires multiset(a) == multiset(b)
    ensures multiset(Map(a, f)) == multiset(Map(b, f))
  {
    if a == [] {
      assert |multiset(b)| == |b|;
      assert b == [];
    } else {
      hide Map;
      var n, x := |a| - 1, a[|a| - 1];
      assert a == a[..n] + [x] == a[..n] + [x] + [] && a[..n] + [] == a[..n];
      assert x in multiset(b);
      var j :| 0 <= j < |b| && b[j] == x;
      var l, r := b[..j], b[j + 1..];
      assert b == l + [x] + r;
      TakeOut(a[..n], l, r, x);
      MapPermutes(a[..n], l + r, f);
      MapAround(a[..n], x, [], f);
      MapAround(l, x, r, f);
    }
  }

  /** Sorts by insertion; it stands for the library's sort. */
  method Sort<T(!new)>(s: seq<T>, leq: (T, T) -> bool) returns (t: seq<T>)
    requires (forall a, b :: leq(a, b) || leq(b, a)) && (forall a, b, c :: leq(a, b) && leq(b, c) ==> leq(a, c))
    ensures multiset(t) == multiset(s) && Sorted(t, leq)
  {
    t := [];
    for i := 0 to |s|
      invariant multiset(t) == multiset(s[..i]) && Sorted(t, leq)
    {
      assert s[..i + 1] == s[..i] + [s[i]];
      t := Insert(t, s[i], leq);
    }
    assert s[..|s|] == s;
  }

  method Insert<T(!new)>(s: seq<T>, x: T, leq: (T, T) -> bool) returns (t: seq<T>)
    requires (forall a, b :: leq(a, b) || leq(b, a)) && (forall a, b, c :: leq(a, b) && leq(b, c) ==> leq(a, c))
    requires Sorted(s, leq)
    ensures multiset(t) == multiset(s) + multiset{x} && Sorted(t, leq)
  {
    var i := |s|;
    while i > 0 && !leq(s[i - 1], x)
      invariant 0 <= i <= |s| && forall k | i <= k < |s| :: leq(x, s[k])
    {
      i := i - 1;
    }
    assert s == s[..i] + s[i..];
    t := s[..i] + [x] + s[i..];
    InsertedSorted(s, i, x, leq);
  }

  lemma InsertedSorted<T(!new)>(s: seq<T>, i: nat, x: T, leq: (T, T) -> bool)
    requires i <= |s| && Sorted(s, leq)
    requires forall a, b, c :: leq(a, b) && leq(b, c) ==> leq(a, c)
    requires i > 0 ==> leq(s[i - 1], x)
    requires forall k | i <= k < |s| :: leq(x, s[k])
    ensures Sorted(s[..i] + [x] + s[i..], leq)
  {
    forall k | 0 <= k < i
      ensures leq(s[k], x)
    {
      if k < i - 1 { assert leq(s[k], s[i - 1]); }
    }
    var t := s[..i] + [x] + s[i..];
    forall j, k | 0 <= j < k < |t|
      ensures leq(t[j], t[k])
    {
      var sj, sk := if j <= i then j else j - 1, if k <= i then k else k - 1;
      assert j != i ==> t[j] == s[sj];
      assert k != i ==> t[k] == s[sk];
    }
  }
}
