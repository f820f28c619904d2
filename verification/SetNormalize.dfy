/** Comparing JSON arrays as sets, and arrays whose order does not matter: by a canonical form of the elements. */
module SetNormalize {
  import Lex
  import opened Sorting

  predicate Leq(a: string, b: string) {
    !Lex.Less(b, a)
  }

  lemma LeqIsTotalOrder()
    ensures TotalOrder(Leq)
  {
    forall a, b
      ensures Leq(a, b) || Leq(b, a)
      ensures Leq(a, b) && Leq(b, a) ==> a == b
    {
      Lex.Total(a, b);
      if Lex.Less(a, b) && Lex.Less(b, a) {
        Lex.Transitive(a, b, a);
        Lex.Irreflexive(a);
      }
    }
    forall a, b, c | Leq(a, b) && Leq(b, c)
      ensures Leq(a, c)
    {
      if Lex.Less(c, a) {
        Lex.Total(a, b);
        if Lex.Less(a, b) {
          Lex.Transitive(c, a, b);
        }
      }
    }
  }

  function Elements<T>(s: seq<T>): set<T> {
    set x | x in s
  }

  ghost predicate Injective<V(!new)>(canonical: V -> string) {
    forall a, b :: canonical(a) == canonical(b) ==> a == b
  }

  /** No two elements have the same canonical form. */
  predicate Distinct<V>(s: seq<V>, canonical: V -> string) {
    forall i, j | 0 <= i < j < |s| :: canonical(s[i]) != canonical(s[j])
  }

  /** The order of elements by canonical form. */
  function ByForm<V>(canonical: V -> string): (V, V) -> bool {
    (a, b) => Leq(canonical(a), canonical(b))
  }

  lemma SortedForms<V>(s: seq<V>, canonical: V -> string)
    requires Sorted(s, ByForm(canonical))
    ensures Sorted(Map(s, canonical), Leq)
  {
    forall i, j | 0 <= i < j < |s|
      ensures Leq(Map(s, canonical)[i], Map(s, canonical)[j])
    {
      assert ByForm(canonical)(s[i], s[j]);
    }
  }

  lemma SameForms<V(!new)>(a: seq<V>, b: seq<V>, canonical: V -> string)
    requires Injective(canonical) && Map(a, canonical) == Map(b, canonical)
    ensures a == b
  {
    assert |a| == |Map(a, canonical)| == |b|;
    forall i | 0 <= i < |a|
      ensures a[i] == b[i]
    {
      assert Map(a, canonical)[i] == canonical(a[i]) && Map(b, canonical)[i] == canonical(b[i]);
    }
  }

  // ---------------------------------------------------------------------------
  // Arrays as sets
  // ---------------------------------------------------------------------------

  /** What collapsing an array to its set gives: distinct elements in the order of their forms. */
  predicate SetForm<V(==)>(out: seq<V>, arr: seq<V>, canonical: V -> string) {
    && Sorted(out, ByForm(canonical)) && Distinct(out, canonical)
    && Elements(Map(out, canonical)) == Elements(Map(arr, canonical))
    && forall x | x in out :: x in arr
  }

  /** Keeps the first element of each form, in the array's order. */
  method Distincts<V(==)>(arr: seq<V>, canonical: V -> string) returns (uniq: seq<V>)
    ensures Distinct(uniq, canonical)
    ensures Elements(Map(uniq, canonical)) == Elements(Map(arr, canonical))
    ensures forall x | x in uniq :: x in arr
  {
    uniq := [];
    var seen: set<string> := {};
    for i := 0 to |arr|
      invariant Distinct(uniq, canonical)
      invariant seen == Elements(Map(uniq, canonical)) == Elements(Map(arr[..i], canonical))
      invariant forall x | x in uniq :: x in arr
    {
      var c := canonical(arr[i]);
      assert Map(arr[..i + 1], canonical) == Map(arr[..i], canonical) + [c];
      if c in seen {
        assert Elements(Map(arr[..i + 1], canonical)) == seen;
      } else {
        forall k | 0 <= k < |uniq|
          ensures canonical(uniq[k]) != c
        {
          assert Map(uniq, canonical)[k] in seen;
        }
        assert Map(uniq + [arr[i]], canonical) == Map(uniq, canonical) + [c];
        seen := seen + {c};
        uniq := uniq + [arr[i]];
      }
    }
    assert arr[..|arr|] == arr;
  }

  method CollapseToSet<V(==, !new)>(arr: seq<V>, canonical: V -> string) returns (out: seq<V>)
    ensures SetForm(out, arr, canonical)
  {
    var uniq := Distincts(arr, canonical);
    LeqIsTotalOrder();
    OrderByForm(canonical);
    out := Sort(uniq, ByForm(canonical));
    DistinctForms(uniq, canonical);
    MapPermutes(out, uniq, canonical);
    FormsDistinct(out, canonical);
    SameElements(Map(out, canonical), Map(uniq, canonical));
    forall x | x in out
      ensures x in arr
    {
      assert x in multiset(uniq);
    }
  }

  lemma OrderByForm<V(!new)>(canonical: V -> string)
    ensures forall a, b :: ByForm(canonical)(a, b) || ByForm(canonical)(b, a)
    ensures forall a, b, c :: ByForm(canonical)(a, b) && ByForm(canonical)(b, c) ==> ByForm(canonical)(a, c)
  {
    LeqIsTotalOrder();
  }

  lemma SameElements<T>(a: seq<T>, b: seq<T>)
    requires multiset(a) == multiset(b)
    ensures Elements(a) == Elements(b)
  {
    forall x
      ensures x in a <==> x in b
    {
      assert x in a <==> x in multiset(a);
      assert x in b <==> x in multiset(b);
    }
  }

  predicate Once<T(==)>(s: seq<T>) {
    forall x | x in s :: multiset(s)[x] == 1
  }

  lemma {:induction false} OnceIff<T>(s: seq<T>)
    ensures Once(s) <==> forall i, j | 0 <= i < j < |s| :: s[i] != s[j]
  {
    if s != [] {
      var n := |s| - 1;
      OnceIff(s[..n]);
      assert s == s[..n] + [s[n]];
      assert forall x | x in s[..n] && x != s[n] :: multiset(s)[x] == multiset(s[..n])[x];
      if s[n] in s[..n] {
        var i :| 0 <= i < n && s[..n][i] == s[n];
        assert multiset(s)[s[n]] >= 2;
      }
    }
  }

  lemma DistinctForms<V>(s: seq<V>, canonical: V -> string)
    requires Distinct(s, canonical)
    ensures Once(Map(s, canonical))
  {
    OnceIff(Map(s, canonical));
  }

  lemma FormsDistinct<V>(s: seq<V>, canonical: V -> string)
    requires Once(Map(s, canonical))
    ensures Distinct(s, canonical)
  {
    OnceIff(Map(s, canonical));
  }

  lemma SortedOnceIsUnique(a: seq<string>, b: seq<string>)
    requires Sorted(a, Leq) && Sorted(b, Leq) && Once(a) && Once(b) && Elements(a) == Elements(b)
    ensures a == b
  {
    LeqIsTotalOrder();
    forall x
      ensures multiset(a)[x] == multiset(b)[x]
    {
      assert x in a <==> x in Elements(a);
      assert x in b <==> x in Elements(b);
    }
    assert multiset(a) == multiset(b);
    OneSortedOrder(a, b, Leq);
  }

  /**
   Two arrays come out alike exactly when they have the same set of canonical forms; where the
   canonical form is injective, exactly when they have the same set of elements.
   */
  lemma AlikeIffSameSet<V(!new)>(a: seq<V>, b: seq<V>, canonical: V -> string, x: seq<V>, y: seq<V>)
    requires SetForm(x, a, canonical) && SetForm(y, b, canonical)
    ensures Map(x, canonical) == Map(y, canonical) <==>
            Elements(Map(a, canonical)) == Elements(Map(b, canonical))
    ensures Injective(canonical) ==> (x == y <==> Elements(a) == Elements(b))
  {
    DistinctForms(x, canonical);
    DistinctForms(y, canonical);
    SortedForms(x, canonical);
    SortedForms(y, canonical);
    if Elements(Map(a, canonical)) == Elements(Map(b, canonical)) {
      SortedOnceIsUnique(Map(x, canonical), Map(y, canonical));
    }
    if Injective(canonical) {
      hide SetForm, Once, Sorted;
      FormsOfSets(a, b, canonical);
      if Map(x, canonical) == Map(y, canonical) {
        SameForms(x, y, canonical);
      }
    }
  }

  lemma FormsOfSets<V(!new)>(a: seq<V>, b: seq<V>, canonical: V -> string)
    requires Injective(canonical)
    ensures Elements(Map(a, canonical)) == Elements(Map(b, canonical)) <==> Elements(a) == Elements(b)
  {
    FormIn(a, canonical);
    FormIn(b, canonical);
    if Elements(Map(a, canonical)) == Elements(Map(b, canonical)) {
      forall v
        ensures v in Elements(a) <==> v in Elements(b)
      {
        assert v in a <==> canonical(v) in Elements(Map(a, canonical));
        assert v in b <==> canonical(v) in Elements(Map(b, canonical));
      }
    }
    if Elements(a) == Elements(b) {
      forall c
        ensures c in Map(a, canonical) ==> c in Map(b, canonical)
        ensures c in Map(b, canonical) ==> c in Map(a, canonical)
      {
        if c in Map(a, canonical) {
          var i :| 0 <= i < |a| && Map(a, canonical)[i] == c;
          assert a[i] in Elements(b);
        }
        if c in Map(b, canonical) {
          var i :| 0 <= i < |b| && Map(b, canonical)[i] == c;
          assert b[i] in Elements(a);
        }
      }
    }
  }

  lemma FormIn<V(!new)>(s: seq<V>, canonical: V -> string)
    requires Injective(canonical)
    ensures forall v :: v in s <==> canonical(v) in Map(s, canonical)
  {
    forall v
      ensures v in s <==> canonical(v) in Map(s, canonical)
    {
      if v in s {
        var i :| 0 <= i < |s| && s[i] == v;
        assert Map(s, canonical)[i] == canonical(v);
      }
      if canonical(v) in Map(s, canonical) {
        var i :| 0 <= i < |s| && Map(s, canonical)[i] == canonical(v);
        assert s[i] == v;
      }
    }
  }

  // ---------------------------------------------------------------------------
  // Arrays whose order does not matter
  // ---------------------------------------------------------------------------

  /** Sorts in place by canonical form. */
  method SortArray<V(!new)>(arr: array<V>, canonical: V -> string)
    modifies arr
    ensures multiset(arr[..]) == multiset(old(arr[..])) && Sorted(arr[..], ByForm(canonical))
  {
    OrderByForm(canonical);
    var sorted := Sort(arr[..], ByForm(canonical));
    assert |sorted| == |multiset(sorted)| == |multiset(arr[..])| == arr.Length;
    for i := 0 to arr.Length
      invariant arr[..i] == sorted[..i]
    {
      arr[i] := sorted[i];
    }
    assert arr[..] == arr[..arr.Length] == sorted[..|sorted|] == sorted;
  }

  /**
   Sorted arrays have the same forms in the same places exactly when the arrays have the same
   forms equally often; where the canonical form is injective, they are equal exactly when
   one array is a permutation of the other.
   */
  lemma AlikeIffPermuted<V(!new)>(a: seq<V>, b: seq<V>, canonical: V -> string, x: seq<V>, y: seq<V>)
    requires multiset(x) == multiset(a) && Sorted(x, ByForm(canonical))
    requires multiset(y) == multiset(b) && Sorted(y, ByForm(canonical))
    ensures Map(x, canonical) == Map(y, canonical) <==>
            multiset(Map(a, canonical)) == multiset(Map(b, canonical))
    ensures Injective(canonical) ==> (x == y <==> multiset(a) == multiset(b))
  {
    MapPermutes(x, a, canonical);
    MapPermutes(y, b, canonical);
    SortedForms(x, canonical);
    SortedForms(y, canonical);
    LeqIsTotalOrder();
    if multiset(Map(x, canonical)) == multiset(Map(y, canonical)) {
      OneSortedOrder(Map(x, canonical), Map(y, canonical), Leq);
    }
    if Injective(canonical) && multiset(a) == multiset(b) {
      MapPermutes(a, b, canonical);
      SameForms(x, y, canonical);
    }
  }
}
