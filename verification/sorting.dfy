/** Python's stable `list.sort(key=...)` and `min(..., key=...)`. */
module Sorting {
  function Insert<T>(x: T, s: seq<T>, key: T -> real): seq<T> {
    if s == [] || key(x) <= key(s[0]) then [x] + s else [s[0]] + Insert(x, s[1..], key)
  }

  function SortBy<T>(s: seq<T>, key: T -> real): seq<T> {
    if s == [] then [] else Insert(s[0], SortBy(s[1..], key), key)
  }

  /** The first element whose key is least. */
  function FirstMin<T>(s: seq<T>, key: T -> real): (m: T)
    requires s != []
    ensures m in s
    ensures forall x :: x in s ==> key(m) <= key(x)
  {
    if |s| == 1 then s[0]
    else
      var rest := FirstMin(s[1..], key);
      if key(s[0]) <= key(rest) then s[0] else rest
  }

  ghost predicate Sorted<T>(s: seq<T>, key: T -> real) {
    forall i, j :: 0 <= i < j < |s| ==> key(s[i]) <= key(s[j])
  }

  ghost predicate StrictlySorted<T>(s: seq<T>, key: T -> real) {
    forall i, j :: 0 <= i < j < |s| ==> key(s[i]) < key(s[j])
  }

  ghost predicate DistinctKeys<T>(s: seq<T>, key: T -> real) {
    forall i, j :: 0 <= i < j < |s| ==> key(s[i]) != key(s[j])
  }

  /** The elements with key v, in order. */
  ghost function WithKey<T>(s: seq<T>, key: T -> real, v: real): seq<T> {
    if s == [] then [] else (if key(s[0]) == v then [s[0]] else []) + WithKey(s[1..], key, v)
  }

  lemma {:induction false} InsertContents<T>(x: T, s: seq<T>, key: T -> real)
    ensures multiset(Insert(x, s, key)) == multiset([x] + s)
  {
    if s != [] && key(x) > key(s[0]) {
      InsertContents(x, s[1..], key);
      assert s == [s[0]] + s[1..];
    }
  }

  lemma {:induction false} SortContents<T>(s: seq<T>, key: T -> real)
    ensures multiset(SortBy(s, key)) == multiset(s)
    ensures |SortBy(s, key)| == |s|
    ensures forall x :: x in SortBy(s, key) <==> x in s
  {
    if s != [] {
      SortContents(s[1..], key);
      InsertContents(s[0], SortBy(s[1..], key), key);
      assert s == [s[0]] + s[1..];
    }
    assert |multiset(SortBy(s, key))| == |multiset(s)|;
    assert forall x :: x in SortBy(s, key) <==> x in multiset(SortBy(s, key));
  }

  lemma {:induction false} InsertMember<T>(x: T, s: seq<T>, key: T -> real, y: T)
    ensures y in Insert(x, s, key) <==> y == x || y in s
  {
    if s != [] && key(x) > key(s[0]) {
      assert s == [s[0]] + s[1..];
      InsertMember(x, s[1..], key, y);
    }
  }

  lemma ConsSorted<T>(h: T, t: seq<T>, key: T -> real)
    requires Sorted(t, key) && forall y :: y in t ==> key(h) <= key(y)
    ensures Sorted([h] + t, key)
  {
    assert forall i :: 0 <= i < |t| ==> t[i] in t;
  }

  lemma TailSorted<T>(s: seq<T>, key: T -> real)
    requires s != [] && Sorted(s, key)
    ensures Sorted(s[1..], key) && forall y :: y in s ==> key(s[0]) <= key(y)
  {
  }

  lemma {:induction false} InsertSorted<T>(x: T, s: seq<T>, key: T -> real)
    requires Sorted(s, key)
    ensures Sorted(Insert(x, s, key), key)
  {
    if s != [] {
      TailSorted(s, key);
      if key(x) <= key(s[0]) {
        ConsSorted(x, s, key);
      } else {
        InsertSorted(x, s[1..], key);
        forall y | y in Insert(x, s[1..], key)
          ensures key(s[0]) <= key(y)
        {
          InsertMember(x, s[1..], key, y);
        }
        ConsSorted(s[0], Insert(x, s[1..], key), key);
      }
    }
  }

  lemma {:induction false} SortSorts<T>(s: seq<T>, key: T -> real)
    ensures Sorted(SortBy(s, key), key)
  {
    if s != [] {
      SortSorts(s[1..], key);
      InsertSorted(s[0], SortBy(s[1..], key), key);
    }
  }

  lemma {:induction false} WithKeyConcat<T>(a: seq<T>, b: seq<T>, key: T -> real, v: real)
    ensures WithKey(a + b, key, v) == WithKey(a, key, v) + WithKey(b, key, v)
  {
    if a == [] {
      assert a + b == b;
    } else {
      var rest, head := a[1..], if key(a[0]) == v then [a[0]] else [];
      assert (a + b)[0] == a[0] && (a + b)[1..] == rest + b;
      WithKeyConcat(rest, b, key, v);
      assert head + (WithKey(rest, key, v) + WithKey(b, key, v)) == (head + WithKey(rest, key, v)) + WithKey(b, key, v);
    }
  }

  lemma Exchange<T>(a: seq<T>, b: seq<T>, c: seq<T>)
    requires a == [] || b == []
    ensures a + (b + c) == b + (a + c)
  {
  }

  lemma {:induction false} InsertStable<T>(x: T, s: seq<T>, key: T -> real, v: real)
    ensures WithKey(Insert(x, s, key), key, v) == WithKey([x] + s, key, v)
  {
    if s != [] && key(x) > key(s[0]) {
      var rest := s[1..];
      assert s == [s[0]] + rest;
      WithKeyConcat([x], s, key, v);
      WithKeyConcat([x], rest, key, v);
      WithKeyConcat([s[0]], rest, key, v);
      WithKeyConcat([s[0]], Insert(x, rest, key), key, v);
      Exchange(WithKey([x], key, v), WithKey([s[0]], key, v), WithKey(rest, key, v));
      InsertStable(x, rest, key, v);
    }
  }

  /** Elements with equal keys keep their order. */
  lemma {:induction false} SortStable<T>(s: seq<T>, key: T -> real, v: real)
    ensures WithKey(SortBy(s, key), key, v) == WithKey(s, key, v)
  {
    if s != [] {
      SortStable(s[1..], key, v);
      var t := SortBy(s[1..], key);
      InsertStable(s[0], t, key, v);
      WithKeyConcat([s[0]], t, key, v);
      WithKeyConcat([s[0]], s[1..], key, v);
      assert s == [s[0]] + s[1..];
    }
  }

  /** The head of the sorted list is what `min` returns, also among ties. */
  lemma {:induction false} SortHeadIsFirstMin<T>(s: seq<T>, key: T -> real)
    requires s != []
    ensures SortBy(s, key) != [] && SortBy(s, key)[0] == FirstMin(s, key)
  {
    if |s| > 1 {
      SortHeadIsFirstMin(s[1..], key);
    }
  }

  /** A sorted list is left alone. */
  lemma {:induction false} SortOfSorted<T>(s: seq<T>, key: T -> real)
    requires Sorted(s, key)
    ensures SortBy(s, key) == s
  {
    if s != [] {
      SortOfSorted(s[1..], key);
    }
  }

  /** Distinct keys sort strictly. */
  lemma {:induction false} SortStrict<T>(s: seq<T>, key: T -> real)
    requires DistinctKeys(s, key)
    ensures StrictlySorted(SortBy(s, key), key)
  {
    if s != [] {
      SortStrict(s[1..], key);
      SortContents(s[1..], key);
      var t := SortBy(s[1..], key);
      forall y | y in t
        ensures key(y) != key(s[0])
      {
        assert y in multiset(t);
        var i :| 1 <= i < |s| && s[i] == y;
      }
      InsertStrict(s[0], t, key);
    }
  }

  lemma ConsStrict<T>(h: T, t: seq<T>, key: T -> real)
    requires StrictlySorted(t, key) && forall y :: y in t ==> key(h) < key(y)
    ensures StrictlySorted([h] + t, key)
  {
    assert forall i :: 0 <= i < |t| ==> t[i] in t;
  }

  lemma TailStrict<T>(s: seq<T>, key: T -> real)
    requires s != [] && StrictlySorted(s, key)
    ensures StrictlySorted(s[1..], key) && forall y :: y in s[1..] ==> key(s[0]) < key(y)
  {
  }

  lemma {:induction false} InsertStrict<T>(x: T, s: seq<T>, key: T -> real)
    requires StrictlySorted(s, key)
    requires forall y :: y in s ==> key(y) != key(x)
    ensures StrictlySorted(Insert(x, s, key), key)
  {
    if s != [] {
      TailStrict(s, key);
      assert s == [s[0]] + s[1..];
      if key(x) <= key(s[0]) {
        assert s[0] in s;
        ConsStrict(x, s, key);
      } else {
        InsertStrict(x, s[1..], key);
        forall y | y in Insert(x, s[1..], key)
          ensures key(s[0]) < key(y)
        {
          InsertMember(x, s[1..], key, y);
        }
        ConsStrict(s[0], Insert(x, s[1..], key), key);
      }
    }
  }

  /** A set of elements has at most one strictly sorted listing. */
  lemma {:induction false} StrictlySortedUnique<T>(a: seq<T>, b: seq<T>, key: T -> real)
    requires StrictlySorted(a, key) && StrictlySorted(b, key)
    requires forall x :: x in a <==> x in b
    ensures a == b
  {
    if a == [] {
      assert forall i :: 0 <= i < |b| ==> b[i] in a;
    } else {
      assert a[0] in b;
      assert b[0] in a;
      assert a[0] == b[0];
      forall x
        ensures x in a[1..] <==> x in b[1..]
      {
        assert x in a[1..] ==> key(x) > key(a[0]) && x in a;
        assert x in b[1..] ==> key(x) > key(b[0]) && x in b;
      }
      StrictlySortedUnique(a[1..], b[1..], key);
    }
  }
}
