/**
  sort.SliceStable as a function, and what characterises it: the result is sorted and keeps, for
  every key, the elements with that key in their original order.
 */
module Sorting {
  import opened Sequences

  predicate SortedBy<T>(s: seq<T>, key: T -> int) {
    forall i, j :: 0 <= i < j < |s| ==> key(s[i]) <= key(s[j])
  }

  function Insert<T>(x: T, s: seq<T>, key: T -> int): seq<T> {
    if s == [] || key(x) <= key(s[0]) then [x] + s else [s[0]] + Insert(x, s[1..], key)
  }

  function StableSort<T>(s: seq<T>, key: T -> int): seq<T> {
    if s == [] then [] else Insert(s[0], StableSort(s[1..], key), key)
  }

  function Filter<T>(s: seq<T>, p: T -> bool): seq<T> {
    if s == [] then [] else (if p(s[0]) then [s[0]] else []) + Filter(s[1..], p)
  }

  /** The elements with key k, in order. */
  ghost function WithKey<T>(s: seq<T>, key: T -> int, k: int): seq<T> {
    if s == [] then [] else (if key(s[0]) == k then [s[0]] else []) + WithKey(s[1..], key, k)
  }

  // ---------- the sort is sorted and stable ----------

  lemma {:induction false} InsertKeepsMultiset<T>(x: T, s: seq<T>, key: T -> int)
    ensures multiset(Insert(x, s, key)) == multiset(s) + multiset{x}
  {
    if s != [] && key(x) > key(s[0]) {
      InsertKeepsMultiset(x, s[1..], key);
      assert s == [s[0]] + s[1..];
    }
  }

  lemma {:induction false} SortKeepsMultiset<T>(s: seq<T>, key: T -> int)
    ensures multiset(StableSort(s, key)) == multiset(s)
  {
    if s != [] {
      SortKeepsMultiset(s[1..], key);
      InsertKeepsMultiset(s[0], StableSort(s[1..], key), key);
      assert s == [s[0]] + s[1..];
    }
  }

  lemma SortMembers<T>(s: seq<T>, key: T -> int)
    ensures |StableSort(s, key)| == |s|
    ensures forall x :: x in StableSort(s, key) <==> x in s
  {
    SortKeepsMultiset(s, key);
    assert |multiset(StableSort(s, key))| == |multiset(s)|;
    forall x ensures x in StableSort(s, key) <==> x in s {
      assert x in StableSort(s, key) <==> x in multiset(StableSort(s, key));
      assert x in s <==> x in multiset(s);
    }
  }

  lemma {:induction false} InsertSorted<T>(x: T, s: seq<T>, key: T -> int)
    requires SortedBy(s, key)
    ensures SortedBy(Insert(x, s, key), key)
  {
    if s != [] && key(x) > key(s[0]) {
      var r := Insert(x, s[1..], key);
      InsertSorted(x, s[1..], key);
      InsertKeepsMultiset(x, s[1..], key);
      forall i | 0 <= i < |r| ensures key(s[0]) <= key(r[i]) {
        assert r[i] in multiset(r);
        assert r[i] == x || r[i] in s[1..];
      }
    }
  }

  lemma {:induction false} SortIsSorted<T>(s: seq<T>, key: T -> int)
    ensures SortedBy(StableSort(s, key), key)
  {
    if s != [] {
      SortIsSorted(s[1..], key);
      InsertSorted(s[0], StableSort(s[1..], key), key);
    }
  }

  lemma WithKeyHead<T>(s: seq<T>, key: T -> int, k: int)
    requires s != []
    ensures key(s[0]) != k ==> WithKey(s, key, k) == WithKey(s[1..], key, k)
    ensures key(s[0]) == k ==> WithKey(s, key, k) == [s[0]] + WithKey(s[1..], key, k)
  {
    assert [] + WithKey(s[1..], key, k) == WithKey(s[1..], key, k);
  }

  lemma {:induction false} InsertStable<T>(x: T, s: seq<T>, key: T -> int, k: int)
    ensures key(x) != k ==> WithKey(Insert(x, s, key), key, k) == WithKey(s, key, k)
    ensures key(x) == k ==> WithKey(Insert(x, s, key), key, k) == [x] + WithKey(s, key, k)
  {
    var r := Insert(x, s, key);
    WithKeyHead(r, key, k);
    if s != [] && key(x) > key(s[0]) {
      InsertStable(x, s[1..], key, k);
      WithKeyHead(s, key, k);
      assert r[1..] == Insert(x, s[1..], key);
    } else {
      assert r[1..] == s;
    }
  }

  lemma {:induction false} SortIsStable<T>(s: seq<T>, key: T -> int, k: int)
    ensures WithKey(StableSort(s, key), key, k) == WithKey(s, key, k)
  {
    if s != [] {
      SortIsStable(s[1..], key, k);
      InsertStable(s[0], StableSort(s[1..], key), key, k);
      WithKeyHead(s, key, k);
    }
  }

  // ---------- and these two properties determine it ----------

  lemma {:induction false} WithKeyMembers<T>(s: seq<T>, key: T -> int, k: int)
    ensures forall x :: x in WithKey(s, key, k) <==> x in s && key(x) == k
  {
    if s != [] {
      WithKeyMembers(s[1..], key, k);
      assert s == [s[0]] + s[1..];
    }
  }

  /** The least key of two sequences with the same per-key contents is at the head of both. */
  lemma {:induction false} SortedUnique<T(!new)>(a: seq<T>, b: seq<T>, key: T -> int)
    requires SortedBy(a, key) && SortedBy(b, key)
    requires forall k :: WithKey(a, key, k) == WithKey(b, key, k)
    ensures a == b
    decreases |a|
  {
    SameMembers(a, b, key);
    assert (a != [] ==> a[0] in a) && (b != [] ==> b[0] in b);
    if a != [] && b != [] {
      SameHead(a, b, key);
      forall j ensures WithKey(a[1..], key, j) == WithKey(b[1..], key, j) {
        SameTail(a, b, key, j);
      }
      SortedUnique(a[1..], b[1..], key);
      assert a == [a[0]] + a[1..] && b == [b[0]] + b[1..];
    }
  }

  lemma SameHead<T(!new)>(a: seq<T>, b: seq<T>, key: T -> int)
    requires SortedBy(a, key) && SortedBy(b, key) && a != [] && b != [] && a[0] in b && b[0] in a
    requires forall k :: WithKey(a, key, k) == WithKey(b, key, k)
    ensures a[0] == b[0]
  {
    LeastKeys(a, b, key);
    var k := key(a[0]);
    WithKeyHead(a, key, k);
    WithKeyHead(b, key, k);
    assert WithKey(a, key, k) == WithKey(b, key, k);
    assert WithKey(a, key, k)[0] == a[0] && WithKey(b, key, k)[0] == b[0];
  }

  lemma SameTail<T>(a: seq<T>, b: seq<T>, key: T -> int, j: int)
    requires a != [] && b != [] && a[0] == b[0] && WithKey(a, key, j) == WithKey(b, key, j)
    ensures WithKey(a[1..], key, j) == WithKey(b[1..], key, j)
  {
    WithKeyHead(a, key, j);
    WithKeyHead(b, key, j);
    if key(a[0]) == j {
      assert WithKey(a[1..], key, j) == WithKey(a, key, j)[1..];
      assert WithKey(b[1..], key, j) == WithKey(b, key, j)[1..];
    }
  }

  lemma LeastKeys<T>(a: seq<T>, b: seq<T>, key: T -> int)
    requires SortedBy(a, key) && SortedBy(b, key) && a != [] && b != [] && a[0] in b && b[0] in a
    ensures key(a[0]) == key(b[0])
  {
  }

  lemma SameMembers<T(!new)>(a: seq<T>, b: seq<T>, key: T -> int)
    requires forall k :: WithKey(a, key, k) == WithKey(b, key, k)
    ensures forall x :: x in a <==> x in b
  {
    forall x ensures x in a <==> x in b {
      WithKeyMembers(a, key, key(x));
      WithKeyMembers(b, key, key(x));
      assert WithKey(a, key, key(x)) == WithKey(b, key, key(x));
    }
  }

  /** A sorted sequence with the per-key contents of s is the stable sort of s. */
  lemma StableSortIs<T(!new)>(r: seq<T>, s: seq<T>, key: T -> int)
    requires SortedBy(r, key) && forall k :: WithKey(r, key, k) == WithKey(s, key, k)
    ensures r == StableSort(s, key)
  {
    SortIsSorted(s, key);
    forall k ensures WithKey(r, key, k) == WithKey(StableSort(s, key), key, k) {
      SortIsStable(s, key, k);
    }
    SortedUnique(r, StableSort(s, key), key);
  }

  lemma SortOfSorted<T(!new)>(s: seq<T>, key: T -> int)
    requires SortedBy(s, key)
    ensures StableSort(s, key) == s
  {
    StableSortIs(s, s, key);
  }

  // ---------- filters ----------

  lemma {:induction false} FilterMembers<T>(s: seq<T>, p: T -> bool)
    ensures forall x :: x in Filter(s, p) <==> x in s && p(x)
  {
    if s != [] {
      FilterMembers(s[1..], p);
      assert s == [s[0]] + s[1..];
    }
  }

  lemma {:induction false} FilterConcat<T>(a: seq<T>, b: seq<T>, p: T -> bool)
    ensures Filter(a + b, p) == Filter(a, p) + Filter(b, p)
  {
    if a == [] {
      assert a + b == b && [] + Filter(b, p) == Filter(b, p);
    } else {
      FilterConcat(a[1..], b, p);
      assert (a + b)[1..] == a[1..] + b;
      var x := if p(a[0]) then [a[0]] else [];
      assert x + (Filter(a[1..], p) + Filter(b, p)) == x + Filter(a[1..], p) + Filter(b, p);
    }
  }

  lemma {:induction false} WithKeyConcat<T>(a: seq<T>, b: seq<T>, key: T -> int, k: int)
    ensures WithKey(a + b, key, k) == WithKey(a, key, k) + WithKey(b, key, k)
  {
    if a == [] {
      ConcatEmpty(b);
      ConcatEmpty(WithKey(b, key, k));
    } else {
      WithKeyConcat(a[1..], b, key, k);
      HeadOfConcat(a, b);
      ConcatAssoc(if key(a[0]) == k then [a[0]] else [], WithKey(a[1..], key, k), WithKey(b, key, k));
    }
  }

  lemma {:induction false} FilterWithKey<T>(s: seq<T>, p: T -> bool, key: T -> int, k: int)
    ensures WithKey(Filter(s, p), key, k) == Filter(WithKey(s, key, k), p)
  {
    if s != [] {
      FilterWithKey(s[1..], p, key, k);
      var rest := Filter(s[1..], p);
      assert ([s[0]] + rest)[1..] == rest && [] + rest == rest;
      var kept := WithKey(s[1..], key, k);
      assert ([s[0]] + kept)[1..] == kept && [] + kept == kept;
    }
  }

  lemma {:induction false} FilterSorted<T>(s: seq<T>, p: T -> bool, key: T -> int)
    requires SortedBy(s, key)
    ensures SortedBy(Filter(s, p), key)
  {
    if s != [] {
      FilterSorted(s[1..], p, key);
      FilterBound(s[1..], p, key, key(s[0]));
    }
  }

  lemma {:induction false} FilterBound<T>(s: seq<T>, p: T -> bool, key: T -> int, low: int)
    requires forall i :: 0 <= i < |s| ==> low <= key(s[i])
    ensures forall i :: 0 <= i < |Filter(s, p)| ==> low <= key(Filter(s, p)[i])
  {
    if s != [] { FilterBound(s[1..], p, key, low); }
  }

  /** Filtering and stable sorting commute. */
  lemma FilterSort<T(!new)>(s: seq<T>, p: T -> bool, key: T -> int)
    ensures Filter(StableSort(s, key), p) == StableSort(Filter(s, p), key)
  {
    var r := Filter(StableSort(s, key), p);
    SortIsSorted(s, key);
    FilterSorted(StableSort(s, key), p, key);
    forall k ensures WithKey(r, key, k) == WithKey(Filter(s, p), key, k) {
      FilterWithKey(StableSort(s, key), p, key, k);
      FilterWithKey(s, p, key, k);
      SortIsStable(s, key, k);
    }
    StableSortIs(r, Filter(s, p), key);
  }

  lemma {:induction false} FilterAll<T>(s: seq<T>, p: T -> bool)
    requires forall i :: 0 <= i < |s| ==> p(s[i])
    ensures Filter(s, p) == s
  {
    if s != [] {
      FilterAll(s[1..], p);
      assert s == [s[0]] + s[1..];
    }
  }

  lemma {:induction false} FilterNone<T>(s: seq<T>, p: T -> bool)
    requires forall i :: 0 <= i < |s| ==> !p(s[i])
    ensures Filter(s, p) == []
  {
    if s != [] { FilterNone(s[1..], p); }
  }

  /** Sorting a concatenation whose parts are already in key order sorts the parts. */
  lemma SortConcat<T(!new)>(a: seq<T>, b: seq<T>, key: T -> int)
    requires forall x, y :: x in a && y in b ==> key(x) <= key(y)
    ensures StableSort(a + b, key) == StableSort(a, key) + StableSort(b, key)
  {
    var p, q := StableSort(a, key), StableSort(b, key);
    SortIsSorted(a, key);
    SortIsSorted(b, key);
    SortMembers(a, key);
    SortMembers(b, key);
    forall i, j | 0 <= i < j < |p + q| ensures key((p + q)[i]) <= key((p + q)[j]) {
      if i < |p| <= j {
        assert p[i] in a && q[j - |p|] in b;
      }
    }
    forall k ensures WithKey(p + q, key, k) == WithKey(a + b, key, k) {
      WithKeyConcat(p, q, key, k);
      WithKeyConcat(a, b, key, k);
      SortIsStable(a, key, k);
      SortIsStable(b, key, k);
    }
    StableSortIs(p + q, a + b, key);
  }
}
