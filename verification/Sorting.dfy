/** Sorting by a key, as the library sort functions promise it. A stable sort never
    changes the subsequence of elements that share a key. */
module Sorting {

  ghost predicate TotalOrder<K(!new)>(leq: (K, K) -> bool) {
    && (forall a, b :: leq(a, b) || leq(b, a))
    && (forall a, b :: leq(a, b) && leq(b, a) ==> a == b)
    && (forall a, b, c :: leq(a, b) && leq(b, c) ==> leq(a, c))
  }

  ghost predicate Sorted<T, K>(s: seq<T>, key: T -> K, leq: (K, K) -> bool) {
    forall i, j :: 0 <= i < j < |s| ==> leq(key(s[i]), key(s[j]))
  }

  ghost predicate StrictlySorted<T, K>(s: seq<T>, key: T -> K, leq: (K, K) -> bool) {
    forall i, j :: 0 <= i < j < |s| ==> leq(key(s[i]), key(s[j])) && key(s[i]) != key(s[j])
  }

  /** The elements of s with key k, in the order of s. */
  function ByKey<T, K(==)>(s: seq<T>, key: T -> K, k: K): seq<T> {
    if |s| == 0 then []
    else (if key(s[0]) == k then [s[0]] else []) + ByKey(s[1..], key, k)
  }

  function Insert<T, K>(x: T, s: seq<T>, key: T -> K, leq: (K, K) -> bool): seq<T> {
    if |s| == 0 || leq(key(x), key(s[0])) then [x] + s
    else [s[0]] + Insert(x, s[1..], key, leq)
  }

  function StableSort<T, K>(s: seq<T>, key: T -> K, leq: (K, K) -> bool): seq<T> {
    if |s| == 0 then [] else Insert(s[0], StableSort(s[1..], key, leq), key, leq)
  }

  lemma {:induction false} ByKeyAppend<T, K>(a: seq<T>, b: seq<T>, key: T -> K, k: K)
    ensures ByKey(a + b, key, k) == ByKey(a, key, k) + ByKey(b, key, k)
  {
    if |a| == 0 {
      assert a + b == b;
    } else {
      var first := if key(a[0]) == k then [a[0]] else [];
      assert (a + b)[1..] == a[1..] + b;
      ByKeyAppend(a[1..], b, key, k);
      assert first + (ByKey(a[1..], key, k) + ByKey(b, key, k)) == (first + ByKey(a[1..], key, k)) + ByKey(b, key, k);
    }
  }

  lemma {:induction false} ByKeyMembers<T, K>(s: seq<T>, key: T -> K, k: K)
    ensures forall x :: x in ByKey(s, key, k) <==> x in s && key(x) == k
    ensures |ByKey(s, key, k)| == 0 <==> forall x :: x in s ==> key(x) != k
  {
    if |s| != 0 {
      ByKeyMembers(s[1..], key, k);
      assert s == [s[0]] + s[1..];
    }
  }

  lemma {:induction false} InsertMembers<T, K>(x: T, s: seq<T>, key: T -> K, leq: (K, K) -> bool)
    ensures multiset(Insert(x, s, key, leq)) == multiset(s) + multiset{x}
    ensures |Insert(x, s, key, leq)| == |s| + 1
  {
    if |s| == 0 || leq(key(x), key(s[0])) {
    } else {
      InsertMembers(x, s[1..], key, leq);
      assert s == [s[0]] + s[1..];
    }
  }

  lemma {:induction false} InsertSorted<T, K(!new)>(x: T, s: seq<T>, key: T -> K, leq: (K, K) -> bool)
    requires TotalOrder(leq) && Sorted(s, key, leq)
    ensures Sorted(Insert(x, s, key, leq), key, leq)
  {
    if |s| == 0 || leq(key(x), key(s[0])) {
    } else {
      InsertSorted(x, s[1..], key, leq);
      InsertMembers(x, s[1..], key, leq);
      var rest := Insert(x, s[1..], key, leq);
      forall i | 0 <= i < |rest| ensures leq(key(s[0]), key(rest[i])) {
        assert rest[i] in multiset(rest);
        if rest[i] != x {
          assert rest[i] in s[1..];
        }
      }
    }
  }

  lemma {:induction false} InsertStable<T, K>(x: T, s: seq<T>, key: T -> K, leq: (K, K) -> bool, k: K)
    requires leq(key(x), key(x))
    ensures ByKey(Insert(x, s, key, leq), key, k) == (if key(x) == k then [x] else []) + ByKey(s, key, k)
  {
    if |s| == 0 || leq(key(x), key(s[0])) {
      assert ([x] + s)[1..] == s;
    } else {
      InsertStable(x, s[1..], key, leq, k);
      var rest := Insert(x, s[1..], key, leq);
      assert ([s[0]] + rest)[1..] == rest;
    }
  }

  /** The three promises of a stable sort: ordered, the same elements, equal keys keep their order. */
  lemma {:induction false} StableSortCorrect<T, K(!new)>(s: seq<T>, key: T -> K, leq: (K, K) -> bool)
    requires TotalOrder(leq)
    ensures Sorted(StableSort(s, key, leq), key, leq)
    ensures multiset(StableSort(s, key, leq)) == multiset(s)
    ensures |StableSort(s, key, leq)| == |s|
    ensures forall k :: ByKey(StableSort(s, key, leq), key, k) == ByKey(s, key, k)
  {
    if |s| != 0 {
      var rest := StableSort(s[1..], key, leq);
      StableSortCorrect(s[1..], key, leq);
      InsertSorted(s[0], rest, key, leq);
      InsertMembers(s[0], rest, key, leq);
      assert s == [s[0]] + s[1..];
      forall k ensures ByKey(StableSort(s, key, leq), key, k) == ByKey(s, key, k) {
        InsertStable(s[0], rest, key, leq, k);
      }
    }
  }

  lemma {:induction false} InsertCounts<T, K, L>(x: T, s: seq<T>, key: T -> K, leq: (K, K) -> bool, other: T -> L, k: L)
    ensures |ByKey(Insert(x, s, key, leq), other, k)| == |ByKey(s, other, k)| + if other(x) == k then 1 else 0
  {
    if |s| == 0 || leq(key(x), key(s[0])) {
      assert ([x] + s)[1..] == s;
    } else {
      InsertCounts(x, s[1..], key, leq, other, k);
      var rest := Insert(x, s[1..], key, leq);
      assert ([s[0]] + rest)[1..] == rest;
    }
  }

  /** Sorting by one key keeps the number of elements under any other. */
  lemma {:induction false} SortCounts<T, K, L>(s: seq<T>, key: T -> K, leq: (K, K) -> bool, other: T -> L, k: L)
    ensures |ByKey(StableSort(s, key, leq), other, k)| == |ByKey(s, other, k)|
  {
    if |s| != 0 {
      SortCounts(s[1..], key, leq, other, k);
      InsertCounts(s[0], StableSort(s[1..], key, leq), key, leq, other, k);
    }
  }

  lemma SameMembers<T, K(!new)>(a: seq<T>, b: seq<T>, key: T -> K)
    requires forall k :: ByKey(a, key, k) == ByKey(b, key, k)
    ensures forall x :: x in a <==> x in b
  {
    forall x ensures x in a <==> x in b {
      ByKeyMembers(a, key, key(x));
      ByKeyMembers(b, key, key(x));
    }
  }

  /** An ordered sequence is determined by its subsequences of equal key: the order in
      which a map handed the elements over cannot show. */
  lemma {:induction false} SortedUnique<T, K(!new)>(a: seq<T>, b: seq<T>, key: T -> K, leq: (K, K) -> bool)
    requires TotalOrder(leq) && Sorted(a, key, leq) && Sorted(b, key, leq)
    requires forall k :: ByKey(a, key, k) == ByKey(b, key, k)
    ensures a == b
    decreases |a|
  {
    SameMembers(a, b, key);
    assert |a| != 0 ==> a[0] in a;
    assert |b| != 0 ==> b[0] in b;
    if |a| != 0 {
      assert a[0] in b && b[0] in a;
      assert key(a[0]) == key(b[0]);
      assert a[0] == ByKey(a, key, key(a[0]))[0] == ByKey(b, key, key(a[0]))[0] == b[0];
      forall k ensures ByKey(a[1..], key, k) == ByKey(b[1..], key, k) {
        var first := if key(a[0]) == k then [a[0]] else [];
        assert ByKey(a, key, k) == first + ByKey(a[1..], key, k);
        assert ByKey(b, key, k) == first + ByKey(b[1..], key, k);
        assert (first + ByKey(a[1..], key, k))[|first|..] == (first + ByKey(b[1..], key, k))[|first|..];
      }
      SortedUnique(a[1..], b[1..], key, leq);
      assert a == [a[0]] + a[1..] && b == [b[0]] + b[1..];
    }
  }

  ghost predicate DistinctKeys<T, K>(s: seq<T>, key: T -> K) {
    forall i, j :: 0 <= i < j < |s| ==> key(s[i]) != key(s[j])
  }

  lemma {:induction false} DistinctSingle<T, K>(s: seq<T>, key: T -> K, k: K)
    requires DistinctKeys(s, key)
    ensures |ByKey(s, key, k)| <= 1
  {
    if |s| != 0 {
      DistinctSingle(s[1..], key, k);
      ByKeyMembers(s[1..], key, k);
    }
  }

  lemma PairCounted<T, K>(s: seq<T>, key: T -> K, i: nat, j: nat)
    requires i < j < |s| && key(s[i]) == key(s[j])
    ensures |ByKey(s, key, key(s[i]))| >= 2
  {
    var k := key(s[i]);
    assert s == s[..j] + s[j..];
    ByKeyAppend(s[..j], s[j..], key, k);
    ByKeyMembers(s[..j], key, k);
    ByKeyMembers(s[j..], key, k);
    assert s[..j][i] == s[i] && s[j..][0] == s[j];
  }

  lemma SingleDistinct<T, K(!new)>(s: seq<T>, key: T -> K)
    requires forall k :: |ByKey(s, key, k)| <= 1
    ensures DistinctKeys(s, key)
  {
    forall i, j | 0 <= i < j < |s| ensures key(s[i]) != key(s[j]) {
      var k := key(s[i]);
      if k == key(s[j]) {
        PairCounted(s, key, i, j);
      }
    }
  }

  lemma SortDistinct<T, K(!new)>(s: seq<T>, key: T -> K, leq: (K, K) -> bool)
    requires TotalOrder(leq) && DistinctKeys(s, key)
    ensures StrictlySorted(StableSort(s, key, leq), key, leq)
    ensures forall x :: x in StableSort(s, key, leq) <==> x in s
  {
    hide StableSort;
    StableSortCorrect(s, key, leq);
    forall k ensures |ByKey(StableSort(s, key, leq), key, k)| <= 1 {
      DistinctSingle(s, key, k);
    }
    SingleDistinct(StableSort(s, key, leq), key);
    SameMembers(StableSort(s, key, leq), s, key);
  }

  /** With one element per key, sorting gives the one strictly ascending list of the elements. */
  lemma {:induction false} StrictlySortedUnique<T, K(!new)>(a: seq<T>, b: seq<T>, key: T -> K, leq: (K, K) -> bool)
    requires TotalOrder(leq) && StrictlySorted(a, key, leq) && StrictlySorted(b, key, leq)
    requires forall x :: x in a <==> x in b
    ensures a == b
    decreases |a|
  {
    assert |a| != 0 ==> a[0] in a;
    assert |b| != 0 ==> b[0] in b;
    if |a| != 0 {
      assert a[0] in b && b[0] in a;
      assert a[0] == b[0];
      assert a == [a[0]] + a[1..] && b == [b[0]] + b[1..];
      forall x ensures x in a[1..] <==> x in b[1..] {
        assert x in a <==> x == a[0] || x in a[1..];
        assert x in b <==> x == b[0] || x in b[1..];
      }
      StrictlySortedUnique(a[1..], b[1..], key, leq);
    }
  }
}
