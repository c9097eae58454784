/**
 * Python's `sorted(xs, key=..., reverse=...)` and `list.sort`: a stable sort
 * by a key under a strict total order on keys. `reverse=True` keeps
 * stability, so it is the same sort under the reversed order.
 */
module Sorting {

  ghost predicate StrictTotalOrder<K(!new)>(lt: (K, K) -> bool)
  {
    && (forall a :: !lt(a, a))
    && (forall a, b, c :: lt(a, b) && lt(b, c) ==> lt(a, c))
    && (forall a, b :: a != b ==> lt(a, b) || lt(b, a))
  }

  /** The order that `reverse=True` sorts by. */
  function Reverse<K>(lt: (K, K) -> bool): (K, K) -> bool
  {
    (a, b) => lt(b, a)
  }

  lemma ReverseIsStrictTotalOrder<K(!new)>(lt: (K, K) -> bool)
    requires StrictTotalOrder(lt)
    ensures StrictTotalOrder(Reverse(lt))
  {
    var r := Reverse(lt);
    forall a, b, c | r(a, b) && r(b, c) ensures r(a, c) {
      assert lt(c, b) && lt(b, a);
    }
  }

  /** Keys never decrease along `s` (no later element has a smaller key). */
  ghost predicate SortedBy<T, K>(s: seq<T>, key: T -> K, lt: (K, K) -> bool)
  {
    forall i, j :: 0 <= i < j < |s| ==> !lt(key(s[j]), key(s[i]))
  }

  /** The elements of `s` whose key is `k`, in their order in `s`. */
  function KeyFilter<T, K(==)>(s: seq<T>, key: T -> K, k: K): seq<T>
  {
    if s == [] then []
    else (if key(s[0]) == k then [s[0]] else []) + KeyFilter(s[1..], key, k)
  }

  /** Inserts `x` in front of the first element whose key is not below x's. */
  function Insert<T(==), K>(x: T, s: seq<T>, key: T -> K, lt: (K, K) -> bool): seq<T>
  {
    if s == [] then [x]
    else
      if lt(key(s[0]), key(x)) then [s[0]] + Insert(x, s[1..], key, lt)
      else [x] + s
  }

  /** Stable insertion sort: the earlier of two elements with equal keys stays first. */
  function StableSort<T(==), K>(s: seq<T>, key: T -> K, lt: (K, K) -> bool): seq<T>
  {
    if s == [] then []
    else
      Insert(s[0], StableSort(s[1..], key, lt), key, lt)
  }

  lemma {:induction false} InsertPermutation<T, K>(x: T, s: seq<T>, key: T -> K, lt: (K, K) -> bool)
    ensures multiset(Insert(x, s, key, lt)) == multiset(s) + multiset{x}
  {
    if s != [] {
      assert s == [s[0]] + s[1..];
      if lt(key(s[0]), key(x)) {
        InsertPermutation(x, s[1..], key, lt);
      }
    }
  }

  /** The sort only reorders: the result holds the same elements, as often. */
  lemma {:induction false} StableSortPermutation<T, K>(s: seq<T>, key: T -> K, lt: (K, K) -> bool)
    ensures multiset(StableSort(s, key, lt)) == multiset(s)
  {
    if s != [] {
      StableSortPermutation(s[1..], key, lt);
      InsertPermutation(s[0], StableSort(s[1..], key, lt), key, lt);
      assert s == [s[0]] + s[1..];
    }
  }

  lemma {:induction false} InsertSorted<T, K(!new)>(x: T, s: seq<T>, key: T -> K, lt: (K, K) -> bool)
    requires StrictTotalOrder(lt)
    requires SortedBy(s, key, lt)
    ensures SortedBy(Insert(x, s, key, lt), key, lt)
  {
    if s != [] && lt(key(s[0]), key(x)) {
      var t := s[1..];
      InsertSorted(x, t, key, lt);
      assert forall m :: 0 <= m < |t| ==> !lt(key(t[m]), key(s[0])) by {
        forall m | 0 <= m < |t| ensures !lt(key(t[m]), key(s[0])) {
          assert t[m] == s[m + 1];
        }
      }
      InsertAbove(x, t, key, lt, key(s[0]));
      var r := Insert(x, t, key, lt);
      var out := [s[0]] + r;
      forall i, j | 0 <= i < j < |out| ensures !lt(key(out[j]), key(out[i])) {
        assert out[j] == r[j - 1];
        if i > 0 {
          assert out[i] == r[i - 1];
        }
      }
    } else if s != [] {
      forall j | 0 <= j < |s| ensures !lt(key(s[j]), key(x)) {
        if j > 0 {
          assert !lt(key(s[j]), key(s[0]));
        }
      }
    }
  }

  /** Inserting an element not below `b` into elements not below `b` leaves none below `b`. */
  lemma InsertAbove<T, K>(x: T, t: seq<T>, key: T -> K, lt: (K, K) -> bool, b: K)
    requires !lt(key(x), b)
    requires forall m :: 0 <= m < |t| ==> !lt(key(t[m]), b)
    ensures forall j :: 0 <= j < |Insert(x, t, key, lt)| ==> !lt(key(Insert(x, t, key, lt)[j]), b)
  {
    InsertPermutation(x, t, key, lt);
    var r := Insert(x, t, key, lt);
    forall j | 0 <= j < |r| ensures !lt(key(r[j]), b) {
      assert r[j] in multiset(r);
      if r[j] != x {
        assert r[j] in multiset(t);
        var m :| 0 <= m < |t| && t[m] == r[j];
      }
    }
  }

  lemma {:induction false} StableSortSorted<T, K(!new)>(s: seq<T>, key: T -> K, lt: (K, K) -> bool)
    requires StrictTotalOrder(lt)
    ensures SortedBy(StableSort(s, key, lt), key, lt)
  {
    if s != [] {
      StableSortSorted(s[1..], key, lt);
      InsertSorted(s[0], StableSort(s[1..], key, lt), key, lt);
    }
  }

  /** The filter keeps exactly the elements with key `k`. */
  lemma {:induction false} KeyFilterMembers<T, K>(s: seq<T>, key: T -> K, k: K)
    ensures forall i :: 0 <= i < |KeyFilter(s, key, k)| ==>
      KeyFilter(s, key, k)[i] in s && key(KeyFilter(s, key, k)[i]) == k
  {
    if s != [] {
      KeyFilterMembers(s[1..], key, k);
      var t := KeyFilter(s[1..], key, k);
      forall i | 0 <= i < |t| ensures t[i] in s {
        var m :| 0 <= m < |s[1..]| && s[1..][m] == t[i];
        assert s[m + 1] == t[i];
      }
    }
  }

  lemma {:induction false} KeyFilterContains<T, K>(s: seq<T>, key: T -> K, i: nat)
    requires i < |s|
    ensures s[i] in KeyFilter(s, key, key(s[i]))
  {
    if i > 0 {
      KeyFilterContains(s[1..], key, i - 1);
    }
  }

  lemma KeyFilterCons<T, K>(a: T, t: seq<T>, key: T -> K, k: K)
    ensures KeyFilter([a] + t, key, k) == (if key(a) == k then [a] else []) + KeyFilter(t, key, k)
  {
    assert ([a] + t)[0] == a && ([a] + t)[1..] == t;
  }

  lemma {:induction false} InsertKeyFilter<T, K>(x: T, s: seq<T>, key: T -> K, lt: (K, K) -> bool, k: K)
    requires forall a :: !lt(a, a)
    ensures KeyFilter(Insert(x, s, key, lt), key, k)
         == (if key(x) == k then [x] else []) + KeyFilter(s, key, k)
  {
    if s == [] {
      KeyFilterCons(x, [], key, k);
    } else if lt(key(s[0]), key(x)) {
      InsertKeyFilter(x, s[1..], key, lt, k);
      var r := Insert(x, s[1..], key, lt);
      assert Insert(x, s, key, lt) == [s[0]] + r;
      KeyFilterCons(s[0], r, key, k);
      assert s == [s[0]] + s[1..];
      KeyFilterCons(s[0], s[1..], key, k);
      var rest := KeyFilter(s[1..], key, k);
      var h0 := if key(s[0]) == k then [s[0]] else [];
      assert KeyFilter(s, key, k) == h0 + rest;
      assert KeyFilter(Insert(x, s, key, lt), key, k) == h0 + KeyFilter(r, key, k);
      if key(x) == k {
        assert key(s[0]) != k;
        assert KeyFilter(r, key, k) == [x] + rest;
        assert h0 + KeyFilter(r, key, k) == [x] + (h0 + rest);
      } else {
        assert KeyFilter(r, key, k) == rest;
      }
    } else {
      KeyFilterCons(x, s, key, k);
    }
  }

  /** Stability: for every key, the elements with that key keep their input order. */
  lemma {:induction false} StableSortKeyFilter<T, K>(s: seq<T>, key: T -> K, lt: (K, K) -> bool, k: K)
    requires forall a :: !lt(a, a)
    ensures KeyFilter(StableSort(s, key, lt), key, k) == KeyFilter(s, key, k)
  {
    if s != [] {
      StableSortKeyFilter(s[1..], key, lt, k);
      InsertKeyFilter(s[0], StableSort(s[1..], key, lt), key, lt, k);
    }
  }

  lemma KeyFilterOfHead<T, K>(s: seq<T>, key: T -> K)
    requires s != []
    ensures KeyFilter(s, key, key(s[0])) != []
  {
  }

  /** A sub-sequence picked by one key keeps any order the whole sequence has. */
  lemma {:induction false} KeyFilterSorted<T, K, K2>(s: seq<T>, key: T -> K, k: K, key2: T -> K2, lt2: (K2, K2) -> bool)
    requires SortedBy(s, key2, lt2)
    ensures SortedBy(KeyFilter(s, key, k), key2, lt2)
  {
    if s != [] {
      KeyFilterSorted(s[1..], key, k, key2, lt2);
      var t := KeyFilter(s[1..], key, k);
      KeyFilterMembers(s[1..], key, k);
      forall j | 0 <= j < |t| ensures !lt2(key2(t[j]), key2(s[0])) {
        var m :| 0 <= m < |s[1..]| && s[1..][m] == t[j];
        assert s[m + 1] == t[j];
      }
    }
  }

  /**
   * A stable sort is determined by its two properties: two sequences that
   * are both sorted and agree on every key's sub-sequence are equal. So any
   * stable sort (Python's Timsort included) computes StableSort.
   */
  lemma {:induction false} SortedStableUnique<T, K(!new)>(r1: seq<T>, r2: seq<T>, key: T -> K, lt: (K, K) -> bool)
    requires StrictTotalOrder(lt)
    requires SortedBy(r1, key, lt) && SortedBy(r2, key, lt)
    requires forall k :: KeyFilter(r1, key, k) == KeyFilter(r2, key, k)
    ensures r1 == r2
  {
    if r1 == [] || r2 == [] {
      if r1 != [] {
        KeyFilterOfHead(r1, key);
        assert false;
      } else if r2 != [] {
        KeyFilterOfHead(r2, key);
        assert false;
      }
    } else {
      SortedStableHeads(r1, r2, key, lt);
      forall k ensures KeyFilter(r1[1..], key, k) == KeyFilter(r2[1..], key, k) {
        KeyFilterTails(r1, r2, key, k);
      }
      SortedStableUnique(r1[1..], r2[1..], key, lt);
      assert r1 == [r1[0]] + r1[1..] && r2 == [r2[0]] + r2[1..];
    }
  }

  lemma SortedStableHeads<T, K(!new)>(r1: seq<T>, r2: seq<T>, key: T -> K, lt: (K, K) -> bool)
    requires StrictTotalOrder(lt)
    requires r1 != [] && r2 != []
    requires SortedBy(r1, key, lt) && SortedBy(r2, key, lt)
    requires forall k :: KeyFilter(r1, key, k) == KeyFilter(r2, key, k)
    ensures r1[0] == r2[0]
  {
    var k1, k2 := key(r1[0]), key(r2[0]);
    var f1 := KeyFilter(r1, key, k1);
    assert f1 == KeyFilter(r2, key, k1) && f1[0] == r1[0];
    KeyFilterMembers(r2, key, k1);
    assert f1[0] in r2;
    var f2 := KeyFilter(r2, key, k2);
    assert f2 == KeyFilter(r1, key, k2) && f2[0] == r2[0];
    KeyFilterMembers(r1, key, k2);
    assert f2[0] in r1;
    assert k1 == k2;
  }

  lemma KeyFilterTails<T, K>(r1: seq<T>, r2: seq<T>, key: T -> K, k: K)
    requires r1 != [] && r2 != [] && r1[0] == r2[0]
    requires KeyFilter(r1, key, k) == KeyFilter(r2, key, k)
    ensures KeyFilter(r1[1..], key, k) == KeyFilter(r2[1..], key, k)
  {
    var head := if key(r1[0]) == k then [r1[0]] else [];
    assert KeyFilter(r1, key, k) == head + KeyFilter(r1[1..], key, k);
    assert KeyFilter(r2, key, k) == head + KeyFilter(r2[1..], key, k);
    assert KeyFilter(r1[1..], key, k) == KeyFilter(r1, key, k)[|head|..];
    assert KeyFilter(r2[1..], key, k) == KeyFilter(r2, key, k)[|head|..];
  }

  /** Index of the first element with the least key. */
  function FirstLeast<T, K(!new)>(s: seq<T>, key: T -> K, lt: (K, K) -> bool): (m: nat)
    requires |s| > 0
    requires StrictTotalOrder(lt)
    ensures m < |s|
    ensures forall j :: 0 <= j < |s| ==> !lt(key(s[j]), key(s[m]))
    ensures forall j :: 0 <= j < m ==> lt(key(s[m]), key(s[j]))
  {
    if |s| == 1 then 0
    else
      var j := 1 + FirstLeast(s[1..], key, lt);
      assert s[j] == s[1..][j - 1];
      assert forall i :: 1 <= i < |s| ==> s[i] == s[1..][i - 1];
      if lt(key(s[j]), key(s[0])) then j else 0
  }

  /** The head of the sorted sequence is the first element with the least key. */
  lemma {:induction false} StableSortHead<T, K(!new)>(s: seq<T>, key: T -> K, lt: (K, K) -> bool)
    requires |s| > 0
    requires StrictTotalOrder(lt)
    ensures StableSort(s, key, lt)[0] == s[FirstLeast(s, key, lt)]
  {
    if |s| > 1 {
      StableSortHead(s[1..], key, lt);
    }
  }

  /** The order of counts; `reverse=True` on a count key sorts by `Reverse(CountLt)`. */
  predicate CountLt(a: nat, b: nat)
  {
    a < b
  }

  lemma CountLtIsStrictTotalOrder()
    ensures StrictTotalOrder(CountLt)
    ensures StrictTotalOrder(Reverse(CountLt))
  {
    ReverseIsStrictTotalOrder(CountLt);
  }
}
