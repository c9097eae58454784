/**
 * The "dict of lists" idiom the scanner and the page generators use to
 * group posts:
 *
 *   for each element x, for each key k of x:
 *     if k not in d: d[k] = []
 *     d[k].append(x)
 *
 * A Python dict keeps its keys in insertion order, so the result is modelled
 * as `Groups`: the keys in insertion order plus the list each key maps to.
 * `Grouped` is the specification: the keys in first-seen order, and for each
 * key the elements carrying it, each repeated once per occurrence of the key.
 */
module Grouping {
  import opened Seqs
  import Sorting

  datatype Groups<K(==), V> = Groups(keys: seq<K>, buckets: map<K, seq<V>>)

  /** The keys the loop visits, in visiting order. */
  function AllKeys<T, K>(s: seq<T>, keysOf: T -> seq<K>): seq<K>
  {
    if s == [] then [] else AllKeys(s[..|s| - 1], keysOf) + keysOf(s[|s| - 1])
  }

  /** The dict's keys: every visited key, in order of first visit. */
  function Keys<T, K(==)>(s: seq<T>, keysOf: T -> seq<K>): seq<K>
  {
    FirstSeen(AllKeys(s, keysOf))
  }

  /** The list key `k` maps to: every element once per occurrence of `k` among its keys. */
  function Bucket<T, K(==)>(s: seq<T>, keysOf: T -> seq<K>, k: K): seq<T>
  {
    if s == [] then []
    else Bucket(s[..|s| - 1], keysOf, k) + Repeat(s[|s| - 1], multiset(keysOf(s[|s| - 1]))[k])
  }

  /** The dict the grouping loop builds from `s`. */
  function Grouped<T, K(==)>(s: seq<T>, keysOf: T -> seq<K>): Groups<K, T>
  {
    var ks := Keys(s, keysOf);
    Groups(ks, map k | k in ks :: Bucket(s, keysOf, k))
  }

  /** One step of the loop: `if k not in d: d[k] = []`, then `d[k].append(v)`. */
  function Add<K(==), V>(g: Groups<K, V>, k: K, v: V): Groups<K, V>
  {
    if k in g.buckets then Groups(g.keys, g.buckets[k := g.buckets[k] + [v]])
    else Groups(g.keys + [k], g.buckets[k := [v]])
  }

  /** The dict after the elements `s` and the first keys `ks` of the element `x`. */
  function Partial<T, K(==)>(s: seq<T>, keysOf: T -> seq<K>, ks: seq<K>, x: T): Groups<K, T>
  {
    var keys := FirstSeen(AllKeys(s, keysOf) + ks);
    Groups(keys, map k | k in keys :: Bucket(s, keysOf, k) + Repeat(x, multiset(ks)[k]))
  }

  /** Sum of the bucket sizes, over the keys in order. */
  function SizeSum<K(==), V>(keys: seq<K>, buckets: map<K, seq<V>>): nat
    requires forall i :: 0 <= i < |keys| ==> keys[i] in buckets
  {
    if keys == [] then 0 else |buckets[keys[0]]| + SizeSum(keys[1..], buckets)
  }

  /** Sum of the multiplicities in `m` of the keys `ks`. */
  function SumCounts<K>(ks: seq<K>, m: multiset<K>): nat
  {
    if ks == [] then 0 else m[ks[0]] + SumCounts(ks[1..], m)
  }

  // ---------------------------------------------------------------------
  // The loop builds Grouped.
  // ---------------------------------------------------------------------

  lemma AllKeysSnoc<T, K>(s: seq<T>, keysOf: T -> seq<K>, x: T)
    ensures AllKeys(s + [x], keysOf) == AllKeys(s, keysOf) + keysOf(x)
  {
    assert (s + [x])[..|s|] == s;
  }

  lemma BucketSnoc<T, K>(s: seq<T>, keysOf: T -> seq<K>, x: T, k: K)
    ensures Bucket(s + [x], keysOf, k) == Bucket(s, keysOf, k) + Repeat(x, multiset(keysOf(x))[k])
  {
    assert (s + [x])[..|s|] == s;
  }

  /** A bucket holds one entry per visit of its key. */
  lemma {:induction false} BucketSize<T, K>(s: seq<T>, keysOf: T -> seq<K>, k: K)
    ensures |Bucket(s, keysOf, k)| == multiset(AllKeys(s, keysOf))[k]
  {
    if s != [] {
      BucketSize(s[..|s| - 1], keysOf, k);
    }
  }

  /** Before the first key of `x` the dict is the one for `s`. */
  lemma PartialStart<T, K>(s: seq<T>, keysOf: T -> seq<K>, x: T)
    ensures Partial(s, keysOf, [], x) == Grouped(s, keysOf)
  {
    assert AllKeys(s, keysOf) + [] == AllKeys(s, keysOf);
    var g0, g := Partial(s, keysOf, [], x), Grouped(s, keysOf);
    assert g0.keys == g.keys;
    forall k | k in g.buckets ensures g0.buckets[k] == g.buckets[k] {
      assert Repeat(x, 0) == [];
    }
    assert g0.buckets == g.buckets;
  }

  /** After the last key of `x` the dict is the one for `s + [x]`. */
  lemma PartialEnd<T, K>(s: seq<T>, keysOf: T -> seq<K>, x: T)
    ensures Partial(s, keysOf, keysOf(x), x) == Grouped(s + [x], keysOf)
  {
    AllKeysSnoc(s, keysOf, x);
    var g1, g2 := Partial(s, keysOf, keysOf(x), x), Grouped(s + [x], keysOf);
    assert g1.keys == g2.keys;
    forall k | k in g2.buckets ensures g1.buckets[k] == g2.buckets[k] {
      BucketSnoc(s, keysOf, x, k);
    }
    assert g1.buckets == g2.buckets;
  }

  /** One `Add` moves the loop on by one key. */
  lemma AddStep<T, K>(s: seq<T>, keysOf: T -> seq<K>, ks: seq<K>, x: T, k: K)
    ensures Add(Partial(s, keysOf, ks, x), k, x) == Partial(s, keysOf, ks + [k], x)
  {
    var a := AllKeys(s, keysOf) + ks;
    assert a + [k] == AllKeys(s, keysOf) + (ks + [k]);
    FirstSeenSnoc(a, k);
    if k in a {
      AddStepSeen(s, keysOf, ks, x, k);
    } else {
      AddStepNew(s, keysOf, ks, x, k);
    }
  }

  lemma AddStepSeen<T, K>(s: seq<T>, keysOf: T -> seq<K>, ks: seq<K>, x: T, k: K)
    requires k in AllKeys(s, keysOf) + ks
    requires FirstSeen(AllKeys(s, keysOf) + (ks + [k])) == FirstSeen(AllKeys(s, keysOf) + ks)
    ensures Add(Partial(s, keysOf, ks, x), k, x) == Partial(s, keysOf, ks + [k], x)
  {
    var g, g' := Partial(s, keysOf, ks, x), Partial(s, keysOf, ks + [k], x);
    assert k in g.buckets;
    assert Add(g, k, x).keys == g'.keys;
    AddSeenBuckets(s, keysOf, ks, x, k);
  }

  lemma AddSeenBuckets<T, K>(s: seq<T>, keysOf: T -> seq<K>, ks: seq<K>, x: T, k: K)
    requires k in Partial(s, keysOf, ks, x).buckets
    requires Partial(s, keysOf, ks + [k], x).keys == Partial(s, keysOf, ks, x).keys
    ensures Add(Partial(s, keysOf, ks, x), k, x).buckets == Partial(s, keysOf, ks + [k], x).buckets
  {
    AddSeenDomain(s, keysOf, ks, x, k);
    AddSeenValues(s, keysOf, ks, x, k);
  }

  lemma AddSeenDomain<T, K>(s: seq<T>, keysOf: T -> seq<K>, ks: seq<K>, x: T, k: K)
    requires k in Partial(s, keysOf, ks, x).buckets
    requires Partial(s, keysOf, ks + [k], x).keys == Partial(s, keysOf, ks, x).keys
    ensures Add(Partial(s, keysOf, ks, x), k, x).buckets.Keys == Partial(s, keysOf, ks + [k], x).buckets.Keys
  {
  }

  lemma AddSeenValues<T, K>(s: seq<T>, keysOf: T -> seq<K>, ks: seq<K>, x: T, k: K)
    requires k in Partial(s, keysOf, ks, x).buckets
    requires Partial(s, keysOf, ks + [k], x).keys == Partial(s, keysOf, ks, x).keys
    ensures forall kk :: kk in Partial(s, keysOf, ks + [k], x).buckets ==>
      kk in Add(Partial(s, keysOf, ks, x), k, x).buckets &&
      Add(Partial(s, keysOf, ks, x), k, x).buckets[kk] == Partial(s, keysOf, ks + [k], x).buckets[kk]
  {
    forall kk | kk in Partial(s, keysOf, ks + [k], x).buckets
      ensures kk in Add(Partial(s, keysOf, ks, x), k, x).buckets
      ensures Add(Partial(s, keysOf, ks, x), k, x).buckets[kk] == Partial(s, keysOf, ks + [k], x).buckets[kk]
    {
      AddSeenBucket(s, keysOf, ks, x, k, kk);
    }
  }

  /** The bucket of one key after an `Add` of a key already present. */
  lemma AddSeenBucket<T, K>(s: seq<T>, keysOf: T -> seq<K>, ks: seq<K>, x: T, k: K, kk: K)
    requires k in Partial(s, keysOf, ks, x).buckets
    requires kk in Partial(s, keysOf, ks, x).buckets
    ensures Add(Partial(s, keysOf, ks, x), k, x).buckets[kk]
         == Bucket(s, keysOf, kk) + Repeat(x, multiset(ks + [k])[kk])
  {
    var c := multiset(ks)[kk];
    var g := Partial(s, keysOf, ks, x);
    assert g.buckets[kk] == Bucket(s, keysOf, kk) + Repeat(x, c);
    if kk == k {
      assert multiset(ks + [k])[kk] == c + 1;
      assert Repeat(x, c + 1) == Repeat(x, c) + [x];
    } else {
      assert multiset(ks + [k])[kk] == c;
    }
  }

  lemma AddStepNew<T, K>(s: seq<T>, keysOf: T -> seq<K>, ks: seq<K>, x: T, k: K)
    requires k !in AllKeys(s, keysOf) + ks
    requires FirstSeen(AllKeys(s, keysOf) + (ks + [k])) == FirstSeen(AllKeys(s, keysOf) + ks) + [k]
    ensures Add(Partial(s, keysOf, ks, x), k, x) == Partial(s, keysOf, ks + [k], x)
  {
    assert k !in AllKeys(s, keysOf) && k !in ks;
    FirstSeenSpec(AllKeys(s, keysOf) + ks);
    BucketSize(s, keysOf, k);
    AddStepNewBuckets(s, keysOf, ks, x, k);
  }

  lemma AddStepNewBuckets<T, K>(s: seq<T>, keysOf: T -> seq<K>, ks: seq<K>, x: T, k: K)
    requires multiset(ks)[k] == 0 && Bucket(s, keysOf, k) == []
    requires FirstSeen(AllKeys(s, keysOf) + (ks + [k])) == FirstSeen(AllKeys(s, keysOf) + ks) + [k]
    requires k !in FirstSeen(AllKeys(s, keysOf) + ks)
    ensures Add(Partial(s, keysOf, ks, x), k, x) == Partial(s, keysOf, ks + [k], x)
  {
    var g, g' := Partial(s, keysOf, ks, x), Partial(s, keysOf, ks + [k], x);
    AddNewKeys(s, keysOf, ks, x, k);
    AddNewDomain(s, keysOf, ks, x, k);
    AddNewValues(s, keysOf, ks, x, k);
    var a := Add(g, k, x);
    assert a.buckets == g'.buckets;
  }

  lemma AddNewKeys<T, K>(s: seq<T>, keysOf: T -> seq<K>, ks: seq<K>, x: T, k: K)
    requires FirstSeen(AllKeys(s, keysOf) + (ks + [k])) == FirstSeen(AllKeys(s, keysOf) + ks) + [k]
    requires k !in FirstSeen(AllKeys(s, keysOf) + ks)
    ensures k !in Partial(s, keysOf, ks, x).buckets
    ensures Partial(s, keysOf, ks + [k], x).keys == Partial(s, keysOf, ks, x).keys + [k]
    ensures Add(Partial(s, keysOf, ks, x), k, x).keys == Partial(s, keysOf, ks + [k], x).keys
  {
  }

  lemma AddNewDomain<T, K>(s: seq<T>, keysOf: T -> seq<K>, ks: seq<K>, x: T, k: K)
    requires k !in Partial(s, keysOf, ks, x).buckets
    requires Partial(s, keysOf, ks + [k], x).keys == Partial(s, keysOf, ks, x).keys + [k]
    ensures Add(Partial(s, keysOf, ks, x), k, x).buckets.Keys == Partial(s, keysOf, ks + [k], x).buckets.Keys
  {
  }

  lemma AddNewValues<T, K>(s: seq<T>, keysOf: T -> seq<K>, ks: seq<K>, x: T, k: K)
    requires multiset(ks)[k] == 0 && Bucket(s, keysOf, k) == []
    requires k !in Partial(s, keysOf, ks, x).buckets
    requires Partial(s, keysOf, ks + [k], x).keys == Partial(s, keysOf, ks, x).keys + [k]
    ensures forall kk :: kk in Partial(s, keysOf, ks + [k], x).buckets ==>
      kk in Add(Partial(s, keysOf, ks, x), k, x).buckets &&
      Add(Partial(s, keysOf, ks, x), k, x).buckets[kk] == Partial(s, keysOf, ks + [k], x).buckets[kk]
  {
    forall kk | kk in Partial(s, keysOf, ks + [k], x).buckets
      ensures kk in Add(Partial(s, keysOf, ks, x), k, x).buckets
      ensures Add(Partial(s, keysOf, ks, x), k, x).buckets[kk] == Partial(s, keysOf, ks + [k], x).buckets[kk]
    {
      AddNewBucket(s, keysOf, ks, x, k, kk);
    }
  }

  /** The bucket of one key after an `Add` of a new key. */
  lemma AddNewBucket<T, K>(s: seq<T>, keysOf: T -> seq<K>, ks: seq<K>, x: T, k: K, kk: K)
    requires multiset(ks)[k] == 0 && Bucket(s, keysOf, k) == []
    requires k !in Partial(s, keysOf, ks, x).buckets
    requires kk == k || kk in Partial(s, keysOf, ks, x).buckets
    ensures Add(Partial(s, keysOf, ks, x), k, x).buckets[kk]
         == Bucket(s, keysOf, kk) + Repeat(x, multiset(ks + [k])[kk])
  {
    if kk == k {
      assert multiset(ks + [k])[kk] == 1;
      assert Repeat(x, 1) == [x];
    } else {
      assert multiset(ks + [k])[kk] == multiset(ks)[kk];
    }
  }

  /** The two statements of the loop body, in the form the source writes them, perform one `Add`. */
  lemma AddApplied<K, V>(before: Groups<K, V>, k: K, v: V, keys: seq<K>, buckets: map<K, seq<V>>)
    requires k in before.buckets ==> keys == before.keys && buckets == before.buckets[k := before.buckets[k] + [v]]
    requires k !in before.buckets ==> keys == before.keys + [k] && buckets == before.buckets[k := []][k := [] + [v]]
    ensures Groups(keys, buckets) == Add(before, k, v)
  {
    if k !in before.buckets {
      assert [] + [v] == [v];
      assert before.buckets[k := []][k := [] + [v]] == before.buckets[k := [v]];
    }
  }

  /** `Add` for each of the keys `ks` in turn. */
  function AddAll<K(==), V>(g: Groups<K, V>, ks: seq<K>, v: V): Groups<K, V>
  {
    if ks == [] then g else Add(AddAll(g, ks[..|ks| - 1], v), ks[|ks| - 1], v)
  }

  /** The dict the loop builds, step by step, from an empty one. */
  function Fold<T, K(==)>(s: seq<T>, keysOf: T -> seq<K>): Groups<K, T>
  {
    if s == [] then Groups([], map[])
    else AddAll(Fold(s[..|s| - 1], keysOf), keysOf(s[|s| - 1]), s[|s| - 1])
  }

  lemma {:induction false} AddAllPartial<T, K>(s: seq<T>, keysOf: T -> seq<K>, ks: seq<K>, x: T)
    ensures AddAll(Partial(s, keysOf, [], x), ks, x) == Partial(s, keysOf, ks, x)
  {
    if ks != [] {
      var init, k := ks[..|ks| - 1], ks[|ks| - 1];
      var start := Partial(s, keysOf, [], x);
      assert AddAll(start, ks, x) == Add(AddAll(start, init, x), k, x);
      AddAllPartial(s, keysOf, init, x);
      AddStep(s, keysOf, init, x, k);
      assert init + [k] == ks;
    }
  }

  /** Folding `Add` over the elements and their keys builds Grouped. */
  lemma {:induction false} FoldIsGrouped<T, K>(s: seq<T>, keysOf: T -> seq<K>)
    ensures Fold(s, keysOf) == Grouped(s, keysOf)
  {
    if s == [] {
      assert Grouped(s, keysOf).buckets == map[];
    } else {
      var init, x := s[..|s| - 1], s[|s| - 1];
      FoldIsGrouped(init, keysOf);
      PartialStart(init, keysOf, x);
      AddAllPartial(init, keysOf, keysOf(x), x);
      PartialEnd(init, keysOf, x);
      assert init + [x] == s;
    }
  }

  // ---------------------------------------------------------------------
  // What the grouping promises.
  // ---------------------------------------------------------------------

  /**
   * Every visited key has a bucket and there are no others; no key is listed
   * twice; keys are listed in the order of their first visit.
   */
  lemma GroupedKeys<T, K>(s: seq<T>, keysOf: T -> seq<K>)
    ensures var g := Grouped(s, keysOf);
      && Distinct(g.keys)
      && (forall k :: k in g.buckets <==> k in AllKeys(s, keysOf))
      && (forall k :: k in g.buckets <==> k in g.keys)
      && (forall i, j :: 0 <= i < j < |g.keys| ==>
            FirstIndex(g.keys[i], AllKeys(s, keysOf)) < FirstIndex(g.keys[j], AllKeys(s, keysOf)))
  {
    FirstSeenSpec(AllKeys(s, keysOf));
    FirstSeenOrder(AllKeys(s, keysOf));
  }

  /** Element `x` sits in bucket `k` once per copy of `x` and per occurrence of `k` among its keys. */
  lemma {:induction false} BucketMultiplicity<T, K>(s: seq<T>, keysOf: T -> seq<K>, k: K, x: T)
    ensures multiset(Bucket(s, keysOf, k))[x] == multiset(s)[x] * multiset(keysOf(x))[k]
  {
    if s != [] {
      var init, y := s[..|s| - 1], s[|s| - 1];
      assert s == init + [y];
      BucketMultiplicity(init, keysOf, k, x);
      BucketSnoc(init, keysOf, y, k);
      CountAfterRepeat(Bucket(init, keysOf, k), y, multiset(keysOf(y))[k], x);
      var c, m := multiset(keysOf(x))[k], multiset(init)[x];
      var b := multiset(Bucket(s, keysOf, k))[x];
      assert multiset(s)[x] == m + (if x == y then 1 else 0);
      if x == y {
        assert b == m * c + c;
        MulSucc(m, c);
      } else {
        assert b == m * c;
      }
    }
  }

  /** An element none of whose keys is `k` never lands in `k`'s bucket. */
  lemma {:induction false} BucketWithoutKey<T, K>(s: seq<T>, keysOf: T -> seq<K>, k: K, x: T)
    requires k !in keysOf(x)
    ensures x !in Bucket(s, keysOf, k)
  {
    if s != [] {
      var init, y := s[..|s| - 1], s[|s| - 1];
      BucketWithoutKey(init, keysOf, k, x);
      var r := Repeat(y, multiset(keysOf(y))[k]);
      if x == y {
        assert multiset(keysOf(y))[k] == 0;
        assert r == [];
      } else {
        assert x !in r;
      }
      assert Bucket(s, keysOf, k) == Bucket(init, keysOf, k) + r;
    }
  }

  lemma MulSucc(m: int, c: int)
    ensures (m + 1) * c == m * c + c
  {
  }

  lemma CountAfterRepeat<T>(a: seq<T>, y: T, n: nat, x: T)
    ensures multiset(a + Repeat(y, n))[x] == multiset(a)[x] + (if x == y then n else 0)
  {
    RepeatMultiset(y, n);
  }

  lemma {:induction false} SumCountsOther<K>(ks: seq<K>, m: multiset<K>, x: K)
    requires x !in ks
    ensures SumCounts(ks, m[x := m[x] + 1]) == SumCounts(ks, m)
  {
    if ks != [] {
      SumCountsOther(ks[1..], m, x);
    }
  }

  lemma {:induction false} SumCountsOne<K>(ks: seq<K>, m: multiset<K>, x: K)
    requires Distinct(ks) && x in ks
    ensures SumCounts(ks, m[x := m[x] + 1]) == SumCounts(ks, m) + 1
  {
    if ks[0] == x {
      assert x !in ks[1..];
      SumCountsOther(ks[1..], m, x);
    } else {
      SumCountsOne(ks[1..], m, x);
    }
  }

  /** Summing the multiplicities of distinct keys that cover `a` counts `a`. */
  lemma {:induction false} SumCountsCover<K>(ks: seq<K>, a: seq<K>)
    requires Distinct(ks)
    requires forall i :: 0 <= i < |a| ==> a[i] in ks
    ensures SumCounts(ks, multiset(a)) == |a|
  {
    if a == [] {
      SumCountsZero(ks);
    } else {
      var init, x := a[..|a| - 1], a[|a| - 1];
      assert a == init + [x];
      SumCountsCover(ks, init);
      assert multiset(a) == multiset(init)[x := multiset(init)[x] + 1];
      SumCountsOne(ks, multiset(init), x);
    }
  }

  lemma {:induction false} SumCountsZero<K>(ks: seq<K>)
    ensures SumCounts(ks, multiset{}) == 0
  {
    if ks != [] {
      SumCountsZero(ks[1..]);
    }
  }

  lemma {:induction false} SizeSumCounts<T, K>(ks: seq<K>, s: seq<T>, keysOf: T -> seq<K>)
    requires forall i :: 0 <= i < |ks| ==> ks[i] in Grouped(s, keysOf).buckets
    ensures SizeSum(ks, Grouped(s, keysOf).buckets) == SumCounts(ks, multiset(AllKeys(s, keysOf)))
  {
    if ks != [] {
      BucketSize(s, keysOf, ks[0]);
      SizeSumCounts(ks[1..], s, keysOf);
    }
  }

  /** The bucket sizes add up to the number of key visits. */
  lemma BucketSizesSum<T, K>(s: seq<T>, keysOf: T -> seq<K>)
    ensures var g := Grouped(s, keysOf);
      && (forall i :: 0 <= i < |g.keys| ==> g.keys[i] in g.buckets)
      && SizeSum(g.keys, g.buckets) == |AllKeys(s, keysOf)|
  {
    var g := Grouped(s, keysOf);
    var visited := AllKeys(s, keysOf);
    GroupedKeys(s, keysOf);
    forall i | 0 <= i < |g.keys| ensures g.keys[i] in g.buckets {
      assert g.keys[i] in g.keys;
    }
    forall i | 0 <= i < |visited| ensures visited[i] in g.keys {
      VisitedGrouped(s, keysOf, i);
    }
    SizeSumCounts(g.keys, s, keysOf);
    SumCountsCover(g.keys, visited);
  }

  lemma VisitedGrouped<T, K>(s: seq<T>, keysOf: T -> seq<K>, i: nat)
    requires i < |AllKeys(s, keysOf)|
    ensures AllKeys(s, keysOf)[i] in Grouped(s, keysOf).keys
  {
    var visited := AllKeys(s, keysOf);
    FirstSeenSpec(visited);
    assert visited[i] in visited;
    assert Grouped(s, keysOf).keys == FirstSeen(visited);
  }

  /** With one key per element, one visit per element, and a bucket is the sub-sequence with that key. */
  lemma {:induction false} SingleKey<T, K>(s: seq<T>, keysOf: T -> seq<K>, key: T -> K, k: K)
    requires forall x :: keysOf(x) == [key(x)]
    ensures |AllKeys(s, keysOf)| == |s|
    ensures forall i :: 0 <= i < |s| ==> AllKeys(s, keysOf)[i] == key(s[i])
    ensures Bucket(s, keysOf, k) == Sorting.KeyFilter(s, key, k)
  {
    if s != [] {
      var init, x := s[..|s| - 1], s[|s| - 1];
      assert s == init + [x];
      SingleKey(init, keysOf, key, k);
      KeyFilterSnoc(init, key, k, x);
      assert multiset(keysOf(x))[k] == if key(x) == k then 1 else 0;
    }
  }

  lemma {:induction false} KeyFilterSnoc<T, K>(s: seq<T>, key: T -> K, k: K, x: T)
    ensures Sorting.KeyFilter(s + [x], key, k)
         == Sorting.KeyFilter(s, key, k) + (if key(x) == k then [x] else [])
  {
    if s != [] {
      assert (s + [x])[1..] == s[1..] + [x];
      KeyFilterSnoc(s[1..], key, k, x);
    }
  }
}
