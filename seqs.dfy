/** Facts about sequences shared by the grouping, sorting and heading models. */
module Seqs {

  /** No element occurs twice. */
  ghost predicate Distinct<T>(s: seq<T>)
  {
    forall i, j :: 0 <= i < j < |s| ==> s[i] != s[j]
  }

  /** `n` copies of `x`. */
  function Repeat<T>(x: T, n: nat): (r: seq<T>)
    ensures |r| == n
    ensures forall i :: 0 <= i < n ==> r[i] == x
  {
    if n == 0 then [] else Repeat(x, n - 1) + [x]
  }

  lemma RepeatMultiset<T>(x: T, n: nat)
    ensures multiset(Repeat(x, n)) == multiset{}[x := n]
  {
    if n > 0 {
      RepeatMultiset(x, n - 1);
    }
  }

  /**
   * The distinct elements of `s`, each where it first occurs: the order in
   * which a Python dict that is filled from `s` keeps its keys.
   */
  function FirstSeen<T(==)>(s: seq<T>): seq<T>
  {
    if s == [] then []
    else
      var r := FirstSeen(s[..|s| - 1]);
      if s[|s| - 1] in r then r else r + [s[|s| - 1]]
  }

  /** FirstSeen keeps exactly the elements of `s`, each once. */
  lemma {:induction false} FirstSeenSpec<T>(s: seq<T>)
    ensures forall x :: x in FirstSeen(s) <==> x in s
    ensures Distinct(FirstSeen(s))
  {
    if s != [] {
      var init := s[..|s| - 1];
      FirstSeenSpec(init);
      assert s == init + [s[|s| - 1]];
    }
  }

  lemma FirstSeenMember<T>(s: seq<T>, i: nat)
    requires i < |FirstSeen(s)|
    ensures FirstSeen(s)[i] in s
  {
    FirstSeenSpec(s);
    assert FirstSeen(s)[i] in FirstSeen(s);
  }

  lemma FirstSeenSnoc<T>(s: seq<T>, x: T)
    ensures FirstSeen(s + [x]) == if x in s then FirstSeen(s) else FirstSeen(s) + [x]
  {
    FirstSeenSpec(s);
    assert (s + [x])[..|s|] == s;
  }

  /** Position of the first occurrence of `x` in `s`. */
  function FirstIndex<T(==)>(x: T, s: seq<T>): (k: nat)
    requires x in s
    ensures k < |s| && s[k] == x && x !in s[..k]
  {
    if s[0] == x then 0 else 1 + FirstIndex(x, s[1..])
  }

  lemma FirstIndexSnoc<T>(y: T, s: seq<T>, x: T)
    requires y in s
    ensures FirstIndex(y, s + [x]) == FirstIndex(y, s)
  {
    var k, k' := FirstIndex(y, s), FirstIndex(y, s + [x]);
    assert (s + [x])[..k + 1] == s[..k + 1];
    assert y in s[..k + 1];
  }

  /** FirstSeen lists the keys in the order of their first occurrences. */
  lemma {:induction false} FirstSeenOrder<T>(s: seq<T>)
    ensures forall i, j :: 0 <= i < j < |FirstSeen(s)| ==>
      FirstSeen(s)[i] in s && FirstSeen(s)[j] in s &&
      FirstIndex(FirstSeen(s)[i], s) < FirstIndex(FirstSeen(s)[j], s)
  {
    FirstSeenSpec(s);
    if s != [] {
      var init, x := s[..|s| - 1], s[|s| - 1];
      assert s == init + [x];
      FirstSeenOrder(init);
      FirstSeenSpec(init);
      FirstSeenSnoc(init, x);
      var r := FirstSeen(init);
      forall y | y in init
        ensures FirstIndex(y, s) == FirstIndex(y, init)
      {
        FirstIndexSnoc(y, init, x);
      }
      forall i | 0 <= i < |r| ensures r[i] in init && FirstIndex(r[i], s) < |init| {
        FirstSeenMember(init, i);
        FirstIndexSnoc(r[i], init, x);
      }
      if x !in init {
        assert FirstIndex(x, s) == |init|;
      }
    }
  }

  /** Number of positions at which two sequences of the same length differ. */
  function Differences<T(==)>(a: seq<T>, b: seq<T>): nat
    requires |a| == |b|
  {
    if a == [] then 0
    else (if a[0] != b[0] then 1 else 0) + Differences(a[1..], b[1..])
  }

  lemma {:induction false} DifferencesTriangle<T>(a: seq<T>, b: seq<T>, c: seq<T>)
    requires |a| == |b| == |c|
    ensures Differences(a, c) <= Differences(a, b) + Differences(b, c)
  {
    if a != [] {
      DifferencesTriangle(a[1..], b[1..], c[1..]);
    }
  }

  lemma {:induction false} DifferencesAtMostOne<T>(a: seq<T>, j: nat, x: T)
    requires j < |a|
    ensures Differences(a, a[j := x]) <= 1
  {
    if j == 0 {
      assert a[j := x][1..] == a[1..];
      DifferencesSame(a[1..]);
    } else {
      assert a[j := x][1..] == a[1..][j - 1 := x];
      DifferencesAtMostOne(a[1..], j - 1, x);
    }
  }

  lemma {:induction false} DifferencesSame<T>(a: seq<T>)
    ensures Differences(a, a) == 0
  {
    if a != [] {
      DifferencesSame(a[1..]);
    }
  }

  /** No two elements share a key. */
  predicate KeysDistinct<T, K(==)>(s: seq<T>, key: T -> K)
  {
    forall i, j :: 0 <= i < j < |s| ==> key(s[i]) != key(s[j])
  }

  /** Elements with pairwise different keys occur at most once each. */
  lemma {:induction false} KeysDistinctOnce<T, K>(s: seq<T>, key: T -> K, x: T)
    requires KeysDistinct(s, key)
    ensures multiset(s)[x] <= 1
  {
    if s != [] {
      var init := s[..|s| - 1];
      assert s == init + [s[|s| - 1]];
      KeysDistinctOnce(init, key, x);
      if s[|s| - 1] == x {
        assert x !in init by {
          forall b | 0 <= b < |init| ensures init[b] != x {
            assert key(init[b]) == key(s[b]) != key(s[|s| - 1]);
          }
        }
      }
    }
  }

  /** A rearrangement of elements with pairwise different keys has pairwise different keys. */
  lemma PermutationKeysDistinct<T, K>(s: seq<T>, t: seq<T>, key: T -> K)
    requires multiset(s) == multiset(t)
    requires KeysDistinct(t, key)
    ensures KeysDistinct(s, key)
  {
    forall i, j | 0 <= i < j < |s| ensures key(s[i]) != key(s[j]) {
      assert s[i] in multiset(t) && s[j] in multiset(t);
      var a :| 0 <= a < |t| && t[a] == s[i];
      var b :| 0 <= b < |t| && t[b] == s[j];
      if a == b {
        assert multiset(s)[s[i]] >= 2 by {
          assert s == s[..i] + [s[i]] + s[i + 1..j] + [s[j]] + s[j + 1..];
        }
        KeysDistinctOnce(t, key, s[i]);
        assert false;
      } else if a < b {
        assert key(t[a]) != key(t[b]);
      } else {
        assert key(t[b]) != key(t[a]);
      }
    }
  }
}
