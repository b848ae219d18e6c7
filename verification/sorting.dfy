/** Stable sorting by an integer key, and what comparing two sorted lists tells about them. */
module Sorting {

  function Insert<T>(x: T, s: seq<T>, key: T -> int): seq<T> {
    if s == [] || key(x) <= key(s[0]) then [x] + s else [s[0]] + Insert(x, s[1..], key)
  }

  /** `sort_by_key`: ascending, elements of equal key in their old order. */
  function SortBy<T>(s: seq<T>, key: T -> int): seq<T> {
    if s == [] then [] else Insert(s[0], SortBy(s[1..], key), key)
  }

  /** The elements with key `k`, in order. */
  function At<T>(s: seq<T>, key: T -> int, k: int): seq<T> {
    if s == [] then []
    else if key(s[0]) == k then [s[0]] + At(s[1..], key, k)
    else At(s[1..], key, k)
  }

  ghost predicate Sorted<T>(s: seq<T>, key: T -> int) {
    forall i, j :: 0 <= i < j < |s| ==> key(s[i]) <= key(s[j])
  }

  lemma {:induction false} InsertKeepsAt<T>(x: T, s: seq<T>, key: T -> int, k: int)
    ensures At(Insert(x, s, key), key, k) == At([x] + s, key, k)
  {
    var r := Insert(x, s, key);
    if s != [] && key(x) > key(s[0]) {
      assert r[1..] == Insert(x, s[1..], key);
      InsertKeepsAt(x, s[1..], key, k);
      assert ([x] + s)[1..] == s && ([x] + s[1..])[1..] == s[1..];
    }
  }

  /** Stability: the elements of each key stay in their order. */
  lemma {:induction false} SortKeepsAt<T>(s: seq<T>, key: T -> int, k: int)
    ensures At(SortBy(s, key), key, k) == At(s, key, k)
  {
    if s != [] {
      SortKeepsAt(s[1..], key, k);
      InsertKeepsAt(s[0], SortBy(s[1..], key), key, k);
      assert ([s[0]] + SortBy(s[1..], key))[1..] == SortBy(s[1..], key);
    }
  }

  lemma {:induction false} InsertKeepsElements<T>(x: T, s: seq<T>, key: T -> int)
    ensures multiset(Insert(x, s, key)) == multiset{x} + multiset(s)
  {
    if s == [] || key(x) <= key(s[0]) {
    } else {
      InsertKeepsElements(x, s[1..], key);
      assert s == [s[0]] + s[1..];
    }
  }

  lemma {:induction false} SortKeepsElements<T>(s: seq<T>, key: T -> int)
    ensures multiset(SortBy(s, key)) == multiset(s)
  {
    if s != [] {
      SortKeepsElements(s[1..], key);
      InsertKeepsElements(s[0], SortBy(s[1..], key), key);
      assert s == [s[0]] + s[1..];
    }
  }

  lemma {:induction false} InsertSorted<T>(x: T, s: seq<T>, key: T -> int)
    requires Sorted(s, key)
    ensures Sorted(Insert(x, s, key), key)
  {
    if s == [] || key(x) <= key(s[0]) {
    } else {
      InsertSorted(x, s[1..], key);
      InsertKeepsElements(x, s[1..], key);
      var rest := Insert(x, s[1..], key);
      forall i | 0 <= i < |rest| ensures key(s[0]) <= key(rest[i]) {
        assert rest[i] in multiset(rest);
        assert rest[i] == x || rest[i] in s[1..];
      }
    }
  }

  lemma {:induction false} SortSorts<T>(s: seq<T>, key: T -> int)
    ensures Sorted(SortBy(s, key), key)
  {
    if s != [] {
      SortSorts(s[1..], key);
      InsertSorted(s[0], SortBy(s[1..], key), key);
    }
  }

  lemma {:induction false} AtMembers<T>(s: seq<T>, key: T -> int, k: int, x: T)
    ensures x in At(s, key, k) <==> x in s && key(x) == k
  {
    if s != [] { AtMembers(s[1..], key, k, x); }
  }

  lemma BothEmpty<T>(a: seq<T>, b: seq<T>, key: T -> int)
    requires forall k :: At(a, key, k) == At(b, key, k)
    ensures a == [] ==> b == []
  {
    if b != [] {
      assert At(a, key, key(b[0])) == At(b, key, key(b[0])) != [];
    }
  }

  /** A sorted list is determined by its elements of each key. */
  lemma {:induction false} SortedUnique<T>(a: seq<T>, b: seq<T>, key: T -> int)
    requires Sorted(a, key) && Sorted(b, key)
    requires forall k :: At(a, key, k) == At(b, key, k)
    ensures a == b
  {
    BothEmpty(a, b, key);
    BothEmpty(b, a, key);
    if a != [] {
      AtMembers(a, key, key(b[0]), b[0]);
      AtMembers(b, key, key(b[0]), b[0]);
      AtMembers(a, key, key(a[0]), a[0]);
      AtMembers(b, key, key(a[0]), a[0]);
      assert b[0] in a && a[0] in b;
      var k := key(a[0]);
      assert key(b[0]) == k;
      assert At(a, key, k)[0] == a[0] && At(b, key, k)[0] == b[0];
      forall j ensures At(a[1..], key, j) == At(b[1..], key, j) {
        assert At(a, key, j) == At(b, key, j);
        if j == k {
          assert At(a, key, k)[1..] == At(a[1..], key, k) && At(b, key, k)[1..] == At(b[1..], key, k);
        }
      }
      SortedUnique(a[1..], b[1..], key);
    }
  }

  lemma SameSortedAt<T>(a: seq<T>, b: seq<T>, key: T -> int, k: int)
    requires SortBy(a, key) == SortBy(b, key)
    ensures At(a, key, k) == At(b, key, k)
  {
    SortKeepsAt(a, key, k);
    SortKeepsAt(b, key, k);
  }

  lemma SameAtSorted<T>(a: seq<T>, b: seq<T>, key: T -> int)
    requires forall k :: At(a, key, k) == At(b, key, k)
    ensures SortBy(a, key) == SortBy(b, key)
  {
    forall k ensures At(SortBy(a, key), key, k) == At(SortBy(b, key), key, k) {
      SortKeepsAt(a, key, k);
      SortKeepsAt(b, key, k);
      assert At(a, key, k) == At(b, key, k);
    }
    SortSorts(a, key);
    SortSorts(b, key);
    SortedUnique(SortBy(a, key), SortBy(b, key), key);
  }

  /** Two lists agree, key by key, on elements and their order. */
  ghost predicate AgreeAt<T>(a: seq<T>, b: seq<T>, key: T -> int) {
    forall k :: At(a, key, k) == At(b, key, k)
  }

  /** Two lists sort to the same exactly if they agree so, and then have the same elements. */
  lemma SameSorted<T>(a: seq<T>, b: seq<T>, key: T -> int)
    ensures SortBy(a, key) == SortBy(b, key) <==> AgreeAt(a, b, key)
    ensures AgreeAt(a, b, key) ==> multiset(a) == multiset(b)
  {
    if SortBy(a, key) == SortBy(b, key) {
      forall k ensures At(a, key, k) == At(b, key, k) { SameSortedAt(a, b, key, k); }
      SortKeepsElements(a, key);
      SortKeepsElements(b, key);
    }
    if AgreeAt(a, b, key) {
      SameAtSorted(a, b, key);
    }
  }

  lemma {:induction false} AtCounts<T>(s: seq<T>, key: T -> int, k: int, x: T)
    ensures multiset(At(s, key, k))[x] == if key(x) == k then multiset(s)[x] else 0
  {
    if s != [] {
      AtCounts(s[1..], key, k, x);
      assert s == [s[0]] + s[1..];
    }
  }

  ghost predicate DistinctKeys<T>(s: seq<T>, key: T -> int) {
    forall i, j :: 0 <= i < j < |s| ==> key(s[i]) != key(s[j])
  }

  lemma {:induction false} NoneAt<T>(s: seq<T>, key: T -> int, k: int)
    requires forall i :: 0 <= i < |s| ==> key(s[i]) != k
    ensures At(s, key, k) == []
  {
    if s != [] { NoneAt(s[1..], key, k); }
  }

  lemma {:induction false} AtMostOne<T>(s: seq<T>, key: T -> int, k: int)
    requires DistinctKeys(s, key)
    ensures |At(s, key, k)| <= 1
  {
    if s != [] {
      if key(s[0]) == k {
        NoneAt(s[1..], key, k);
      } else {
        AtMostOne(s[1..], key, k);
      }
    }
  }

  /** With distinct keys, the same elements in any order sort to the same list. */
  lemma SameElementsSameSorted<T(!new)>(a: seq<T>, b: seq<T>, key: T -> int)
    requires multiset(a) == multiset(b) && DistinctKeys(a, key)
    ensures SortBy(a, key) == SortBy(b, key)
  {
    forall k ensures At(a, key, k) == At(b, key, k) {
      AtMostOne(a, key, k);
      forall x: T ensures multiset(At(a, key, k))[x] == multiset(At(b, key, k))[x] {
        AtCounts(a, key, k, x);
        AtCounts(b, key, k, x);
      }
      assert multiset(At(a, key, k)) == multiset(At(b, key, k));
      SameFew(At(a, key, k), At(b, key, k));
    }
    SameSorted(a, b, key);
  }

  lemma SameFew<T>(a: seq<T>, b: seq<T>)
    requires |a| <= 1 && multiset(a) == multiset(b)
    ensures a == b
  {
    assert |b| == |multiset(b)| == |a|;
    if |a| == 1 {
      assert b[0] in multiset(b);
    }
  }

  // ---------- plain integers ----------

  function Identity(x: int): int { x }

  function SortInts(s: seq<int>): seq<int> {
    SortBy(s, Identity)
  }

  lemma {:induction false} AllTheSame(s: seq<int>, t: seq<int>, k: int)
    requires multiset(At(s, Identity, k)) == multiset(At(t, Identity, k))
    ensures At(s, Identity, k) == At(t, Identity, k)
  {
    var a, b := At(s, Identity, k), At(t, Identity, k);
    assert |a| == |multiset(a)| == |multiset(b)| == |b|;
    forall i | 0 <= i < |a| ensures a[i] == b[i] {
      AtMembers(s, Identity, k, a[i]);
      AtMembers(t, Identity, k, b[i]);
    }
  }

  /** Integers sort to the same list exactly if they are the same, counting repetitions. */
  lemma SameInts(a: seq<int>, b: seq<int>)
    ensures SortInts(a) == SortInts(b) <==> multiset(a) == multiset(b)
  {
    if multiset(a) == multiset(b) {
      forall k ensures At(a, Identity, k) == At(b, Identity, k) {
        forall x ensures multiset(At(a, Identity, k))[x] == multiset(At(b, Identity, k))[x] {
          AtCounts(a, Identity, k, x);
          AtCounts(b, Identity, k, x);
        }
        assert multiset(At(a, Identity, k)) == multiset(At(b, Identity, k));
        AllTheSame(a, b, k);
      }
    }
    SameSorted(a, b, Identity);
  }
}
