/**
 * A stable sort by an integer key.  The simulators sort twice: the process list by
 * arrival time (a stable sort of Java's List.sort) and the disk requests by cylinder
 * (Java's Arrays.sort on int[]).  Both library sorts have a unique result (a stable
 * sort by a key, or a sort of plain integers), so a stable insertion sort gives the
 * same permutation.
 */
module Sorting {

  /** Keys never decrease along `s`. */
  ghost predicate SortedBy<T>(s: seq<T>, key: T -> int) {
    forall i, j :: 0 <= i < j < |s| ==> key(s[i]) <= key(s[j])
  }

  /** Sorted by `key`, and by `tie` among equal keys, strictly. */
  ghost predicate LexSortedBy<T>(s: seq<T>, key: T -> int, tie: T -> int) {
    forall i, j :: 0 <= i < j < |s| ==>
      key(s[i]) < key(s[j]) || (key(s[i]) == key(s[j]) && tie(s[i]) < tie(s[j]))
  }

  /** `tie` strictly increases along `s` (for the processes: their ids 1, 2, 3, ...). */
  ghost predicate StrictlyIncreasing<T>(s: seq<T>, tie: T -> int) {
    forall i, j :: 0 <= i < j < |s| ==> tie(s[i]) < tie(s[j])
  }

  /** Puts `x` in front of the first element whose key is not smaller than its own. */
  function InsertBy<T>(x: T, r: seq<T>, key: T -> int): (q: seq<T>)
    ensures |q| == |r| + 1
    ensures multiset(q) == multiset(r) + multiset{x}
  {
    if r == [] then [x]
    else if key(x) <= key(r[0]) then [x] + r
    else
      assert r == [r[0]] + r[1..];
      [r[0]] + InsertBy(x, r[1..], key)
  }

  /** Stable insertion sort: the head of the list goes in front of all tail elements with an equal key. */
  function SortBy<T>(s: seq<T>, key: T -> int): (r: seq<T>)
    ensures |r| == |s|
    ensures multiset(r) == multiset(s)
  {
    if s == [] then []
    else
      assert s == [s[0]] + s[1..];
      InsertBy(s[0], SortBy(s[1..], key), key)
  }

  lemma {:induction false} InsertBySorted<T>(x: T, r: seq<T>, key: T -> int)
    requires SortedBy(r, key)
    ensures SortedBy(InsertBy(x, r, key), key)
    decreases |r|
  {
    if r != [] && key(x) > key(r[0]) {
      InsertBySorted(x, r[1..], key);
      var q := InsertBy(x, r[1..], key);
      assert multiset(q) == multiset(r[1..]) + multiset{x};
      forall k | 0 <= k < |q| ensures key(r[0]) <= key(q[k]) {
        assert q[k] in multiset(q);
        assert q[k] == x || q[k] in multiset(r[1..]);
        if q[k] != x {
          assert q[k] in r[1..];
        }
      }
    }
  }

  /** The result of SortBy is ordered by `key`. */
  lemma {:induction false} SortBySorted<T>(s: seq<T>, key: T -> int)
    ensures SortedBy(SortBy(s, key), key)
    decreases |s|
  {
    if s != [] {
      SortBySorted(s[1..], key);
      InsertBySorted(s[0], SortBy(s[1..], key), key);
    }
  }

  lemma {:induction false} InsertByLexSorted<T>(x: T, r: seq<T>, key: T -> int, tie: T -> int)
    requires LexSortedBy(r, key, tie)
    requires forall k :: 0 <= k < |r| ==> tie(x) < tie(r[k])
    ensures LexSortedBy(InsertBy(x, r, key), key, tie)
    decreases |r|
  {
    if r != [] && key(x) > key(r[0]) {
      InsertByLexSorted(x, r[1..], key, tie);
      var q := InsertBy(x, r[1..], key);
      assert multiset(q) == multiset(r[1..]) + multiset{x};
      forall k | 0 <= k < |q| ensures key(r[0]) < key(q[k]) || (key(r[0]) == key(q[k]) && tie(r[0]) < tie(q[k])) {
        assert q[k] in multiset(q);
        if q[k] != x {
          assert q[k] in r[1..];
        }
      }
      ConsLexSorted(r[0], q, key, tie);
    }
  }

  /** An element before every element of a lexicographically sorted list keeps it sorted in front. */
  lemma ConsLexSorted<T>(h: T, q: seq<T>, key: T -> int, tie: T -> int)
    requires LexSortedBy(q, key, tie)
    requires forall k :: 0 <= k < |q| ==> key(h) < key(q[k]) || (key(h) == key(q[k]) && tie(h) < tie(q[k]))
    ensures LexSortedBy([h] + q, key, tie)
  {
    var s := [h] + q;
    assert forall k :: 1 <= k < |s| ==> s[k] == q[k - 1];
  }

  /**
   * Stability: when the list is given in increasing `tie` order, the sorted list is
   * ordered by `key` and, among equal keys, still by `tie`.
   */
  lemma {:induction false} SortByStable<T>(s: seq<T>, key: T -> int, tie: T -> int)
    requires StrictlyIncreasing(s, tie)
    ensures LexSortedBy(SortBy(s, key), key, tie)
    decreases |s|
  {
    if s != [] {
      SortByStable(s[1..], key, tie);
      var r := SortBy(s[1..], key);
      forall k | 0 <= k < |r| ensures tie(s[0]) < tie(r[k]) {
        assert r[k] in multiset(r);
        assert r[k] in s[1..];
      }
      InsertByLexSorted(s[0], r, key, tie);
    }
  }

  /**
   * Sorts an array in place: afterwards it holds the stable sorted permutation of
   * what it held before.
   */
  method SortInPlace<T>(a: array<T>, key: T -> int)
    modifies a
    ensures a[..] == SortBy(old(a[..]), key)
  {
    var sorted := SortBy(a[..], key);
    forall i | 0 <= i < a.Length {
      a[i] := sorted[i];
    }
  }
}
