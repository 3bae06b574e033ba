/** A stable insertion sort by an integer key: the model of a store query's
    `order_by(<field>)` over the rows it selected. */
module Sorting {

  /** Keys never decrease from left to right. */
  predicate SortedBy<T>(s: seq<T>, key: T -> int) {
    forall i, j :: 0 <= i < j < |s| ==> key(s[i]) <= key(s[j])
  }

  /** Inserts `x` before the first element whose key is not smaller. */
  function Insert<T>(x: T, s: seq<T>, key: T -> int): (r: seq<T>)
    requires SortedBy(s, key)
    ensures SortedBy(r, key)
    ensures multiset(r) == multiset(s) + multiset{x}
    ensures |r| == |s| + 1
  {
    if |s| == 0 then [x]
    else if key(x) <= key(s[0]) then [x] + s
    else
      SortedTail(s, key);
      var t := Insert(x, s[1..], key);
      assert s == [s[0]] + s[1..];
      HeadBoundsTail(s, key);
      BoundCarries(key(s[0]), x, s[1..], t, key);
      ConsSorted(s[0], t, key);
      [s[0]] + t
  }

  /** Every key after the first of a sorted list is at least the first. */
  lemma HeadBoundsTail<T>(s: seq<T>, key: T -> int)
    requires SortedBy(s, key) && |s| > 0
    ensures forall k :: 0 <= k < |s[1..]| ==> key(s[0]) <= key(s[1..][k])
  {
    forall k | 0 <= k < |s[1..]| ensures key(s[0]) <= key(s[1..][k]) {
      assert s[1..][k] == s[k + 1];
    }
  }

  /** A lower bound on the keys of `s` and of `x` bounds every key of a
      list holding the same rows. */
  lemma BoundCarries<T>(lo: int, x: T, s: seq<T>, t: seq<T>, key: T -> int)
    requires multiset(t) == multiset(s) + multiset{x}
    requires lo <= key(x) && forall k :: 0 <= k < |s| ==> lo <= key(s[k])
    ensures forall k :: 0 <= k < |t| ==> lo <= key(t[k])
  {
    forall k | 0 <= k < |t| ensures lo <= key(t[k]) {
      assert t[k] in multiset(t);
      if t[k] != x {
        assert t[k] in multiset(s);
        var m :| 0 <= m < |s| && s[m] == t[k];
      }
    }
  }

  /** A row whose key bounds a sorted list's keys may go in front of it. */
  lemma ConsSorted<T>(h: T, t: seq<T>, key: T -> int)
    requires SortedBy(t, key) && forall k :: 0 <= k < |t| ==> key(h) <= key(t[k])
    ensures SortedBy([h] + t, key)
  {
    var r := [h] + t;
    forall i, j | 0 <= i < j < |r| ensures key(r[i]) <= key(r[j]) {
      assert r[j] == t[j - 1];
      if i > 0 { assert r[i] == t[i - 1]; }
    }
  }

  /** The rows of `s` reordered by ascending key, equal keys kept in their
      original order. */
  function SortBy<T>(s: seq<T>, key: T -> int): (r: seq<T>)
    ensures SortedBy(r, key)
    ensures multiset(r) == multiset(s)
    ensures |r| == |s|
  {
    if |s| == 0 then []
    else
      assert s == [s[0]] + s[1..];
      Insert(s[0], SortBy(s[1..], key), key)
  }

  /** Sorting rows that are already in key order leaves them as they are. */
  lemma {:induction false} SortedIsFixed<T>(s: seq<T>, key: T -> int)
    requires SortedBy(s, key)
    ensures SortBy(s, key) == s
  {
    if |s| > 0 {
      SortedTail(s, key);
      SortedIsFixed(s[1..], key);
      InsertAtFront(s[0], s[1..], key);
      assert s == [s[0]] + s[1..];
    }
  }

  /** An element whose key does not exceed the first one's goes in front. */
  lemma InsertAtFront<T>(x: T, t: seq<T>, key: T -> int)
    requires SortedBy(t, key)
    requires |t| > 0 ==> key(x) <= key(t[0])
    ensures Insert(x, t, key) == [x] + t
  {
  }

  /** The rows after the first of a sorted list are sorted. */
  lemma SortedTail<T>(s: seq<T>, key: T -> int)
    requires SortedBy(s, key) && |s| > 0
    ensures SortedBy(s[1..], key)
  {
    forall i, j | 0 <= i < j < |s[1..]| ensures key(s[1..][i]) <= key(s[1..][j]) {
      assert s[1..][i] == s[i + 1] && s[1..][j] == s[j + 1];
    }
  }
}
