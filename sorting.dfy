/**
 * JavaScript's `Array.prototype.sort` with a numeric comparator, which is stable.
 * `sort((a, b) => key(b) - key(a))` orders by `key`, largest first, and keeps the
 * input order among equal keys; `sort((a, b) => a - b)` is the same with the key
 * negated.
 */
module Sorting {

  /** Non-increasing in `key`. */
  predicate SortedDesc<T>(s: seq<T>, key: T -> real) {
    forall i, j :: 0 <= i < j < |s| ==> key(s[i]) >= key(s[j])
  }

  /** In a list sorted by `key`, largest first, every element of a prefix has at least the key
      of every element after it. */
  lemma PrefixNotWeaker<T>(s: seq<T>, key: T -> real, n: nat, p: T)
    requires SortedDesc(s, key) && n <= |s| && p in s[n..]
    ensures forall q :: q in s[..n] ==> key(q) >= key(p)
  {
    var k :| n <= k < |s| && s[k] == p;
    forall q | q in s[..n] ensures key(q) >= key(p) {
      var i :| 0 <= i < n && s[i] == q;
    }
  }

  /** Non-decreasing numbers. */
  predicate SortedAsc(s: seq<real>) {
    forall i, j :: 0 <= i < j < |s| ==> s[i] <= s[j]
  }

  /** The elements whose key is `v`, in order. */
  function WithKey<T>(s: seq<T>, key: T -> real, v: real): (r: seq<T>)
    ensures |r| <= |s|
  {
    if |s| == 0 then []
    else (if key(s[0]) == v then [s[0]] else []) + WithKey(s[1..], key, v)
  }

  /** Places `x` after the elements of a sorted list with a larger key and before the others. */
  function Insert<T>(x: T, r: seq<T>, key: T -> real): (r': seq<T>)
    requires SortedDesc(r, key)
    ensures SortedDesc(r', key)
    ensures multiset(r') == multiset(r) + multiset{x}
    ensures |r'| == |r| + 1
  {
    if |r| == 0 || key(r[0]) <= key(x) then [x] + r
    else
      var rest := Insert(x, r[1..], key);
      assert multiset(r) == multiset{r[0]} + multiset(r[1..]) by {
        assert r == [r[0]] + r[1..];
      }
      BelowHead(x, r, rest, key);
      [r[0]] + rest
  }

  /** What is inserted behind the head of a sorted list has no larger key than the head. */
  lemma BelowHead<T>(x: T, r: seq<T>, rest: seq<T>, key: T -> real)
    requires |r| > 0 && SortedDesc(r, key) && key(x) < key(r[0])
    requires multiset(rest) == multiset(r[1..]) + multiset{x}
    ensures forall k :: 0 <= k < |rest| ==> key(rest[k]) <= key(r[0])
  {
    forall k | 0 <= k < |rest| ensures key(rest[k]) <= key(r[0]) {
      assert rest[k] in multiset(rest);
      if rest[k] != x {
        assert rest[k] in multiset(r[1..]);
        var m :| 0 <= m < |r| - 1 && r[1..][m] == rest[k];
        assert r[m + 1] == rest[k];
      }
    }
  }

  /** The stable sort, largest key first. */
  function SortBy<T>(s: seq<T>, key: T -> real): (r: seq<T>)
    ensures SortedDesc(r, key)
    ensures multiset(r) == multiset(s)
    ensures |r| == |s|
  {
    if |s| == 0 then []
    else
      assert s == [s[0]] + s[1..];
      Insert(s[0], SortBy(s[1..], key), key)
  }

  function Neg(x: real): real {
    -x
  }

  /** `[...values].sort((a, b) => a - b)`: a sorted copy. */
  function SortAscending(s: seq<real>): (r: seq<real>)
    ensures SortedAsc(r)
    ensures multiset(r) == multiset(s)
    ensures |r| == |s|
  {
    var r := SortBy(s, Neg);
    assert forall i, j :: 0 <= i < j < |r| ==> Neg(r[i]) >= Neg(r[j]);
    r
  }

  lemma {:induction false} InsertWithKey<T>(x: T, r: seq<T>, key: T -> real, v: real)
    requires SortedDesc(r, key)
    ensures WithKey(Insert(x, r, key), key, v)
         == (if key(x) == v then [x] else []) + WithKey(r, key, v)
  {
    var xs := if key(x) == v then [x] else [];
    if |r| == 0 || key(r[0]) <= key(x) {
      var r' := [x] + r;
      assert Insert(x, r, key) == r';
      assert r'[1..] == r;
      assert WithKey(r', key, v) == xs + WithKey(r, key, v);
    } else {
      var rest := Insert(x, r[1..], key);
      InsertWithKey(x, r[1..], key, v);
      var r' := [r[0]] + rest;
      assert Insert(x, r, key) == r';
      assert r'[1..] == rest;
      var heads := if key(r[0]) == v then [r[0]] else [];
      assert WithKey(r', key, v) == heads + WithKey(rest, key, v);
      assert WithKey(r, key, v) == heads + WithKey(r[1..], key, v);
      var w := WithKey(r[1..], key, v);
      if key(r[0]) == v {
        assert xs == [];
        assert xs + WithKey(r, key, v) == heads + w;
        assert WithKey(r', key, v) == heads + w;
      } else {
        assert heads == [];
        assert WithKey(r, key, v) == w;
        assert WithKey(r', key, v) == xs + w;
      }
    }
  }

  /** Stability: the elements that share a key keep their input order. */
  lemma {:induction false} SortByIsStable<T>(s: seq<T>, key: T -> real, v: real)
    ensures WithKey(SortBy(s, key), key, v) == WithKey(s, key, v)
  {
    if |s| > 0 {
      SortByIsStable(s[1..], key, v);
      InsertWithKey(s[0], SortBy(s[1..], key), key, v);
    }
  }

  /** Sorting keeps the elements: the smallest and largest of the input are at the ends. */
  lemma SortAscendingBounds(s: seq<real>, i: nat)
    requires i < |s|
    ensures SortAscending(s)[0] <= s[i] <= SortAscending(s)[|s| - 1]
  {
    var r := SortAscending(s);
    assert s[i] in multiset(r);
    var k :| 0 <= k < |r| && r[k] == s[i];
  }

  /** A list that is already in ascending order is its own sorted copy. */
  lemma {:induction false} SortAscendingOfSorted(s: seq<real>)
    requires SortedAsc(s)
    ensures SortAscending(s) == s
  {
    SortByOfSortedAsc(s);
  }

  lemma {:induction false} SortByOfSortedAsc(s: seq<real>)
    requires SortedAsc(s)
    ensures SortBy(s, Neg) == s
  {
    if |s| > 0 {
      SortByOfSortedAsc(s[1..]);
      assert s == [s[0]] + s[1..];
    }
  }

  /** A list already in order is its own sorted copy. */
  lemma {:induction false} SortByOfSorted<T>(s: seq<T>, key: T -> real)
    requires SortedDesc(s, key)
    ensures SortBy(s, key) == s
  {
    if |s| > 0 {
      SortByOfSorted(s[1..], key);
      assert s == [s[0]] + s[1..];
    }
  }

  /** The first element of a sorted copy has the largest key of the input. */
  lemma SortByFirstIsLargest<T>(s: seq<T>, key: T -> real, i: nat)
    requires i < |s|
    ensures key(SortBy(s, key)[0]) >= key(s[i])
  {
    var r := SortBy(s, key);
    assert s[i] in multiset(r);
    var k :| 0 <= k < |r| && r[k] == s[i];
  }
}
