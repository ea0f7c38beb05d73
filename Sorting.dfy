/** A stable sort by an integer key: what `Array.prototype.sort` does with a
    comparator `(a, b) => key(a) - key(b)` (the sort is stable since
    ECMAScript 2019). */
module Sorting {

  /** Non-decreasing by `key`. */
  ghost predicate Ascending<T>(s: seq<T>, key: T -> int) {
    forall i, j :: 0 <= i < j < |s| ==> key(s[i]) <= key(s[j])
  }

  /** Strictly increasing by `key`. */
  ghost predicate StrictlyAscending<T>(s: seq<T>, key: T -> int) {
    forall i, j :: 0 <= i < j < |s| ==> key(s[i]) < key(s[j])
  }

  /** No two elements share a key. */
  ghost predicate DistinctKeys<T>(s: seq<T>, key: T -> int) {
    forall i, j :: 0 <= i < j < |s| ==> key(s[i]) != key(s[j])
  }

  /** Every element's key is at least `b`. */
  ghost predicate AllFrom<T>(s: seq<T>, key: T -> int, b: int) {
    forall i :: 0 <= i < |s| ==> b <= key(s[i])
  }

  /** `x` placed before the first element of `l` whose key is not below its own. */
  function InsertBy<T>(x: T, l: seq<T>, key: T -> int): seq<T> {
    if l == [] || key(x) <= key(l[0]) then [x] + l else [l[0]] + InsertBy(x, l[1..], key)
  }

  /** Insertion sort: each element goes in front of the sorted rest, ahead of
      the elements with the same key, so equal keys keep their input order. */
  function SortBy<T>(s: seq<T>, key: T -> int): (r: seq<T>)
    ensures multiset(r) == multiset(s) && |r| == |s|
    ensures Ascending(r, key)
  {
    if s == [] then []
    else
      var rest := SortBy(s[1..], key);
      InsertPermutes(s[0], rest, key);
      InsertAscending(s[0], rest, key);
      assert s == [s[0]] + s[1..];
      InsertBy(s[0], rest, key)
  }

  lemma {:induction false} InsertPermutes<T>(x: T, l: seq<T>, key: T -> int)
    ensures multiset(InsertBy(x, l, key)) == multiset(l) + multiset{x}
  {
    if !(l == [] || key(x) <= key(l[0])) {
      InsertPermutes(x, l[1..], key);
      assert l == [l[0]] + l[1..];
    }
  }

  lemma {:induction false} InsertAllFrom<T>(x: T, l: seq<T>, key: T -> int, b: int)
    requires AllFrom(l, key, b) && b <= key(x)
    ensures AllFrom(InsertBy(x, l, key), key, b)
  {
    if !(l == [] || key(x) <= key(l[0])) {
      InsertAllFrom(x, l[1..], key, b);
    }
  }

  lemma {:induction false} InsertAscending<T>(x: T, l: seq<T>, key: T -> int)
    requires Ascending(l, key)
    ensures Ascending(InsertBy(x, l, key), key)
  {
    if l == [] || key(x) <= key(l[0]) {
      var r := [x] + l;
      forall i, j | 0 <= i < j < |r| ensures key(r[i]) <= key(r[j]) {
        if i > 0 { assert r[i] == l[i - 1]; }
        assert r[j] == l[j - 1];
      }
    } else {
      var rest := InsertBy(x, l[1..], key);
      InsertAscending(x, l[1..], key);
      InsertAllFrom(x, l[1..], key, key(l[0]));
      var r := [l[0]] + rest;
      forall i, j | 0 <= i < j < |r| ensures key(r[i]) <= key(r[j]) {
        if i > 0 { assert r[i] == rest[i - 1]; }
        assert r[j] == rest[j - 1];
      }
    }
  }

  /** Sorting keys that are all different yields strictly increasing keys. */
  lemma {:induction false} SortStrict<T>(s: seq<T>, key: T -> int)
    requires DistinctKeys(s, key)
    ensures StrictlyAscending(SortBy(s, key), key)
  {
    var r := SortBy(s, key);
    forall i, j | 0 <= i < j < |r| ensures key(r[i]) < key(r[j]) {
      if key(r[i]) == key(r[j]) {
        assert r[i] in multiset(s) && r[j] in multiset(s);
        var p :| 0 <= p < |s| && s[p] == r[i];
        var q :| 0 <= q < |s| && s[q] == r[j];
        if p == q {
          OccursTwice(r, i, j);
          SingleOccurrence(s, p, key);
        }
      }
    }
  }

  /** An element at two positions occurs at least twice. */
  lemma OccursTwice<T>(s: seq<T>, i: nat, j: nat)
    requires i < j < |s| && s[i] == s[j]
    ensures multiset(s)[s[i]] >= 2
  {
    assert s == s[..j] + s[j..];
    assert s[i] in s[..j];
    assert s[j] in s[j..];
    assert multiset(s) == multiset(s[..j]) + multiset(s[j..]);
  }

  /** With distinct keys, every element occurs once. */
  lemma {:induction false} SingleOccurrence<T>(s: seq<T>, p: nat, key: T -> int)
    requires DistinctKeys(s, key) && p < |s|
    ensures multiset(s)[s[p]] == 1
  {
    if p == 0 {
      assert s == [s[0]] + s[1..];
      assert s[0] !in s[1..];
    } else {
      assert s == [s[0]] + s[1..];
      assert s[1..][p - 1] == s[p];
      SingleOccurrence(s[1..], p - 1, key);
      assert s[0] != s[p];
    }
  }

  /** The elements of `s` whose key is `k`, in their order in `s`. */
  function WithKey<T>(s: seq<T>, key: T -> int, k: int): seq<T> {
    if s == [] then [] else (if key(s[0]) == k then [s[0]] else []) + WithKey(s[1..], key, k)
  }

  lemma {:induction false} WithKeyAppend<T>(a: seq<T>, b: seq<T>, key: T -> int, k: int)
    ensures WithKey(a + b, key, k) == WithKey(a, key, k) + WithKey(b, key, k)
  {
    if a != [] {
      assert (a + b)[1..] == a[1..] + b;
      WithKeyAppend(a[1..], b, key, k);
    } else {
      assert a + b == b;
    }
  }

  lemma {:induction false} WithKeyInsert<T>(x: T, l: seq<T>, key: T -> int, k: int)
    ensures WithKey(InsertBy(x, l, key), key, k) == (if key(x) == k then [x] else []) + WithKey(l, key, k)
  {
    if l == [] || key(x) <= key(l[0]) {
      assert ([x] + l)[1..] == l;
    } else {
      WithKeyInsert(x, l[1..], key, k);
      assert ([l[0]] + InsertBy(x, l[1..], key))[1..] == InsertBy(x, l[1..], key);
    }
  }

  /** The sort is stable: the elements sharing a key keep their input order. */
  lemma {:induction false} SortKeepsTies<T>(s: seq<T>, key: T -> int, k: int)
    ensures WithKey(SortBy(s, key), key, k) == WithKey(s, key, k)
  {
    if s != [] {
      SortKeepsTies(s[1..], key, k);
      WithKeyInsert(s[0], SortBy(s[1..], key), key, k);
    }
  }

  /** Sorting the concatenation of three lists keeps, among the elements
      sharing a key, those of the first list before those of the second, and
      those before the third's. */
  lemma SortTiesOfThree<T>(a: seq<T>, b: seq<T>, c: seq<T>, key: T -> int, k: int)
    ensures WithKey(SortBy(a + b + c, key), key, k) == WithKey(a, key, k) + WithKey(b, key, k) + WithKey(c, key, k)
  {
    SortKeepsTies(a + b + c, key, k);
    WithKeyAppend(a + b, c, key, k);
    WithKeyAppend(a, b, key, k);
  }

  /** A prefix of a sorted sequence is sorted, is part of it, and has no key
      above any key it leaves out. */
  lemma PrefixOfSorted<T>(s: seq<T>, key: T -> int, n: nat)
    requires Ascending(s, key) && n <= |s|
    ensures Ascending(s[..n], key)
    ensures multiset(s[..n]) <= multiset(s)
    ensures forall i, j :: 0 <= i < n <= j < |s| ==> key(s[..n][i]) <= key(s[j])
  {
    assert s == s[..n] + s[n..];
    assert multiset(s) == multiset(s[..n]) + multiset(s[n..]);
  }
}
