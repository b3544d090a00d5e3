/**
 * lodash's `_.sortBy(list, iteratee)` for an iteratee that reads an `id`
 * property: a stable ascending sort in which strings compare with `<` and an
 * undefined key sorts after every defined one.
 */
module Sorting {
  import opened Wrappers
  import opened Strings

  /** The ascending comparison lodash applies to two sort keys. */
  predicate KeyLess(a: Option<string>, b: Option<string>) {
    a.Some? && (b.None? || LexLess(a.value, b.value))
  }

  predicate KeyLeq(a: Option<string>, b: Option<string>) {
    !KeyLess(b, a)
  }

  lemma KeyLessAsymmetric(a: Option<string>, b: Option<string>)
    requires KeyLess(a, b)
    ensures !KeyLess(b, a)
  {
    if a.Some? && b.Some? {
      LexLessAsymmetric(a.value, b.value);
    }
  }

  predicate Sorted<T>(s: seq<T>, key: T -> Option<string>) {
    forall i :: 0 < i < |s| ==> KeyLeq(key(s[i - 1]), key(s[i]))
  }

  /** Every suffix of a sorted sequence is sorted. */
  lemma SortedSuffix<T>(s: seq<T>, k: nat, key: T -> Option<string>)
    requires Sorted(s, key) && k <= |s|
    ensures Sorted(s[k..], key)
  {
    forall i | 0 < i < |s[k..]|
      ensures KeyLeq(key(s[k..][i - 1]), key(s[k..][i]))
    {
      assert s[k..][i - 1] == s[k + i - 1] && s[k..][i] == s[k + i];
    }
  }

  /** Places `x` before the first element whose key is not smaller than its own. */
  function Insert<T>(x: T, s: seq<T>, key: T -> Option<string>): (r: seq<T>)
    ensures |r| == |s| + 1
  {
    if s == [] || KeyLeq(key(x), key(s[0])) then [x] + s
    else [s[0]] + Insert(x, s[1..], key)
  }

  /** lodash's `_.sortBy(s, key)`: a stable sort, ascending by key, undefined keys last. */
  function SortBy<T>(s: seq<T>, key: T -> Option<string>): (r: seq<T>)
    ensures |r| == |s|
  {
    if s == [] then [] else Insert(s[0], SortBy(s[1..], key), key)
  }

  /** The elements whose key is `k`, in their order. */
  function WithKey<T>(s: seq<T>, key: T -> Option<string>, k: Option<string>): seq<T>
  {
    if s == [] then []
    else (if key(s[0]) == k then [s[0]] else []) + WithKey(s[1..], key, k)
  }

  lemma {:induction false} InsertPermutes<T>(x: T, s: seq<T>, key: T -> Option<string>)
    ensures multiset(Insert(x, s, key)) == multiset([x] + s)
    decreases |s|
  {
    if !(s == [] || KeyLeq(key(x), key(s[0]))) {
      InsertPermutes(x, s[1..], key);
      assert s == [s[0]] + s[1..];
    }
  }

  lemma {:induction false} InsertHead<T>(x: T, s: seq<T>, key: T -> Option<string>)
    ensures Insert(x, s, key) != []
    ensures Insert(x, s, key)[0] == x || (s != [] && Insert(x, s, key)[0] == s[0])
  {
  }

  lemma {:induction false} InsertSorted<T>(x: T, s: seq<T>, key: T -> Option<string>)
    requires Sorted(s, key)
    ensures Sorted(Insert(x, s, key), key)
    decreases |s|
  {
    if !(s == [] || KeyLeq(key(x), key(s[0]))) {
      InsertSorted(x, s[1..], key);
      InsertHead(x, s[1..], key);
      KeyLessAsymmetric(key(s[0]), key(x));
      var r := Insert(x, s, key);
      assert r == [s[0]] + Insert(x, s[1..], key);
      forall i | 0 < i < |r|
        ensures KeyLeq(key(r[i - 1]), key(r[i]))
      {
        if i > 1 {
          assert r[i - 1] == Insert(x, s[1..], key)[i - 2];
          assert r[i] == Insert(x, s[1..], key)[i - 1];
        }
      }
    }
  }

  lemma {:induction false} InsertWithKey<T>(x: T, s: seq<T>, key: T -> Option<string>, k: Option<string>)
    ensures WithKey(Insert(x, s, key), key, k) == WithKey([x] + s, key, k)
    decreases |s|
  {
    if s == [] || KeyLeq(key(x), key(s[0])) {
    } else {
      InsertWithKey(x, s[1..], key, k);
      LexLessIrreflexive(if key(x).Some? then key(x).value else "");
      assert key(s[0]) != key(x);
      var r := Insert(x, s, key);
      assert r == [s[0]] + Insert(x, s[1..], key);
      assert r[1..] == Insert(x, s[1..], key);
      assert ([x] + s)[1..] == s;
      assert ([x] + s[1..])[1..] == s[1..];
      assert s == [s[0]] + s[1..];
    }
  }

  /** `sortBy` only reorders. */
  lemma {:induction false} SortByPermutes<T>(s: seq<T>, key: T -> Option<string>)
    ensures multiset(SortBy(s, key)) == multiset(s)
    decreases |s|
  {
    if s != [] {
      SortByPermutes(s[1..], key);
      InsertPermutes(s[0], SortBy(s[1..], key), key);
      assert s == [s[0]] + s[1..];
    }
  }

  /** `sortBy` orders ascending by key. */
  lemma {:induction false} SortBySorted<T>(s: seq<T>, key: T -> Option<string>)
    ensures Sorted(SortBy(s, key), key)
    decreases |s|
  {
    if s != [] {
      SortBySorted(s[1..], key);
      InsertSorted(s[0], SortBy(s[1..], key), key);
    }
  }

  /** `sortBy` is stable: the elements sharing a key keep their relative order. */
  lemma {:induction false} SortByStable<T>(s: seq<T>, key: T -> Option<string>, k: Option<string>)
    ensures WithKey(SortBy(s, key), key, k) == WithKey(s, key, k)
    decreases |s|
  {
    if s != [] {
      SortByStable(s[1..], key, k);
      InsertWithKey(s[0], SortBy(s[1..], key), key, k);
      assert ([s[0]] + SortBy(s[1..], key))[1..] == SortBy(s[1..], key);
    }
  }

  /** A list already in key order comes back unchanged. */
  lemma {:induction false} SortByKeepsSorted<T>(s: seq<T>, key: T -> Option<string>)
    requires Sorted(s, key)
    ensures SortBy(s, key) == s
    decreases |s|
  {
    if s != [] {
      assert Sorted(s[1..], key) by {
        forall i | 0 < i < |s[1..]|
          ensures KeyLeq(key(s[1..][i - 1]), key(s[1..][i]))
        {
          assert s[1..][i - 1] == s[i] && s[1..][i] == s[i + 1];
        }
      }
      SortByKeepsSorted(s[1..], key);
      assert s == [s[0]] + s[1..];
    }
  }
}
