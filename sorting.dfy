/**
 * Python's `list.sort(key=...)` and `sorted(..., key=...)` are stable sorts.  They are
 * modelled by one stable insertion sort ascending by an integer key; a descending sort
 * (`reverse=True`, which is stable too) is the ascending sort by the negated key.
 */
module Sorting {

  predicate SortedBy<T>(s: seq<T>, key: T -> int) {
    forall i, j :: 0 <= i < j < |s| ==> key(s[i]) <= key(s[j])
  }

  predicate NoDuplicates<T(==)>(s: seq<T>) {
    forall i, j :: 0 <= i < j < |s| ==> s[i] != s[j]
  }

  /** The elements of `s` whose key is `k`, in their order in `s`. */
  function WithKey<T>(s: seq<T>, key: T -> int, k: int): seq<T>
    decreases |s|
  {
    if s == [] then [] else (if key(s[0]) == k then [s[0]] else []) + WithKey(s[1..], key, k)
  }

  /** Puts `x` in front of the first element whose key is not smaller than its own. */
  function InsertBy<T>(x: T, s: seq<T>, key: T -> int): (r: seq<T>)
    ensures |r| == |s| + 1
    ensures multiset(r) == multiset{x} + multiset(s)
    decreases |s|
  {
    if s == [] || key(x) <= key(s[0]) then [x] + s
    else
      assert s == [s[0]] + s[1..];
      [s[0]] + InsertBy(x, s[1..], key)
  }

  /** Stable sort of `s`, ascending by `key`. */
  function SortBy<T>(s: seq<T>, key: T -> int): (r: seq<T>)
    ensures |r| == |s|
    ensures multiset(r) == multiset(s)
    decreases |s|
  {
    if s == [] then []
    else
      assert s == [s[0]] + s[1..];
      InsertBy(s[0], SortBy(s[1..], key), key)
  }

  lemma {:induction false} InsertBySorted<T>(x: T, s: seq<T>, key: T -> int)
    requires SortedBy(s, key)
    ensures SortedBy(InsertBy(x, s, key), key)
    decreases |s|
  {
    if s != [] && key(x) > key(s[0]) {
      InsertBySorted(x, s[1..], key);
      var r := InsertBy(x, s[1..], key);
      forall y | y in r ensures key(s[0]) <= key(y) {
        assert y in multiset(r);
      }
    }
  }

  /** The result of SortBy is ordered by the key. */
  lemma {:induction false} SortBySorted<T>(s: seq<T>, key: T -> int)
    ensures SortedBy(SortBy(s, key), key)
    decreases |s|
  {
    if s != [] {
      SortBySorted(s[1..], key);
      InsertBySorted(s[0], SortBy(s[1..], key), key);
    }
  }

  lemma {:induction false} InsertByWithKey<T>(x: T, s: seq<T>, key: T -> int, k: int)
    ensures WithKey(InsertBy(x, s, key), key, k) == (if key(x) == k then [x] else []) + WithKey(s, key, k)
    decreases |s|
  {
    var kx: seq<T> := if key(x) == k then [x] else [];
    if s == [] || key(x) <= key(s[0]) {
      assert InsertBy(x, s, key) == [x] + s;
      WithKeyCons(x, s, key, k);
    } else {
      var y := s[0];
      var rest := InsertBy(x, s[1..], key);
      var ky: seq<T> := if key(y) == k then [y] else [];
      calc {
        WithKey(InsertBy(x, s, key), key, k);
        { assert InsertBy(x, s, key) == [y] + rest; }
        WithKey([y] + rest, key, k);
        { WithKeyCons(y, rest, key, k); }
        ky + WithKey(rest, key, k);
        { InsertByWithKey(x, s[1..], key, k); }
        ky + (kx + WithKey(s[1..], key, k));
        { assert ky == [] || kx == []; }
        kx + (ky + WithKey(s[1..], key, k));
        { WithKeyCons(y, s[1..], key, k); assert [y] + s[1..] == s; }
        kx + WithKey(s, key, k);
      }
    }
  }

  /** Selecting by key from a sequence with one element in front. */
  lemma WithKeyCons<T>(y: T, t: seq<T>, key: T -> int, k: int)
    ensures WithKey([y] + t, key, k) == (if key(y) == k then [y] else []) + WithKey(t, key, k)
  {
    assert ([y] + t)[1..] == t;
  }

  /** Stability: for every key, the elements with that key keep their relative order. */
  lemma {:induction false} SortByStable<T>(s: seq<T>, key: T -> int, k: int)
    ensures WithKey(SortBy(s, key), key, k) == WithKey(s, key, k)
    decreases |s|
  {
    if s != [] {
      SortByStable(s[1..], key, k);
      InsertByWithKey(s[0], SortBy(s[1..], key), key, k);
    }
  }

  /** Sorting keeps a sequence free of duplicates, and keeps its elements. */
  lemma SortByMembers<T>(s: seq<T>, key: T -> int)
    ensures forall x :: x in SortBy(s, key) <==> x in s
    ensures NoDuplicates(s) ==> NoDuplicates(SortBy(s, key))
  {
    var r := SortBy(s, key);
    forall x ensures x in r <==> x in s {
      assert x in r <==> x in multiset(r);
      assert x in s <==> x in multiset(s);
    }
    if NoDuplicates(s) {
      MultisetNoDuplicates(s);
      MultisetNoDuplicates(r);
    }
  }

  /** A sequence has no duplicates exactly when every element occurs once in its multiset. */
  lemma {:induction false} MultisetNoDuplicates<T>(s: seq<T>)
    ensures NoDuplicates(s) <==> forall x :: multiset(s)[x] <= 1
    decreases |s|
  {
    if s != [] {
      var t := s[1..];
      MultisetNoDuplicates(t);
      assert s == [s[0]] + t;
      assert multiset(s) == multiset{s[0]} + multiset(t);
      if NoDuplicates(s) {
        forall k | 0 <= k < |t| ensures t[k] != s[0] {
          assert t[k] == s[k + 1];
        }
        assert NoDuplicates(t) by {
          forall i, j | 0 <= i < j < |t| ensures t[i] != t[j] {
            assert t[i] == s[i + 1] && t[j] == s[j + 1];
          }
        }
        assert multiset(t)[s[0]] == 0;
      }
      if forall x :: multiset(s)[x] <= 1 {
        assert multiset(s)[s[0]] == 1 + multiset(t)[s[0]];
        forall x ensures multiset(t)[x] <= 1 {
          assert multiset(s)[x] >= multiset(t)[x];
        }
        forall i, j | 0 <= i < j < |s| ensures s[i] != s[j] {
          assert s[j] == t[j - 1];
          if i > 0 {
            assert s[i] == t[i - 1];
          } else {
            assert s[j] in multiset(t);
          }
        }
      }
    }
  }

  /** Sorting a sequence that is already in order leaves it as it is. */
  lemma {:induction false} SortBySortedIdentity<T>(s: seq<T>, key: T -> int)
    requires SortedBy(s, key)
    ensures SortBy(s, key) == s
    decreases |s|
  {
    if s != [] {
      assert SortedBy(s[1..], key) by {
        forall i, j | 0 <= i < j < |s[1..]| ensures key(s[1..][i]) <= key(s[1..][j]) {
          assert s[1..][i] == s[i + 1] && s[1..][j] == s[j + 1];
        }
      }
      SortBySortedIdentity(s[1..], key);
      assert [s[0]] + s[1..] == s;
    }
  }

  /**
   * A prefix of a sorted sequence is sorted, and none of its elements has a larger key
   * than an element after it.
   */
  lemma SortedPrefix<T>(s: seq<T>, key: T -> int, n: nat)
    requires SortedBy(s, key) && n <= |s|
    ensures SortedBy(s[..n], key)
    ensures forall i, j :: 0 <= i < n <= j < |s| ==> key(s[i]) <= key(s[j])
  {
    forall i, j | 0 <= i < j < n ensures key(s[..n][i]) <= key(s[..n][j]) {
      assert s[..n][i] == s[i] && s[..n][j] == s[j];
    }
  }

  /** A prefix of a sequence without duplicates has none either. */
  lemma NoDuplicatesPrefix<T>(s: seq<T>, n: nat)
    requires NoDuplicates(s) && n <= |s|
    ensures NoDuplicates(s[..n])
  {
    forall i, j | 0 <= i < j < n ensures s[..n][i] != s[..n][j] {
      assert s[..n][i] == s[i] && s[..n][j] == s[j];
    }
  }

  /** A sorted sequence followed by elements whose key is `c`, no smaller than any before, stays sorted. */
  lemma SortedAppend<T>(a: seq<T>, b: seq<T>, key: T -> int, c: int)
    requires SortedBy(a, key)
    requires forall x :: x in a ==> key(x) <= c
    requires forall x :: x in b ==> key(x) == c
    ensures SortedBy(a + b, key)
  {
    var s := a + b;
    forall i, j | 0 <= i < j < |s| ensures key(s[i]) <= key(s[j]) {
      if j >= |a| {
        assert s[j] in b;
        if i < |a| {
          assert s[i] in a;
        } else {
          assert s[i] in b;
        }
      }
    }
  }
}
