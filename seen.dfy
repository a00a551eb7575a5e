/**
 * The last stage of a run: the list of tweet ids already handled.  The ids collected in
 * the window are merged with the stored ones, the merged set is listed, sorted by numeric
 * value from largest to smallest (an id that is not a digit string counts as 0), and cut
 * to the 200 first; the list is written back only when it holds a different set of ids.
 */
module Seen {
  import opened Types
  import opened Text
  import opened Sorting

  const MaxSeenIds := 200

  /** `int(x) if x.isdigit() else 0` */
  function SeenKey(id: TweetId): nat {
    if IsDigits(id) then DigitsValue(id) else 0
  }

  /** The ascending key whose stable order is the descending (`reverse=True`) order by SeenKey. */
  function DescSeenKey(id: TweetId): int {
    -(SeenKey(id) as int)
  }

  /**
   * `list(combined)`: the elements of a set in some order, each once.  The order Python
   * produces is not specified, so the model picks any.
   */
  method ListOfSet(s: set<TweetId>) returns (l: seq<TweetId>)
    ensures NoDuplicates(l)
    ensures forall x :: x in l <==> x in s
    ensures |l| == |s|
  {
    l := [];
    var rest := s;
    while rest != {}
      invariant rest <= s
      invariant NoDuplicates(l)
      invariant forall x :: x in l <==> x in s && x !in rest
      invariant |l| + |rest| == |s|
      decreases |rest|
    {
      var x :| x in rest;
      l := l + [x];
      rest := rest - {x};
    }
  }

  /** `sorted(listing, key=..., reverse=True)[:200]` */
  function PruneSeen(listing: seq<TweetId>): (r: seq<TweetId>)
    ensures |r| == if |listing| <= MaxSeenIds then |listing| else MaxSeenIds
  {
    var sorted := SortBy(listing, DescSeenKey);
    if |sorted| <= MaxSeenIds then sorted else sorted[..MaxSeenIds]
  }

  /**
   * The pruned list holds at most 200 ids, each once, all from the listing, ordered by
   * numeric value from largest to smallest; every id dropped is no larger than every id
   * kept, and when the listing has at most 200 ids nothing is dropped.
   */
  lemma PrunedSeenList(listing: seq<TweetId>)
    requires NoDuplicates(listing)
    ensures var r := PruneSeen(listing);
      && |r| <= MaxSeenIds
      && NoDuplicates(r)
      && (forall x :: x in r ==> x in listing)
      && (forall i, j :: 0 <= i < j < |r| ==> SeenKey(r[i]) >= SeenKey(r[j]))
      && (forall x, y :: x in listing && x !in r && y in r ==> SeenKey(y) >= SeenKey(x))
      && (|listing| <= MaxSeenIds ==> forall x :: x in listing ==> x in r)
  {
    PrunedMembers(listing);
    PrunedOrder(listing);
  }

  lemma PrunedMembers(listing: seq<TweetId>)
    requires NoDuplicates(listing)
    ensures var r := PruneSeen(listing);
      && NoDuplicates(r)
      && (forall x :: x in r ==> x in listing)
      && (|listing| <= MaxSeenIds ==> forall x :: x in listing ==> x in r)
  {
    var sorted := SortBy(listing, DescSeenKey);
    SortByMembers(listing, DescSeenKey);
    var r := PruneSeen(listing);
    assert r == sorted[..|r|];
    NoDuplicatesPrefix(sorted, |r|);
    forall x | x in r ensures x in listing {
      assert x in sorted;
    }
  }

  lemma PrunedOrder(listing: seq<TweetId>)
    ensures var r := PruneSeen(listing);
      && (forall i, j :: 0 <= i < j < |r| ==> SeenKey(r[i]) >= SeenKey(r[j]))
      && (forall x, y :: x in listing && x !in r && y in r ==> SeenKey(y) >= SeenKey(x))
  {
    var sorted := SortBy(listing, DescSeenKey);
    SortBySorted(listing, DescSeenKey);
    SortByMembers(listing, DescSeenKey);
    var r := PruneSeen(listing);
    var n := |r|;
    assert r == sorted[..n];
    SortedPrefix(sorted, DescSeenKey, n);
    forall x, y | x in listing && x !in r && y in r ensures SeenKey(y) >= SeenKey(x) {
      var i :| 0 <= i < |sorted| && sorted[i] == x;
      var j :| 0 <= j < n && r[j] == y;
      assert DescSeenKey(sorted[j]) <= DescSeenKey(sorted[i]);
    }
    forall i, j | 0 <= i < j < n ensures SeenKey(r[i]) >= SeenKey(r[j]) {
      assert DescSeenKey(r[i]) <= DescSeenKey(r[j]);
    }
  }

  /** Pruning a pruned list changes nothing: a second run with no new ids writes the same list. */
  lemma PruneSeenIdempotent(listing: seq<TweetId>)
    ensures PruneSeen(PruneSeen(listing)) == PruneSeen(listing)
  {
    var sorted := SortBy(listing, DescSeenKey);
    SortBySorted(listing, DescSeenKey);
    var r := PruneSeen(listing);
    assert r == sorted[..|r|];
    assert SortedBy(r, DescSeenKey) by {
      forall i, j | 0 <= i < j < |r| ensures DescSeenKey(r[i]) <= DescSeenKey(r[j]) {
        assert r[i] == sorted[i] && r[j] == sorted[j];
      }
    }
    SortBySortedIdentity(r, DescSeenKey);
  }

  /**
   * The stored list after a run: `None` when the pruned list holds the same set of ids as
   * the stored one (the object is not written), otherwise the pruned list.
   */
  function SeenUpdate(stored: set<TweetId>, listing: seq<TweetId>): (u: Option<seq<TweetId>>)
    ensures u.None? <==> SetOf(PruneSeen(listing)) == stored
    ensures u.Some? ==> u.value == PruneSeen(listing) && SetOf(u.value) != stored
  {
    var updated := PruneSeen(listing);
    if SetOf(updated) != stored then Some(updated) else None
  }

  /** A list without duplicates has as many ids as its set. */
  lemma {:induction false} SetOfSize(ids: seq<TweetId>)
    requires NoDuplicates(ids)
    ensures |SetOf(ids)| == |ids|
    decreases |ids|
  {
    if ids != [] {
      var front := ids[..|ids| - 1];
      var last := ids[|ids| - 1];
      assert NoDuplicates(front) by {
        forall i, j | 0 <= i < j < |front| ensures front[i] != front[j] {
          assert front[i] == ids[i] && front[j] == ids[j];
        }
      }
      SetOfSize(front);
      assert last !in SetOf(front);
      assert SetOf(ids) == SetOf(front) + {last} by {
        assert ids == front + [last];
      }
    }
  }
}
