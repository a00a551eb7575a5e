/**
 * The first stage of a run: walking the fetched timeline (newest first) to pick the
 * tweets of the last thirty minutes.  A tweet whose time cannot be read is skipped, the
 * first tweet older than the window ends the walk, retweets are ignored altogether,
 * every other tweet in the window has its id collected, and those not seen before
 * become the candidates for delivery.
 */
module Window {
  import opened Types
  import opened Sorting
  import opened Text

  /** The window reaches thirty minutes back from now. */
  const WindowSeconds := 30 * 60

  /** `re.match(r'RT @.*', text, re.IGNORECASE)` succeeds: the text starts with `RT @` in any case. */
  predicate IsRetweet(text: string) {
    |text| >= 4 && (text[0] == 'R' || text[0] == 'r') && (text[1] == 'T' || text[1] == 't') &&
    text[2] == ' ' && text[3] == '@'
  }

  /** Case is ignored: the text is a retweet exactly when its first four characters, lower-cased, are `rt @`. */
  lemma RetweetPrefix(text: string)
    ensures IsRetweet(text) <==> |text| >= 4 && Lower(text[..4]) == "rt @"
  {
  }

  /** A tweet whose readable time lies before the threshold: the walk stops at it. */
  predicate IsOld(t: Tweet, threshold: int) {
    t.createdAt.Some? && t.createdAt.value < threshold
  }

  /** A tweet whose id is collected: readable time inside the window, not a retweet. */
  predicate InWindow(t: Tweet, threshold: int) {
    t.createdAt.Some? && t.createdAt.value >= threshold && !IsRetweet(t.text)
  }

  /** What the walk produces: the new tweets in timeline order and the ids seen in the window. */
  datatype Scan = Scan(recent: seq<Tweet>, window: set<TweetId>)

  /** The walk, stated recursively from the front of the timeline. */
  function ScanSpec(tweets: seq<Tweet>, threshold: int, seen: set<TweetId>): Scan
    decreases |tweets|
  {
    if tweets == [] then Scan([], {})
    else
      var t := tweets[0];
      if t.createdAt.None? then ScanSpec(tweets[1..], threshold, seen)
      else if t.createdAt.value < threshold then Scan([], {})
      else
        var rest := ScanSpec(tweets[1..], threshold, seen);
        if IsRetweet(t.text) then rest
        else Scan((if t.id in seen then [] else [t]) + rest.recent, {t.id} + rest.window)
  }

  /** The position of the first old tweet, or the length of the timeline when there is none. */
  function Cutoff(tweets: seq<Tweet>, threshold: int): (k: nat)
    ensures k <= |tweets|
    ensures forall i :: 0 <= i < k ==> !IsOld(tweets[i], threshold)
    ensures k < |tweets| ==> IsOld(tweets[k], threshold)
    decreases |tweets|
  {
    if tweets == [] || IsOld(tweets[0], threshold) then 0
    else 1 + Cutoff(tweets[1..], threshold)
  }

  /**
   * The filtering loop over the timeline: returns the new tweets and the in-window ids
   * that the walk produces.
   */
  method FilterWindow(tweets: seq<Tweet>, threshold: int, seen: set<TweetId>)
    returns (recent: seq<Tweet>, window: set<TweetId>)
    ensures Scan(recent, window) == ScanSpec(tweets, threshold, seen)
  {
    recent := [];
    window := {};
    var i := 0;
    while i < |tweets|
      invariant 0 <= i <= |tweets|
      invariant recent + ScanSpec(tweets[i..], threshold, seen).recent == ScanSpec(tweets, threshold, seen).recent
      invariant window + ScanSpec(tweets[i..], threshold, seen).window == ScanSpec(tweets, threshold, seen).window
    {
      var t := tweets[i];
      ScanFrom(tweets, i, threshold, seen);
      ghost var rest := ScanSpec(tweets[i + 1..], threshold, seen);
      if t.createdAt.None? {
        // reading the time raises: this tweet alone is skipped
        i := i + 1;
        continue;
      }
      if t.createdAt.value >= threshold {
        if !IsRetweet(t.text) {
          window := window + {t.id};
          if t.id !in seen {
            assert recent + ([t] + rest.recent) == (recent + [t]) + rest.recent;
            recent := recent + [t];
          } else {
            assert [] + rest.recent == rest.recent;
          }
        }
      } else {
        break;
      }
      i := i + 1;
    }
    assert i < |tweets| ==> ScanSpec(tweets[i..], threshold, seen) == Scan([], {});
  }

  /** The walk from position `i`, one tweet unfolded. */
  lemma ScanFrom(tweets: seq<Tweet>, i: nat, threshold: int, seen: set<TweetId>)
    requires i < |tweets|
    ensures var t := tweets[i];
      var rest := ScanSpec(tweets[i + 1..], threshold, seen);
      ScanSpec(tweets[i..], threshold, seen) ==
        if t.createdAt.None? then rest
        else if t.createdAt.value < threshold then Scan([], {})
        else if IsRetweet(t.text) then rest
        else Scan((if t.id in seen then [] else [t]) + rest.recent, {t.id} + rest.window)
  {
    assert tweets[i..][1..] == tweets[i + 1..];
  }

  /** The walk ignores everything after the first old tweet: appending more tweets changes nothing. */
  lemma {:induction false} ScanIgnoresAfterCutoff(tweets: seq<Tweet>, more: seq<Tweet>, threshold: int, seen: set<TweetId>)
    requires Cutoff(tweets, threshold) < |tweets|
    ensures ScanSpec(tweets + more, threshold, seen) == ScanSpec(tweets, threshold, seen)
    decreases |tweets|
  {
    assert (tweets + more)[0] == tweets[0];
    if !IsOld(tweets[0], threshold) {
      assert (tweets + more)[1..] == tweets[1..] + more;
      ScanIgnoresAfterCutoff(tweets[1..], more, threshold, seen);
    }
  }

  /**
   * A tweet is a candidate exactly when it stands before the cutoff, lies in the window,
   * is not a retweet, and its id was not seen before.
   */
  lemma {:induction false} ScanRecentIff(tweets: seq<Tweet>, threshold: int, seen: set<TweetId>, t: Tweet)
    ensures t in ScanSpec(tweets, threshold, seen).recent <==>
      (exists i :: 0 <= i < Cutoff(tweets, threshold) && tweets[i] == t) && InWindow(t, threshold) && t.id !in seen
    decreases |tweets|
  {
    if tweets != [] {
      ScanRecentIff(tweets[1..], threshold, seen, t);
      if !IsOld(tweets[0], threshold) {
        var k := Cutoff(tweets, threshold);
        assert forall i :: 1 <= i < k ==> tweets[i] == tweets[1..][i - 1];
        assert forall i :: 0 <= i < k - 1 ==> tweets[1..][i] == tweets[i + 1];
      }
    }
  }

  /**
   * An id is collected exactly when some tweet before the cutoff that lies in the window
   * and is not a retweet carries it; in particular no retweet id is ever collected.
   */
  lemma {:induction false} ScanWindowIff(tweets: seq<Tweet>, threshold: int, seen: set<TweetId>, id: TweetId)
    ensures id in ScanSpec(tweets, threshold, seen).window <==>
      exists i :: 0 <= i < Cutoff(tweets, threshold) && InWindow(tweets[i], threshold) && tweets[i].id == id
    decreases |tweets|
  {
    if tweets != [] {
      ScanWindowIff(tweets[1..], threshold, seen, id);
      if !IsOld(tweets[0], threshold) {
        var k := Cutoff(tweets, threshold);
        assert forall i :: 1 <= i < k ==> tweets[i] == tweets[1..][i - 1];
        assert forall i :: 0 <= i < k - 1 ==> tweets[1..][i] == tweets[i + 1];
      }
    }
  }

  /** The sort key of the candidates: their creation time. */
  function TimeKey(t: Tweet): int {
    t.createdAt.GetOr(0)
  }

  /**
   * `recent_tweets.sort(key=created_at)`: the candidates oldest first, the same tweets,
   * and tweets with equal times in timeline order.
   */
  lemma OrderedCandidates(recent: seq<Tweet>)
    ensures SortedBy(SortBy(recent, TimeKey), TimeKey)
    ensures multiset(SortBy(recent, TimeKey)) == multiset(recent)
    ensures forall k :: WithKey(SortBy(recent, TimeKey), TimeKey, k) == WithKey(recent, TimeKey, k)
  {
    SortBySorted(recent, TimeKey);
    forall k ensures WithKey(SortBy(recent, TimeKey), TimeKey, k) == WithKey(recent, TimeKey, k) {
      SortByStable(recent, TimeKey, k);
    }
  }

  /** The window ids do not depend on which ids were handled before. */
  lemma {:induction false} ScanWindowSeenFree(tweets: seq<Tweet>, threshold: int, seen1: set<TweetId>, seen2: set<TweetId>)
    ensures ScanSpec(tweets, threshold, seen1).window == ScanSpec(tweets, threshold, seen2).window
    decreases |tweets|
  {
    if tweets != [] {
      ScanWindowSeenFree(tweets[1..], threshold, seen1, seen2);
    }
  }

  /** When every window id was handled before, there is no candidate. */
  lemma {:induction false} ScanSettled(tweets: seq<Tweet>, threshold: int, seen: set<TweetId>)
    requires ScanSpec(tweets, threshold, seen).window <= seen
    ensures ScanSpec(tweets, threshold, seen).recent == []
    decreases |tweets|
  {
    if tweets != [] {
      var t := tweets[0];
      var rest := ScanSpec(tweets[1..], threshold, seen);
      if t.createdAt.Some? && t.createdAt.value >= threshold && !IsRetweet(t.text) {
        assert t.id in seen;
      }
      if t.createdAt.None? || t.createdAt.value >= threshold {
        ScanSettled(tweets[1..], threshold, seen);
      }
    }
  }
}
