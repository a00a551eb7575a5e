/**
 * What a check run guarantees, stated about `RunSpec` (which `CheckTweetsForUser` is
 * proved to follow): which failures switch tracking off, which tweets are posted and in
 * what order, what the handled-id list becomes, and that nothing but the user's own
 * settings object is written.
 */
module RunProperties {
  import opened Types
  import opened Text
  import opened Sorting
  import opened Store
  import opened Window
  import opened Delivery
  import opened Seen
  import opened Pipeline
  import Setup

  /** Only the user's own object is written, and in it only the flag and the handled-id list. */
  predicate Framed(o: Outcome, uid: UserId, r0: Record, files0: map<UserId, Record>) {
    && (o.files == files0 || o.files == files0[uid := o.record])
    && o.record.(enabled := r0.enabled, seenTweetIds := r0.seenTweetIds) == r0
  }

  /**
   * Tracking ends up off exactly on the runs that end by switching it off, and the
   * handled-id list changes only on a finished run.
   */
  predicate FlagsFollowExit(o: Outcome, uid: UserId, r0: Record, files0: map<UserId, Record>) {
    && (o.report.exit.ConfigIncomplete? || o.report.exit.Disabled? ==>
          o.record.enabled == Some(false) && o.record.seenTweetIds == r0.seenTweetIds && o.files == files0[uid := o.record])
    && (!(o.report.exit.ConfigIncomplete? || o.report.exit.Disabled?) ==> o.record.enabled == r0.enabled)
    && (!o.report.exit.Finished? ==> o.record.seenTweetIds == r0.seenTweetIds)
  }

  /** The delivery part of a run keeps to the same frame and the same flag rules. */
  lemma DeliverSpecFramed(uid: UserId, r0: Record, files0: map<UserId, Record>, w: World, info: UserInfo,
                          tweets: seq<Tweet>, listing: seq<TweetId>)
    requires r0.webhookUrl.Some?
    ensures Framed(DeliverSpec(uid, r0, files0, w, info, tweets, listing), uid, r0, files0)
    ensures FlagsFollowExit(DeliverSpec(uid, r0, files0, w, info, tweets, listing), uid, r0, files0)
  {
    var cands := SortBy(ScanSpec(tweets, Threshold(w), r0.SeenSet()).recent, TimeKey);
    ConcludeFramed(uid, r0, files0, DeliverySpec(cands, info, r0.webhookUrl.value, w.responses, w.dms), listing);
  }

  /** Whatever the delivery loop did, ending the run keeps to the frame and the flag rules. */
  lemma ConcludeFramed(uid: UserId, r0: Record, files0: map<UserId, Record>, del: Delivery, listing: seq<TweetId>)
    ensures Framed(Conclude(uid, r0, files0, del, listing), uid, r0, files0)
    ensures FlagsFollowExit(Conclude(uid, r0, files0, del, listing), uid, r0, files0)
  {
  }

  /**
   * A finished delivery writes the pruned list exactly when it holds a different set of
   * ids from the stored one, and otherwise writes nothing.
   */
  lemma DeliverSpecFinished(uid: UserId, r0: Record, files0: map<UserId, Record>, w: World, info: UserInfo,
                            tweets: seq<Tweet>, listing: seq<TweetId>)
    requires r0.webhookUrl.Some?
    ensures var o := DeliverSpec(uid, r0, files0, w, info, tweets, listing);
      o.report.exit.Finished? ==>
        && (o.report.exit.seenSaved <==> SetOf(PruneSeen(listing)) != r0.SeenSet())
        && (o.report.exit.seenSaved ==>
              o.record == r0.(seenTweetIds := Some(PruneSeen(listing))) && o.files == files0[uid := o.record])
        && (!o.report.exit.seenSaved ==> o.record == r0 && o.files == files0)
  {
    var cands := SortBy(ScanSpec(tweets, Threshold(w), r0.SeenSet()).recent, TimeKey);
    ConcludeFinished(uid, r0, files0, DeliverySpec(cands, info, r0.webhookUrl.value, w.responses, w.dms), listing);
  }

  lemma ConcludeFinished(uid: UserId, r0: Record, files0: map<UserId, Record>, del: Delivery, listing: seq<TweetId>)
    ensures var o := Conclude(uid, r0, files0, del, listing);
      o.report.exit.Finished? ==>
        && (o.report.exit.seenSaved <==> SetOf(PruneSeen(listing)) != r0.SeenSet())
        && (o.report.exit.seenSaved ==>
              o.record == r0.(seenTweetIds := Some(PruneSeen(listing))) && o.files == files0[uid := o.record])
        && (!o.report.exit.seenSaved ==> o.record == r0 && o.files == files0)
  {
  }

  /**
   * A run only ever writes the user's own settings object, and only the `enabled` flag and
   * the handled-id list in it can change; tracking ends up off exactly on the runs that end
   * by switching it off.
   */
  lemma RunTouchesOnlyOwnSettings(uid: UserId, r0: Record, files0: map<UserId, Record>, w: World, listing: seq<TweetId>)
    ensures Framed(RunSpec(uid, r0, files0, w, listing), uid, r0, files0)
    ensures FlagsFollowExit(RunSpec(uid, r0, files0, w, listing), uid, r0, files0)
    ensures var o := RunSpec(uid, r0, files0, w, listing);
      forall u :: u != uid ==> (u in o.files <==> u in files0) && (u in files0 ==> o.files[u] == files0[u])
  {
    if r0.Complete() && CookiesUsable(w.decrypted) && w.fetch.Fetched? && w.fetch.tweets != [] {
      DeliverSpecFramed(uid, r0, files0, w, w.fetch.info, w.fetch.tweets, listing);
    }
    FramedKeepsOthers(RunSpec(uid, r0, files0, w, listing), uid, r0, files0);
  }

  /** An outcome within the frame leaves every other user's settings as they were. */
  lemma FramedKeepsOthers(o: Outcome, uid: UserId, r0: Record, files0: map<UserId, Record>)
    requires Framed(o, uid, r0, files0)
    ensures forall u :: u != uid ==> (u in o.files <==> u in files0) && (u in files0 ==> o.files[u] == files0[u])
  {
  }

  /** A run with a required key missing switches tracking off and stops before doing anything else. */
  lemma IncompleteSettingsDisable(uid: UserId, r0: Record, files0: map<UserId, Record>, w: World, listing: seq<TweetId>)
    requires !r0.Complete()
    ensures var o := RunSpec(uid, r0, files0, w, listing);
      && o.report == Report(ConfigIncomplete, [], [], {}, [])
      && o.record.enabled == Some(false)
      && o.record.(enabled := r0.enabled) == r0
      && o.files == files0[uid := o.record]
  {
  }

  /**
   * The run ended by telling the user about `reason` before anything was posted: tracking is
   * off afterwards exactly when the notice did not fail, and otherwise nothing was written.
   */
  predicate EndedEarlyFor(o: Outcome, uid: UserId, r0: Record, files0: map<UserId, Record>, w: World, reason: Reason) {
    && o.report.attempts == []
    && o.report.notices == [reason]
    && (o.report.exit == Disabled(reason) || o.report.exit == DisableRaised(reason))
    && (o.report.exit.Disabled? <==> DmAt(w.dms, 0) != DmHttpError)
    && (o.report.exit.Disabled? ==> o.record == DisabledRecord(r0) && o.files == files0[uid := o.record])
    && (o.report.exit.DisableRaised? ==> o.record == r0 && o.files == files0)
  }

  /**
   * The failures before delivery: unusable cookies, a missing target, an unknown target and
   * an authentication error all tell the user and switch tracking off; any other fetch
   * error ends the run with nothing written.
   */
  lemma FailureClassification(uid: UserId, r0: Record, files0: map<UserId, Record>, w: World, listing: seq<TweetId>)
    requires r0.Complete()
    ensures var o := RunSpec(uid, r0, files0, w, listing);
      !CookiesUsable(w.decrypted) ==> EndedEarlyFor(o, uid, r0, files0, w, CookieUnreadable)
    ensures var o := RunSpec(uid, r0, files0, w, listing);
      CookiesUsable(w.decrypted) && w.fetch.TargetFalsy? ==> EndedEarlyFor(o, uid, r0, files0, w, TargetMissing)
    ensures var o := RunSpec(uid, r0, files0, w, listing);
      CookiesUsable(w.decrypted) && w.fetch == FetchRaised(UserNotFound) ==> EndedEarlyFor(o, uid, r0, files0, w, TargetNotFound)
    ensures var o := RunSpec(uid, r0, files0, w, listing);
      CookiesUsable(w.decrypted) && w.fetch.FetchRaised? && w.fetch.error.HttpError? && IsAuthError(w.fetch.error.message) ==>
        EndedEarlyFor(o, uid, r0, files0, w, AuthFailure)
    ensures var o := RunSpec(uid, r0, files0, w, listing);
      CookiesUsable(w.decrypted) && w.fetch.FetchRaised? && w.fetch.error != UserNotFound &&
      !(w.fetch.error.HttpError? && IsAuthError(w.fetch.error.message)) ==>
        o.report == Report(FetchAborted, [], [], {}, []) && o.record == r0 && o.files == files0
  {
  }

  /**
   * Cookies that the setup dialog accepted and stored pass the run's check once decryption
   * gives back the stored dictionary.
   */
  lemma SetupCookiesUsable(items: seq<Setup.CookieEntry>)
    requires Setup.CookiesFromExport(items).Some?
    ensures CookiesUsable(JsonObject(Setup.CookiesFromExport(items).value))
  {
  }

  /** An empty timeline ends the run with nothing posted and nothing written. */
  lemma EmptyFetchUntouched(uid: UserId, r0: Record, files0: map<UserId, Record>, w: World, listing: seq<TweetId>, info: UserInfo)
    requires r0.Complete() && CookiesUsable(w.decrypted) && w.fetch == Fetched(info, [])
    ensures var o := RunSpec(uid, r0, files0, w, listing);
      o.report == Report(NothingFetched, [], [], {}, []) && o.record == r0 && o.files == files0
  {
  }

  /** The tweet with this id is one the filter lets through as new. */
  predicate FreshInWindow(tweets: seq<Tweet>, w: World, r0: Record, id: TweetId) {
    exists i :: 0 <= i < Cutoff(tweets, Threshold(w)) && tweets[i].id == id &&
      InWindow(tweets[i], Threshold(w)) && id !in r0.SeenSet()
  }

  /**
   * Every request posts a tweet that stands before the first old tweet of the timeline,
   * lies in the window, is not a retweet, and was not handled before; the same holds of
   * every id reported posted.
   */
  lemma PostsAreFreshTweets(uid: UserId, r0: Record, files0: map<UserId, Record>, w: World, listing: seq<TweetId>,
                            info: UserInfo, tweets: seq<Tweet>)
    requires r0.Complete() && CookiesUsable(w.decrypted) && w.fetch == Fetched(info, tweets)
    ensures var o := RunSpec(uid, r0, files0, w, listing);
      forall a :: a in o.report.attempts ==> FreshInWindow(tweets, w, r0, a.tweetId)
    ensures var o := RunSpec(uid, r0, files0, w, listing);
      forall id :: id in o.report.posted ==> FreshInWindow(tweets, w, r0, id)
  {
    if tweets != [] {
      var th := Threshold(w);
      var scan := ScanSpec(tweets, th, r0.SeenSet());
      var cands := SortBy(scan.recent, TimeKey);
      var del := DeliverySpec(cands, info, r0.webhookUrl.value, w.responses, w.dms);
      var o := RunSpec(uid, r0, files0, w, listing);
      assert o.report.attempts == del.attempts && o.report.posted == del.posted;
      forall j | 0 <= j < |cands| ensures FreshInWindow(tweets, w, r0, cands[j].id) {
        assert cands[j] in multiset(scan.recent);
        ScanRecentIff(tweets, th, r0.SeenSet(), cands[j]);
      }
      AttemptsFromCandidates(cands, info, r0.webhookUrl.value, w.responses, w.dms);
      DeliveryBounds(cands, info, r0.webhookUrl.value, w.responses, w.dms);
    }
  }

  /** Requests go out oldest tweet first. */
  lemma PostsOldestFirst(uid: UserId, r0: Record, files0: map<UserId, Record>, w: World, listing: seq<TweetId>)
    ensures SortedBy(RunSpec(uid, r0, files0, w, listing).report.attempts, PostTime)
  {
    if r0.Complete() && CookiesUsable(w.decrypted) && w.fetch.Fetched? && w.fetch.tweets != [] {
      var scan := ScanSpec(w.fetch.tweets, Threshold(w), r0.SeenSet());
      var cands := SortBy(scan.recent, TimeKey);
      OrderedCandidates(scan.recent);
      var del := DeliverySpec(cands, w.fetch.info, r0.webhookUrl.value, w.responses, w.dms);
      DeliveryOrdered(cands, w.fetch.info, r0.webhookUrl.value, w.responses, w.dms);
      ConcludeReports(uid, r0, files0, del, listing);
      assert RunSpec(uid, r0, files0, w, listing) == Conclude(uid, r0, files0, del, listing);
    }
  }

  /** However a run ends after the delivery loop, it reports the loop's requests, pauses and posts. */
  lemma ConcludeReports(uid: UserId, r0: Record, files0: map<UserId, Record>, del: Delivery, listing: seq<TweetId>)
    ensures var rep := Conclude(uid, r0, files0, del, listing).report;
      rep.attempts == del.attempts && rep.delays == del.delays && rep.posted == del.posted &&
      rep.notices == Rejections(del.notices)
  {
  }

  /** `listing` lists the merged id set, each id once. */
  predicate ListsCombined(listing: seq<TweetId>, r0: Record, w: World) {
    NoDuplicates(listing) && SetOf(listing) == CombinedSeen(r0, w)
  }

  /**
   * The handled-id list changes exactly when a run finishes with a different set of ids;
   * the new list holds at most 200 ids, each once, ordered by numeric value from largest to
   * smallest, each either handled before or collected from a non-retweet in the window.
   */
  lemma SeenListUpdate(uid: UserId, r0: Record, files0: map<UserId, Record>, w: World, listing: seq<TweetId>)
    requires ListsCombined(listing, r0, w)
    ensures var o := RunSpec(uid, r0, files0, w, listing);
      o.report.exit == Finished(true) <==> o.record.seenTweetIds != r0.seenTweetIds
    ensures var o := RunSpec(uid, r0, files0, w, listing);
      o.report.exit == Finished(false) ==> o.record == r0 && o.files == files0
    ensures var o := RunSpec(uid, r0, files0, w, listing);
      o.report.exit == Finished(true) ==>
        && o.record.seenTweetIds.Some?
        && var l := o.record.seenTweetIds.value;
        && |l| <= MaxSeenIds
        && NoDuplicates(l)
        && SetOf(l) != r0.SeenSet()
        && (forall i, j :: 0 <= i < j < |l| ==> SeenKey(l[i]) >= SeenKey(l[j]))
        && (forall x :: x in l ==>
              (x in r0.SeenSet() ||
               exists i :: 0 <= i < Cutoff(w.fetch.tweets, Threshold(w)) &&
                 InWindow(w.fetch.tweets[i], Threshold(w)) && w.fetch.tweets[i].id == x))
  {
    if r0.Complete() && CookiesUsable(w.decrypted) && w.fetch.Fetched? && w.fetch.tweets != [] {
      DeliverSeenList(uid, r0, files0, w, w.fetch.info, w.fetch.tweets, listing);
    }
  }

  /** The same, from a non-empty timeline on. */
  lemma DeliverSeenList(uid: UserId, r0: Record, files0: map<UserId, Record>, w: World, info: UserInfo,
                        tweets: seq<Tweet>, listing: seq<TweetId>)
    requires r0.webhookUrl.Some?
    requires NoDuplicates(listing) && SetOf(listing) == ScanSpec(tweets, Threshold(w), r0.SeenSet()).window + r0.SeenSet()
    ensures var o := DeliverSpec(uid, r0, files0, w, info, tweets, listing);
      o.report.exit == Finished(true) <==> o.record.seenTweetIds != r0.seenTweetIds
    ensures var o := DeliverSpec(uid, r0, files0, w, info, tweets, listing);
      o.report.exit == Finished(false) ==> o.record == r0 && o.files == files0
    ensures var o := DeliverSpec(uid, r0, files0, w, info, tweets, listing);
      o.report.exit == Finished(true) ==>
        && o.record.seenTweetIds.Some?
        && var l := o.record.seenTweetIds.value;
        && |l| <= MaxSeenIds
        && NoDuplicates(l)
        && SetOf(l) != r0.SeenSet()
        && (forall i, j :: 0 <= i < j < |l| ==> SeenKey(l[i]) >= SeenKey(l[j]))
        && (forall x :: x in l ==>
              (x in r0.SeenSet() ||
               exists i :: 0 <= i < Cutoff(tweets, Threshold(w)) &&
                 InWindow(tweets[i], Threshold(w)) && tweets[i].id == x))
  {
    DeliverSpecFinished(uid, r0, files0, w, info, tweets, listing);
    PrunedFromCombined(listing, r0, tweets, Threshold(w));
    var pruned := PruneSeen(listing);
    assert r0.seenTweetIds == Some(pruned) ==> r0.SeenSet() == SetOf(pruned);
  }

  /** The pruned merged list: at most 200 ids, each once, largest first, each handled before or in the window. */
  lemma PrunedFromCombined(listing: seq<TweetId>, r0: Record, tweets: seq<Tweet>, th: int)
    requires NoDuplicates(listing) && SetOf(listing) == ScanSpec(tweets, th, r0.SeenSet()).window + r0.SeenSet()
    ensures var l := PruneSeen(listing);
      && |l| <= MaxSeenIds
      && NoDuplicates(l)
      && (forall i, j :: 0 <= i < j < |l| ==> SeenKey(l[i]) >= SeenKey(l[j]))
      && (forall x :: x in l ==>
            (x in r0.SeenSet() ||
             exists i :: 0 <= i < Cutoff(tweets, th) && InWindow(tweets[i], th) && tweets[i].id == x))
  {
    PrunedSeenList(listing);
    forall x | x in listing && x !in r0.SeenSet()
      ensures exists i :: 0 <= i < Cutoff(tweets, th) && InWindow(tweets[i], th) && tweets[i].id == x
    {
      assert x in SetOf(listing);
      ScanWindowIff(tweets, th, r0.SeenSet(), x);
    }
  }

  /**
   * With at most 200 ids in all, a finished run keeps every id collected in the window as
   * handled, whether or not posting it succeeded.
   */
  lemma WindowIdsMarkedSeen(uid: UserId, r0: Record, files0: map<UserId, Record>, w: World, listing: seq<TweetId>)
    requires ListsCombined(listing, r0, w)
    requires |listing| <= MaxSeenIds
    ensures var o := RunSpec(uid, r0, files0, w, listing);
      o.report.exit.Finished? ==> CombinedSeen(r0, w) <= o.record.SeenSet()
  {
    if r0.Complete() && CookiesUsable(w.decrypted) && w.fetch.Fetched? && w.fetch.tweets != [] {
      DeliverSpecFinished(uid, r0, files0, w, w.fetch.info, w.fetch.tweets, listing);
      SmallListingKept(listing);
    }
  }

  /** With at most 200 ids, pruning drops none of them. */
  lemma SmallListingKept(listing: seq<TweetId>)
    requires NoDuplicates(listing) && |listing| <= MaxSeenIds
    ensures SetOf(PruneSeen(listing)) == SetOf(listing)
  {
    PrunedSeenList(listing);
  }

  /**
   * A finished run (with at most 200 ids in all) leaves settings that the same run accepts
   * again: the four keys are still there, and the handled ids are now exactly the window
   * ids together with those handled before.
   */
  lemma FinishedRunSettles(uid: UserId, r0: Record, files0: map<UserId, Record>, w: World, listing: seq<TweetId>)
    requires ListsCombined(listing, r0, w) && |listing| <= MaxSeenIds
    requires RunSpec(uid, r0, files0, w, listing).report.exit.Finished?
    ensures r0.Complete() && CookiesUsable(w.decrypted) && w.fetch.Fetched? && w.fetch.tweets != []
    ensures var r1 := RunSpec(uid, r0, files0, w, listing).record;
      r1.Complete() && r1.webhookUrl == r0.webhookUrl && r1.SeenSet() == CombinedSeen(r0, w)
  {
    assert r0.Complete() && CookiesUsable(w.decrypted) && w.fetch.Fetched? && w.fetch.tweets != [];
    DeliverSpecFinished(uid, r0, files0, w, w.fetch.info, w.fetch.tweets, listing);
    SmallListingKept(listing);
  }

  /**
   * Once every window id is handled, the delivery part of a run posts nothing, and with a
   * listing of the unchanged id set it writes nothing either.
   */
  lemma SettledDelivery(uid: UserId, r1: Record, files1: map<UserId, Record>, w: World, info: UserInfo,
                        tweets: seq<Tweet>, listing: seq<TweetId>)
    requires r1.webhookUrl.Some?
    requires ScanSpec(tweets, Threshold(w), r1.SeenSet()).recent == []
    ensures var o := DeliverSpec(uid, r1, files1, w, info, tweets, listing);
      o.report.attempts == [] && o.report.posted == {} && o.report.notices == []
    ensures NoDuplicates(listing) && SetOf(listing) == r1.SeenSet() && |listing| <= MaxSeenIds ==>
      var o := DeliverSpec(uid, r1, files1, w, info, tweets, listing);
      o.report.exit == Finished(false) && o.record == r1 && o.files == files1
  {
    var del := DeliverySpec([], info, r1.webhookUrl.value, w.responses, w.dms);
    assert del == Delivery([], [], {}, [], None);
    assert SortBy(ScanSpec(tweets, Threshold(w), r1.SeenSet()).recent, TimeKey) == [];
    assert DeliverSpec(uid, r1, files1, w, info, tweets, listing) == Conclude(uid, r1, files1, del, listing);
    ConcludeReports(uid, r1, files1, del, listing);
    if NoDuplicates(listing) && SetOf(listing) == r1.SeenSet() && |listing| <= MaxSeenIds {
      SmallListingKept(listing);
    }
  }

  /**
   * Running again over the same timeline at the same time, after a finished run with at
   * most 200 ids in all, posts nothing, sends no notice, and leaves the handled list and
   * the store as they are.
   */
  lemma SecondRunPostsNothing(uid: UserId, r0: Record, files0: map<UserId, Record>, w: World,
                              listing1: seq<TweetId>, listing2: seq<TweetId>)
    requires ListsCombined(listing1, r0, w) && |listing1| <= MaxSeenIds
    requires RunSpec(uid, r0, files0, w, listing1).report.exit.Finished?
    ensures var o1 := RunSpec(uid, r0, files0, w, listing1);
      var o2 := RunSpec(uid, o1.record, o1.files, w, listing2);
      o2.report.attempts == [] && o2.report.posted == {} && o2.report.notices == []
    ensures var o1 := RunSpec(uid, r0, files0, w, listing1);
      var o2 := RunSpec(uid, o1.record, o1.files, w, listing2);
      ListsCombined(listing2, o1.record, w) ==>
        o2.report.exit == Finished(false) && o2.record == o1.record && o2.files == o1.files
  {
    FinishedRunSettles(uid, r0, files0, w, listing1);
    var o1 := RunSpec(uid, r0, files0, w, listing1);
    var r1 := o1.record;
    var tweets := w.fetch.tweets;
    ScanWindowSeenFree(tweets, Threshold(w), r1.SeenSet(), r0.SeenSet());
    ScanSettled(tweets, Threshold(w), r1.SeenSet());
    SettledDelivery(uid, r1, o1.files, w, w.fetch.info, tweets, listing2);
    assert RunSpec(uid, r1, o1.files, w, listing2) == DeliverSpec(uid, r1, o1.files, w, w.fetch.info, tweets, listing2);
    if ListsCombined(listing2, r1, w) {
      SetOfSize(listing1);
      SetOfSize(listing2);
      assert SetOf(listing2) == r1.SeenSet() == SetOf(listing1);
    }
  }
}
