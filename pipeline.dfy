/**
 * One check of one user (`check_tweets_for_user`): the settings are checked for
 * completeness, the stored cookies must decrypt to a non-empty JSON object, the tracked
 * account's profile and timeline are fetched, the timeline is filtered to the new tweets
 * of the last thirty minutes, those are posted oldest first, and the list of handled ids
 * is updated.  Failures that need the user's attention send a notice and switch tracking
 * off.
 *
 * The results of the outside calls (decryption, fetching, posting, direct messages) and
 * the current time are given as a `World`.  The whole run is the method
 * `CheckTweetsForUser`; the function `RunSpec` states the same run as a value, and the
 * lemmas below are about `RunSpec`.
 */
module Pipeline {
  import opened Types
  import opened Text
  import opened Sorting
  import opened Store
  import opened Window
  import opened Embed
  import opened Delivery
  import opened Seen

  /**
   * What the outside calls of one run give back: the decrypted cookies, the fetch, the
   * current time in seconds, the webhook's replies in order, and the outcomes of the
   * direct messages in order.
   */
  datatype World = World(
    decrypted: Decrypted,
    fetch: FetchOutcome,
    now: int,
    responses: seq<PostResult>,
    dms: seq<DmOutcome>)

  /** Why the user is told and tracking switched off. */
  datatype Reason = CookieUnreadable | TargetMissing | TargetNotFound | AuthFailure | WebhookRejected(status: int)

  /** How a run ends. */
  datatype Exit =
    | ConfigIncomplete                 // a required key is missing: tracking switched off
    | Disabled(reason: Reason)         // notice sent, tracking switched off
    | DisableRaised(reason: Reason)    // the notice failed: the run ends with the settings untouched
    | FetchAborted                     // a fetch error that does not disable the user
    | NothingFetched                   // the timeline came back empty
    | Finished(seenSaved: bool)        // delivery done; whether the handled-id list was written

  /** What a run did besides changing the settings. */
  datatype Report = Report(exit: Exit, attempts: seq<Post>, delays: seq<int>, posted: set<TweetId>, notices: seq<Reason>)

  /** A run's report, the user's settings object afterwards, and the store afterwards. */
  datatype Outcome = Outcome(report: Report, record: Record, files: map<UserId, Record>)

  /** The decrypted cookies are usable: Python's `not c or not isinstance(c, dict)` is false. */
  predicate CookiesUsable(d: Decrypted) {
    d.JsonObject? && |d.entries| > 0
  }

  /** The fetch error reads as an authentication failure. */
  predicate IsAuthError(message: string) {
    Contains(Lower(message), "authenticate") || Contains(message, "401") || Contains(message, "403")
  }

  /**
   * Only a decrypted JSON object holding at least one cookie passes the check: a failed
   * decryption, plain text, other JSON and an empty object all end the run.
   */
  lemma CookiesUsableCases(d: Decrypted)
    ensures CookiesUsable(d) <==> d.JsonObject? && d.entries != map[]
    ensures !CookiesUsable(Undecryptable) && !CookiesUsable(OtherJson) && !CookiesUsable(JsonObject(map[]))
    ensures d.PlainText? ==> !CookiesUsable(d)
  {
  }

  /**
   * The fetch error is an authentication failure exactly when `authenticate` occurs in its
   * lower-cased message, whatever the case it was written in, or `401` or `403` occurs in it.
   */
  lemma AuthErrorIff(message: string)
    ensures IsAuthError(message) <==>
      || (exists i :: 0 <= i <= |message| && OccursAt(Lower(message), "authenticate", i))
      || (exists i :: 0 <= i <= |message| && OccursAt(message, "401", i))
      || (exists i :: 0 <= i <= |message| && OccursAt(message, "403", i))
  {
    ContainsIff(Lower(message), "authenticate");
    ContainsIff(message, "401");
    ContainsIff(message, "403");
  }

  /** The time before which tweets are outside the window. */
  function Threshold(w: World): int {
    w.now - WindowSeconds
  }

  /** The ids merged into the handled-id list: those of the window and those stored before. */
  function CombinedSeen(r0: Record, w: World): set<TweetId> {
    match w.fetch
    case Fetched(_, tweets) => ScanSpec(tweets, Threshold(w), r0.SeenSet()).window + r0.SeenSet()
    case _ => {}
  }

  /** The notices of the delivery loop, one per rejecting status. */
  function Rejections(statuses: seq<int>): (rs: seq<Reason>)
    ensures |rs| == |statuses|
    ensures forall i :: 0 <= i < |statuses| ==> rs[i] == WebhookRejected(statuses[i])
  {
    seq(|statuses|, i requires 0 <= i < |statuses| => WebhookRejected(statuses[i]))
  }

  /** Telling the user and switching tracking off before anything was posted. */
  function DisableEarly(uid: UserId, r0: Record, files0: map<UserId, Record>, w: World, reason: Reason): Outcome {
    if DmAt(w.dms, 0) == DmHttpError then Outcome(Report(DisableRaised(reason), [], [], {}, [reason]), r0, files0)
    else
      var r := DisabledRecord(r0);
      Outcome(Report(Disabled(reason), [], [], {}, [reason]), r, files0[uid := r])
  }

  /** A run that ends without posting and without touching the settings. */
  function Untouched(r0: Record, files0: map<UserId, Record>, exit: Exit): Outcome {
    Outcome(Report(exit, [], [], {}, []), r0, files0)
  }

  /**
   * The run as a value, for the settings `r0` it is given, the store `files0`, the outside
   * results `w`, and `listing`, the order in which the merged id set is listed.
   */
  function RunSpec(uid: UserId, r0: Record, files0: map<UserId, Record>, w: World, listing: seq<TweetId>): Outcome {
    if !r0.Complete() then
      var r := DisabledRecord(r0);
      Outcome(Report(ConfigIncomplete, [], [], {}, []), r, files0[uid := r])
    else if !CookiesUsable(w.decrypted) then DisableEarly(uid, r0, files0, w, CookieUnreadable)
    else
      match w.fetch
      case TargetFalsy => DisableEarly(uid, r0, files0, w, TargetMissing)
      case FetchRaised(UserNotFound) => DisableEarly(uid, r0, files0, w, TargetNotFound)
      case FetchRaised(HttpError(message)) =>
        if IsAuthError(message) then DisableEarly(uid, r0, files0, w, AuthFailure)
        else Untouched(r0, files0, FetchAborted)
      case FetchRaised(OtherFetchError) => Untouched(r0, files0, FetchAborted)
      case Fetched(info, tweets) =>
        if tweets == [] then Untouched(r0, files0, NothingFetched)
        else DeliverSpec(uid, r0, files0, w, info, tweets, listing)
  }

  /** The run from a non-empty timeline on: filter, post oldest first, update the handled ids. */
  function DeliverSpec(uid: UserId, r0: Record, files0: map<UserId, Record>, w: World, info: UserInfo,
                       tweets: seq<Tweet>, listing: seq<TweetId>): Outcome
    requires r0.webhookUrl.Some?
  {
    var scan := ScanSpec(tweets, Threshold(w), r0.SeenSet());
    var cands := SortBy(scan.recent, TimeKey);
    Conclude(uid, r0, files0, DeliverySpec(cands, info, r0.webhookUrl.value, w.responses, w.dms), listing)
  }

  /**
   * How a run ends once the delivery loop `del` is over: switched off after a rejection,
   * otherwise finished, with the pruned list written only when its set of ids is new.
   */
  function Conclude(uid: UserId, r0: Record, files0: map<UserId, Record>, del: Delivery, listing: seq<TweetId>): Outcome {
    if del.rejected.Some? then
      var r := DisabledRecord(r0);
      Outcome(Report(Disabled(WebhookRejected(del.rejected.value)), del.attempts, del.delays, del.posted,
                     Rejections(del.notices)), r, files0[uid := r])
    else
      match SeenUpdate(r0.SeenSet(), listing)
      case None =>
        Outcome(Report(Finished(false), del.attempts, del.delays, del.posted, Rejections(del.notices)), r0, files0)
      case Some(updated) =>
        var r := r0.(seenTweetIds := Some(updated));
        Outcome(Report(Finished(true), del.attempts, del.delays, del.posted, Rejections(del.notices)), r, files0[uid := r])
  }

  /** The notice-and-disable step before delivery, with the first direct-message outcome. */
  method DisableBeforeDelivery(uid: UserId, d: UserData, store: UserStore, w: World, reason: Reason) returns (report: Report)
    modifies d, store
    ensures Outcome(report, d.ToRecord(), store.files) == DisableEarly(uid, old(d.ToRecord()), old(store.files), w, reason)
  {
    var raised := NotifyUserAndDisable(uid, d, store, DmAt(w.dms, 0));
    report := Report(if raised then DisableRaised(reason) else Disabled(reason), [], [], {}, [reason]);
  }

  /**
   * `check_tweets_for_user`: the run updates the settings object `d` in place and writes
   * it to `store` as `RunSpec` says; when it finishes, `listing` is the merged id set listed
   * once each.
   */
  method CheckTweetsForUser(uid: UserId, d: UserData, store: UserStore, w: World)
    returns (report: Report, ghost listing: seq<TweetId>)
    modifies d, store
    ensures Outcome(report, d.ToRecord(), store.files) == RunSpec(uid, old(d.ToRecord()), old(store.files), w, listing)
    ensures report.exit.Finished? ==>
      NoDuplicates(listing) && forall x :: x in listing <==> x in CombinedSeen(old(d.ToRecord()), w)
  {
    listing := [];
    if !(d.encryptedCookies.Some? && d.targetTwitterId.Some? && d.webhookUrl.Some? && d.targetScreenName.Some?) {
      d.enabled := Some(false);
      store.Save(uid, d);
      report := Report(ConfigIncomplete, [], [], {}, []);
      return;
    }
    if !CookiesUsable(w.decrypted) {
      report := DisableBeforeDelivery(uid, d, store, w, CookieUnreadable);
      return;
    }
    match w.fetch {
      case TargetFalsy =>
        report := DisableBeforeDelivery(uid, d, store, w, TargetMissing);
      case FetchRaised(UserNotFound) =>
        report := DisableBeforeDelivery(uid, d, store, w, TargetNotFound);
      case FetchRaised(HttpError(message)) =>
        if IsAuthError(message) {
          report := DisableBeforeDelivery(uid, d, store, w, AuthFailure);
        } else {
          report := Report(FetchAborted, [], [], {}, []);
        }
      case FetchRaised(OtherFetchError) =>
        report := Report(FetchAborted, [], [], {}, []);
      case Fetched(info, tweets) =>
        if tweets == [] {
          report := Report(NothingFetched, [], [], {}, []);
        } else {
          report, listing := DeliverAndRecord(uid, d, store, w, info, tweets);
        }
    }
  }

  /** The part of the run after a non-empty timeline was fetched. */
  method DeliverAndRecord(uid: UserId, d: UserData, store: UserStore, w: World, info: UserInfo, tweets: seq<Tweet>)
    returns (report: Report, ghost listing: seq<TweetId>)
    requires d.webhookUrl.Some?
    modifies d, store
    ensures Outcome(report, d.ToRecord(), store.files) == DeliverSpec(uid, old(d.ToRecord()), old(store.files), w, info, tweets, listing)
    ensures report.exit.Finished? ==>
      NoDuplicates(listing) && forall x :: x in listing <==> x in ScanSpec(tweets, Threshold(w), old(d.ToRecord()).SeenSet()).window + old(d.ToRecord()).SeenSet()
  {
    ghost var r0 := d.ToRecord();
    listing := [];
    var url := d.webhookUrl.value;
    var seen := d.ToRecord().SeenSet();
    var recent, window := FilterWindow(tweets, w.now - WindowSeconds, seen);
    var cands := SortBy(recent, TimeKey);
    assert Scan(recent, window) == ScanSpec(tweets, Threshold(w), r0.SeenSet());
    ghost var files0 := store.files;
    var del := Deliver(uid, d, store, cands, info, url, w.responses, w.dms);
    assert del == DeliverySpec(SortBy(ScanSpec(tweets, Threshold(w), r0.SeenSet()).recent, TimeKey), info, r0.webhookUrl.value, w.responses, w.dms);
    if del.rejected.Some? {
      report := Report(Disabled(WebhookRejected(del.rejected.value)), del.attempts, del.delays, del.posted,
                       Rejections(del.notices));
    } else {
      report, listing := RecordSeen(uid, d, store, del, window + seen);
    }
    assert DeliverSpec(uid, r0, files0, w, info, tweets, listing) == Conclude(uid, r0, files0, del, listing);
  }

  /**
   * The end of a run whose delivery loop was not ended by a rejection: the merged id set is
   * listed, pruned, and written only when it differs from the stored one.
   */
  method RecordSeen(uid: UserId, d: UserData, store: UserStore, del: Delivery, combined: set<TweetId>)
    returns (report: Report, ghost listing: seq<TweetId>)
    requires del.rejected.None?
    modifies d, store
    ensures Outcome(report, d.ToRecord(), store.files) == Conclude(uid, old(d.ToRecord()), old(store.files), del, listing)
    ensures report.exit.Finished?
    ensures NoDuplicates(listing) && forall x :: x in listing <==> x in combined
  {
    var l := ListOfSet(combined);
    listing := l;
    var updated := PruneSeen(l);
    if SetOf(updated) != d.ToRecord().SeenSet() {
      d.seenTweetIds := Some(updated);
      store.Save(uid, d);
      report := Report(Finished(true), del.attempts, del.delays, del.posted, Rejections(del.notices));
    } else {
      report := Report(Finished(false), del.attempts, del.delays, del.posted, Rejections(del.notices));
    }
  }
}
