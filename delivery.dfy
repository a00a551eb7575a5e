/**
 * The second stage of a run: posting each candidate, oldest first, to the user's
 * webhook.  A 429 reply with a JSON body is answered by waiting `retry_after` (default 5)
 * plus one second and posting once more; a 2xx reply marks the tweet posted; a 400, 401
 * or 404 reply sends the user a notice, switches tracking off and ends the run; any
 * other reply is passed over.  A short pause follows every handled reply.  An exception
 * while handling one tweet (in its media, the request, or the reply's body) skips that
 * tweet only.
 */
module Delivery {
  import opened Types
  import opened Sorting
  import opened Store
  import opened Embed
  import opened Window

  /** One POST to the webhook: where, for which tweet, and the embed it carries. */
  datatype Post = Post(url: string, tweetId: TweetId, embed: EmbedMsg)

  /** The webhook's replies in order; a request past the end of the list raises. */
  function ResponseAt(rs: seq<PostResult>, k: nat): PostResult {
    if k < |rs| then rs[k] else PostRaised
  }

  /** The outcomes of the direct messages in order; a message past the end of the list is delivered. */
  function DmAt(dms: seq<DmOutcome>, k: nat): DmOutcome {
    if k < |dms| then dms[k] else DmSent
  }

  /** Statuses after which the webhook is taken to be unusable. */
  predicate IsRejection(status: int) {
    status == 400 || status == 401 || status == 404
  }

  predicate IsSuccess(status: int) {
    200 <= status < 300
  }

  /** The seconds waited before the one resend that a rate-limited reply triggers. */
  function RetryDelay(retryAfter: Option<int>): int {
    retryAfter.GetOr(5) + 1
  }

  /**
   * The state of the delivery loop: the requests made, the pauses taken (in seconds), the
   * ids posted, the statuses for which a notice was attempted, and the rejecting status
   * when the run was ended by one.
   */
  datatype Delivery = Delivery(
    attempts: seq<Post>,
    delays: seq<int>,
    posted: set<TweetId>,
    notices: seq<int>,
    rejected: Option<int>)

  /** What the final reply to a tweet's post does to the loop state. */
  function Classify(id: TweetId, reply: PostResult, dms: seq<DmOutcome>, acc: Delivery): Delivery {
    match reply
    case PostRaised => acc
    case Response(s, _) =>
      if IsSuccess(s) then acc.(posted := acc.posted + {id}, delays := acc.delays + [1])
      else if IsRejection(s) then
        var noticed := acc.(notices := acc.notices + [s]);
        // a failing notice raises out of the disabling helper: the tweet is skipped and the loop goes on
        if DmAt(dms, |acc.notices|) == DmHttpError then noticed else noticed.(rejected := Some(s))
      else acc.(delays := acc.delays + [1])
  }

  /** Handling one candidate: build its embed, post it, resend once on a rate limit, classify. */
  function Step(t: Tweet, info: UserInfo, url: string, rs: seq<PostResult>, dms: seq<DmOutcome>, acc: Delivery): Delivery {
    PostEmbed(t.id, BuildEmbed(t, info, TimeKey(t)), url, rs, dms, acc)
  }

  /**
   * Posting the embed `e` built for the candidate `id` (`None` when building it raised,
   * and then nothing is posted), resending once on a rate limit, and classifying the reply.
   */
  function PostEmbed(id: TweetId, e: Option<EmbedMsg>, url: string, rs: seq<PostResult>, dms: seq<DmOutcome>, acc: Delivery): Delivery {
    match e
    case None => acc
    case Some(embed) =>
      var post := Post(url, id, embed);
      var sent := acc.(attempts := acc.attempts + [post]);
      var first := ResponseAt(rs, |acc.attempts|);
      if first.Response? && first.status == 429 then
        match first.body
        case NotJsonObject => sent
        case JsonBody(retryAfter) =>
          var again := sent.(attempts := sent.attempts + [post], delays := sent.delays + [RetryDelay(retryAfter)]);
          Classify(id, ResponseAt(rs, |sent.attempts|), dms, again)
      else Classify(id, first, dms, sent)
  }

  /** The delivery loop over the candidates, stated on the prefix handled so far; a rejection ends it. */
  function DeliverySpec(cands: seq<Tweet>, info: UserInfo, url: string, rs: seq<PostResult>, dms: seq<DmOutcome>): Delivery
    decreases |cands|
  {
    if cands == [] then Delivery([], [], {}, [], None)
    else
      var acc := DeliverySpec(cands[..|cands| - 1], info, url, rs, dms);
      if acc.rejected.Some? then acc else Step(cands[|cands| - 1], info, url, rs, dms, acc)
  }

  /**
   * Per candidate: no request when its embed cannot be built, otherwise one request, or
   * exactly two when the first reply is a 429 with a JSON body, and then the first new
   * pause is `retry_after` (default 5) plus one.
   */
  lemma RetryOnlyOnRateLimit(t: Tweet, info: UserInfo, url: string, rs: seq<PostResult>, dms: seq<DmOutcome>, acc: Delivery)
    ensures var s := Step(t, info, url, rs, dms, acc);
      |acc.attempts| <= |s.attempts| <= |acc.attempts| + 2 && acc.attempts <= s.attempts
    ensures var s := Step(t, info, url, rs, dms, acc);
      |s.attempts| == |acc.attempts| <==> BuildEmbed(t, info, TimeKey(t)).None?
    ensures var s := Step(t, info, url, rs, dms, acc);
      |s.attempts| == |acc.attempts| + 2 <==>
        BuildEmbed(t, info, TimeKey(t)).Some? &&
        ResponseAt(rs, |acc.attempts|).Response? && ResponseAt(rs, |acc.attempts|).status == 429 &&
        ResponseAt(rs, |acc.attempts|).body.JsonBody?
    ensures var s := Step(t, info, url, rs, dms, acc);
      |s.attempts| == |acc.attempts| + 2 ==>
        |s.delays| > |acc.delays| && s.delays[|acc.delays|] == RetryDelay(ResponseAt(rs, |acc.attempts|).body.retryAfter)
    ensures var s := Step(t, info, url, rs, dms, acc);
      forall a :: a in s.attempts[|acc.attempts|..] ==> a.tweetId == t.id && a.url == url && a.embed.timestamp == TimeKey(t)
  {
    PostEmbedRequests(t.id, BuildEmbed(t, info, TimeKey(t)), url, rs, dms, acc);
  }

  /** The requests a candidate adds come after the earlier ones and carry its id, the url and its time. */
  lemma StepAppends(t: Tweet, info: UserInfo, url: string, rs: seq<PostResult>, dms: seq<DmOutcome>, acc: Delivery)
    ensures var s := Step(t, info, url, rs, dms, acc);
      && |acc.attempts| <= |s.attempts|
      && s.attempts == acc.attempts + s.attempts[|acc.attempts|..]
      && forall a :: a in s.attempts[|acc.attempts|..] ==> a.tweetId == t.id && a.url == url && PostTime(a) == TimeKey(t)
  {
    var e := BuildEmbed(t, info, TimeKey(t));
    assert Step(t, info, url, rs, dms, acc) == PostEmbed(t.id, e, url, rs, dms, acc);
    PostEmbedRequests(t.id, e, url, rs, dms, acc);
  }

  /** The requests of one candidate, whatever its embed. */
  lemma PostEmbedRequests(id: TweetId, e: Option<EmbedMsg>, url: string, rs: seq<PostResult>, dms: seq<DmOutcome>, acc: Delivery)
    ensures var s := PostEmbed(id, e, url, rs, dms, acc);
      |acc.attempts| <= |s.attempts| <= |acc.attempts| + 2 && acc.attempts <= s.attempts
    ensures var s := PostEmbed(id, e, url, rs, dms, acc);
      |s.attempts| == |acc.attempts| <==> e.None?
    ensures var s := PostEmbed(id, e, url, rs, dms, acc);
      |s.attempts| == |acc.attempts| + 2 <==>
        e.Some? &&
        ResponseAt(rs, |acc.attempts|).Response? && ResponseAt(rs, |acc.attempts|).status == 429 &&
        ResponseAt(rs, |acc.attempts|).body.JsonBody?
    ensures var s := PostEmbed(id, e, url, rs, dms, acc);
      |s.attempts| == |acc.attempts| + 2 ==>
        |s.delays| > |acc.delays| && s.delays[|acc.delays|] == RetryDelay(ResponseAt(rs, |acc.attempts|).body.retryAfter)
    ensures var s := PostEmbed(id, e, url, rs, dms, acc);
      forall a :: a in s.attempts[|acc.attempts|..] ==> e.Some? && a == Post(url, id, e.value)
  {
  }

  /**
   * One candidate adds at most one notice, and only for a status of 400, 401 or 404; it
   * can only add its own id to the posted ones, and a status ending the loop is a rejection.
   */
  lemma PostEmbedBounds(id: TweetId, e: Option<EmbedMsg>, url: string, rs: seq<PostResult>, dms: seq<DmOutcome>, acc: Delivery)
    requires acc.rejected.None?
    ensures var s := PostEmbed(id, e, url, rs, dms, acc);
      && |s.notices| <= |acc.notices| + 1
      && (forall x :: x in s.notices ==> x in acc.notices || IsRejection(x))
      && s.posted <= acc.posted + {id}
      && (s.rejected.Some? ==> IsRejection(s.rejected.value))
  {
  }

  /**
   * The status of the reply a candidate's outcome is decided on, counting `k` requests
   * made before it: the resend's when the first reply is a 429 with a JSON body, otherwise
   * the first reply's; none when the tweet is skipped before a status is examined.
   */
  function DecidingStatus(t: Tweet, info: UserInfo, rs: seq<PostResult>, k: nat): Option<int> {
    if BuildEmbed(t, info, TimeKey(t)).None? then None else ReplyStatus(rs, k)
  }

  /** The deciding status of a candidate whose embed was built. */
  function ReplyStatus(rs: seq<PostResult>, k: nat): Option<int> {
    var first := ResponseAt(rs, k);
    if first.PostRaised? then None
    else if first.status != 429 then Some(first.status)
    else if first.body.NotJsonObject? then None
    else
      var second := ResponseAt(rs, k + 1);
      if second.PostRaised? then None else Some(second.status)
  }

  /**
   * A candidate's id becomes posted exactly when its deciding status is a 2xx, and the
   * loop is ended exactly when that status is 400, 401 or 404 and the notice does not fail.
   */
  lemma PostedOnSuccess(t: Tweet, info: UserInfo, url: string, rs: seq<PostResult>, dms: seq<DmOutcome>, acc: Delivery)
    requires t.id !in acc.posted && acc.rejected.None?
    ensures var s := Step(t, info, url, rs, dms, acc);
      var st := DecidingStatus(t, info, rs, |acc.attempts|);
      (t.id in s.posted <==> st.Some? && IsSuccess(st.value)) &&
      s.posted <= acc.posted + {t.id}
    ensures var s := Step(t, info, url, rs, dms, acc);
      var st := DecidingStatus(t, info, rs, |acc.attempts|);
      s.rejected.Some? <==> st.Some? && IsRejection(st.value) && DmAt(dms, |acc.notices|) != DmHttpError
    ensures var s := Step(t, info, url, rs, dms, acc);
      s.rejected.Some? ==> s.rejected == DecidingStatus(t, info, rs, |acc.attempts|)
  {
    var e := BuildEmbed(t, info, TimeKey(t));
    assert Step(t, info, url, rs, dms, acc) == PostEmbed(t.id, e, url, rs, dms, acc);
    assert DecidingStatus(t, info, rs, |acc.attempts|) == if e.None? then None else ReplyStatus(rs, |acc.attempts|);
    PostEmbedDecided(t.id, e, url, rs, dms, acc);
  }

  /** The same, whatever the candidate's embed. */
  lemma PostEmbedDecided(id: TweetId, e: Option<EmbedMsg>, url: string, rs: seq<PostResult>, dms: seq<DmOutcome>, acc: Delivery)
    requires id !in acc.posted && acc.rejected.None?
    ensures var s := PostEmbed(id, e, url, rs, dms, acc);
      var st := if e.None? then None else ReplyStatus(rs, |acc.attempts|);
      && (id in s.posted <==> st.Some? && IsSuccess(st.value))
      && (s.rejected.Some? <==> st.Some? && IsRejection(st.value) && DmAt(dms, |acc.notices|) != DmHttpError)
      && (s.rejected.Some? ==> s.rejected == st)
  {
    var k := |acc.attempts|;
    if e.Some? {
      var post := Post(url, id, e.value);
      var sent := acc.(attempts := acc.attempts + [post]);
      var first := ResponseAt(rs, k);
      if first.Response? && first.status == 429 {
        if first.body.JsonBody? {
          var again := sent.(attempts := sent.attempts + [post], delays := sent.delays + [RetryDelay(first.body.retryAfter)]);
          ClassifyFacts(id, ResponseAt(rs, k + 1), dms, again);
        }
      } else {
        ClassifyFacts(id, first, dms, sent);
      }
    }
  }

  lemma ClassifyFacts(id: TweetId, reply: PostResult, dms: seq<DmOutcome>, acc: Delivery)
    requires id !in acc.posted && acc.rejected.None?
    ensures var s := Classify(id, reply, dms, acc);
      && (id in s.posted <==> reply.Response? && IsSuccess(reply.status))
      && s.posted <= acc.posted + {id}
      && (s.rejected.Some? <==> reply.Response? && IsRejection(reply.status) && DmAt(dms, |acc.notices|) != DmHttpError)
      && (s.rejected.Some? ==> s.rejected.value == reply.status)
  {
  }

  /**
   * The loop as a whole: at most two requests per candidate, posted ids are candidate
   * ids, a rejection status is 400, 401 or 404, and at most one notice per candidate.
   */
  lemma {:induction false} DeliveryBounds(cands: seq<Tweet>, info: UserInfo, url: string, rs: seq<PostResult>, dms: seq<DmOutcome>)
    ensures var d := DeliverySpec(cands, info, url, rs, dms);
      && |d.attempts| <= 2 * |cands|
      && |d.notices| <= |cands|
      && (forall id :: id in d.posted ==> exists i :: 0 <= i < |cands| && cands[i].id == id)
      && (d.rejected.Some? ==> IsRejection(d.rejected.value))
      && (forall s :: s in d.notices ==> IsRejection(s))
    decreases |cands|
  {
    if cands != [] {
      var front := cands[..|cands| - 1];
      var last := cands[|cands| - 1];
      var acc := DeliverySpec(front, info, url, rs, dms);
      DeliveryBounds(front, info, url, rs, dms);
      assert forall i :: 0 <= i < |front| ==> front[i] == cands[i];
      if acc.rejected.None? {
        var e := BuildEmbed(last, info, TimeKey(last));
        PostEmbedRequests(last.id, e, url, rs, dms, acc);
        PostEmbedBounds(last.id, e, url, rs, dms, acc);
      }
    }
  }

  /** Once a rejection has ended the loop, no later candidate is handled. */
  lemma {:induction false} RejectionStops(cands: seq<Tweet>, k: nat, info: UserInfo, url: string, rs: seq<PostResult>, dms: seq<DmOutcome>)
    requires k <= |cands|
    requires DeliverySpec(cands[..k], info, url, rs, dms).rejected.Some?
    ensures DeliverySpec(cands, info, url, rs, dms) == DeliverySpec(cands[..k], info, url, rs, dms)
    decreases |cands| - k
  {
    if k < |cands| {
      assert cands[..k + 1][..k] == cands[..k];
      RejectionStops(cands, k + 1, info, url, rs, dms);
    } else {
      assert cands[..k] == cands;
    }
  }

  /** The time stamped on a request's embed. */
  function PostTime(p: Post): int {
    p.embed.timestamp
  }

  /** Every request carries a candidate that was handled, with that candidate's time. */
  lemma {:induction false} AttemptsFromCandidates(cands: seq<Tweet>, info: UserInfo, url: string, rs: seq<PostResult>, dms: seq<DmOutcome>)
    ensures forall a :: a in DeliverySpec(cands, info, url, rs, dms).attempts ==>
      a.url == url && exists i :: 0 <= i < |cands| && a.tweetId == cands[i].id && PostTime(a) == TimeKey(cands[i])
    decreases |cands|
  {
    if cands != [] {
      var front := cands[..|cands| - 1];
      var last := cands[|cands| - 1];
      var acc := DeliverySpec(front, info, url, rs, dms);
      AttemptsFromCandidates(front, info, url, rs, dms);
      if acc.rejected.None? {
        var s := Step(last, info, url, rs, dms, acc);
        assert DeliverySpec(cands, info, url, rs, dms) == s;
        StepAppends(last, info, url, rs, dms, acc);
        var tail := s.attempts[|acc.attempts|..];
        assert s.attempts == acc.attempts + tail;
        forall a | a in s.attempts
          ensures a.url == url && exists i :: 0 <= i < |cands| && a.tweetId == cands[i].id && PostTime(a) == TimeKey(cands[i])
        {
          if a in acc.attempts {
            var x :| 0 <= x < |front| && a.tweetId == front[x].id && PostTime(a) == TimeKey(front[x]);
            assert front[x] == cands[x];
          } else {
            assert a in tail;
          }
        }
      } else {
        assert forall i :: 0 <= i < |front| ==> front[i] == cands[i];
      }
    }
  }

  /** Candidates sorted oldest first are posted oldest first. */
  lemma {:induction false} DeliveryOrdered(cands: seq<Tweet>, info: UserInfo, url: string, rs: seq<PostResult>, dms: seq<DmOutcome>)
    requires SortedBy(cands, TimeKey)
    ensures SortedBy(DeliverySpec(cands, info, url, rs, dms).attempts, PostTime)
    decreases |cands|
  {
    if cands != [] {
      var last := cands[|cands| - 1];
      var front := cands[..|cands| - 1];
      SortedPrefix(cands, TimeKey, |cands| - 1);
      var acc := DeliverySpec(front, info, url, rs, dms);
      DeliveryOrdered(front, info, url, rs, dms);
      if acc.rejected.None? {
        var s := Step(last, info, url, rs, dms, acc);
        assert DeliverySpec(cands, info, url, rs, dms) == s;
        StepAppends(last, info, url, rs, dms, acc);
        AttemptsFromCandidates(front, info, url, rs, dms);
        forall a | a in acc.attempts ensures PostTime(a) <= TimeKey(last) {
          var x :| 0 <= x < |front| && a.tweetId == front[x].id && PostTime(a) == TimeKey(front[x]);
          assert front[x] == cands[x];
        }
        var tail := s.attempts[|acc.attempts|..];
        assert s.attempts == acc.attempts + tail;
        SortedAppend(acc.attempts, tail, PostTime, TimeKey(last));
      }
    }
  }

  /**
   * `notify_user_and_disable`: the notice is sent (its failing with Forbidden or NotFound
   * is passed over) and then tracking is switched off and saved; any other failure of the
   * notice raises before the flag is touched, and `raised` reports it.
   */
  method NotifyUserAndDisable(uid: UserId, d: UserData, store: UserStore, dm: DmOutcome) returns (raised: bool)
    modifies d, store
    ensures raised <==> dm == DmHttpError
    ensures raised ==> d.ToRecord() == old(d.ToRecord()) && store.files == old(store.files)
    ensures !raised ==> d.ToRecord() == DisabledRecord(old(d.ToRecord())) && store.files == old(store.files)[uid := d.ToRecord()]
  {
    if dm == DmHttpError {
      return true;
    }
    d.enabled := Some(false);
    store.Save(uid, d);
    raised := false;
  }

  /**
   * The body of the delivery loop for one candidate: the settings change only when a
   * rejection's notice goes through, and then tracking is switched off and saved.
   */
  method DeliverOne(uid: UserId, d: UserData, store: UserStore, t: Tweet, info: UserInfo, url: string,
                    rs: seq<PostResult>, dms: seq<DmOutcome>, acc: Delivery) returns (out: Delivery)
    requires acc.rejected.None?
    modifies d, store
    ensures out == Step(t, info, url, rs, dms, acc)
    ensures out.rejected.None? ==> d.ToRecord() == old(d.ToRecord()) && store.files == old(store.files)
    ensures out.rejected.Some? ==>
      d.ToRecord() == DisabledRecord(old(d.ToRecord())) && store.files == old(store.files)[uid := d.ToRecord()]
  {
    out := acc;
    var media := CollectMedia(t.media);
    if media.MediaRaised? {
      return;
    }
    var e := BuildEmbed(t, info, TimeKey(t)).value;
    var post := Post(url, t.id, e);
    var reply := ResponseAt(rs, |out.attempts|);
    out := out.(attempts := out.attempts + [post]);
    if reply.Response? && reply.status == 429 {
      if reply.body.NotJsonObject? {
        return;
      }
      out := out.(delays := out.delays + [RetryDelay(reply.body.retryAfter)]);
      reply := ResponseAt(rs, |out.attempts|);
      out := out.(attempts := out.attempts + [post]);
    }
    if reply.PostRaised? {
      return;
    }
    if IsSuccess(reply.status) {
      out := out.(posted := out.posted + {t.id});
    } else if IsRejection(reply.status) {
      var dm := DmAt(dms, |out.notices|);
      out := out.(notices := out.notices + [reply.status]);
      var raised := NotifyUserAndDisable(uid, d, store, dm);
      if !raised {
        out := out.(rejected := Some(reply.status));
      }
      return;
    }
    out := out.(delays := out.delays + [1]);
  }

  /**
   * The delivery loop.  While no rejection has ended it, the settings are untouched; a
   * rejection whose notice goes through switches tracking off, saves, and ends the loop.
   */
  method Deliver(uid: UserId, d: UserData, store: UserStore, cands: seq<Tweet>, info: UserInfo, url: string,
                 rs: seq<PostResult>, dms: seq<DmOutcome>) returns (out: Delivery)
    modifies d, store
    ensures out == DeliverySpec(cands, info, url, rs, dms)
    ensures out.rejected.None? ==> d.ToRecord() == old(d.ToRecord()) && store.files == old(store.files)
    ensures out.rejected.Some? ==>
      d.ToRecord() == DisabledRecord(old(d.ToRecord())) && store.files == old(store.files)[uid := d.ToRecord()]
  {
    out := Delivery([], [], {}, [], None);
    for i := 0 to |cands|
      invariant out == DeliverySpec(cands[..i], info, url, rs, dms)
      invariant out.rejected.None?
      invariant d.ToRecord() == old(d.ToRecord()) && store.files == old(store.files)
    {
      assert cands[..i + 1][..i] == cands[..i];
      out := DeliverOne(uid, d, store, cands[i], info, url, rs, dms, out);
      if out.rejected.Some? {
        RejectionStops(cands, i + 1, info, url, rs, dms);
        return;
      }
    }
    assert cands[..|cands|] == cands;
  }
}
