/**
 * The per-user settings and the store that keeps them.  Each user's settings are one
 * JSON object with up to six keys; the store maps a Discord user id to that object.
 * Loading hands out a fresh mutable dictionary (`UserData`); saving writes the
 * dictionary's current contents back under the user's id.
 */
module Store {
  import opened Types

  type UserId = int

  /**
   * The contents of one settings object.  `None` is a key that is absent; every key
   * the relay reads or writes is here.
   */
  datatype Record = Record(
    encryptedCookies: Option<string>,
    targetTwitterId: Option<string>,
    targetScreenName: Option<string>,
    webhookUrl: Option<string>,
    enabled: Option<bool>,
    seenTweetIds: Option<seq<TweetId>>)
  {
    /** The four keys a run needs before it does anything else. */
    predicate Complete() {
      encryptedCookies.Some? && targetTwitterId.Some? && webhookUrl.Some? && targetScreenName.Some?
    }

    /** An object with no keys, which Python treats as false. */
    predicate IsEmpty() {
      encryptedCookies.None? && targetTwitterId.None? && targetScreenName.None? &&
      webhookUrl.None? && enabled.None? && seenTweetIds.None?
    }

    /** `data.get('enabled')` is true. */
    predicate Enabled() {
      enabled == Some(true)
    }

    /** `data.get('seen_tweet_ids', [])` */
    function SeenList(): seq<TweetId> {
      seenTweetIds.GetOr([])
    }

    /** `set(data.get('seen_tweet_ids', []))` */
    function SeenSet(): set<TweetId> {
      SetOf(SeenList())
    }
  }

  /** The settings with tracking switched off and every other key kept. */
  function DisabledRecord(r: Record): (d: Record)
    ensures !d.Enabled() && d.enabled == Some(false)
    ensures d.(enabled := r.enabled) == r
  {
    r.(enabled := Some(false))
  }

  /** The loaded settings dictionary of one user, updated in place by the relay. */
  class UserData {
    var encryptedCookies: Option<string>
    var targetTwitterId: Option<string>
    var targetScreenName: Option<string>
    var webhookUrl: Option<string>
    var enabled: Option<bool>
    var seenTweetIds: Option<seq<TweetId>>

    constructor (r: Record)
      ensures ToRecord() == r
    {
      encryptedCookies := r.encryptedCookies;
      targetTwitterId := r.targetTwitterId;
      targetScreenName := r.targetScreenName;
      webhookUrl := r.webhookUrl;
      enabled := r.enabled;
      seenTweetIds := r.seenTweetIds;
    }

    function ToRecord(): Record
      reads this
    {
      Record(encryptedCookies, targetTwitterId, targetScreenName, webhookUrl, enabled, seenTweetIds)
    }
  }

  /** The settings directory: one object per user id. */
  class UserStore {
    var files: map<UserId, Record>

    constructor (files: map<UserId, Record>)
      ensures this.files == files
    {
      this.files := files;
    }

    /** `load_user_data`: a fresh dictionary holding the stored object, or nothing. */
    method Load(uid: UserId) returns (d: UserData?)
      ensures d == null <==> uid !in files
      ensures d != null ==> fresh(d) && d.ToRecord() == files[uid]
    {
      if uid in files {
        d := new UserData(files[uid]);
      } else {
        d := null;
      }
    }

    /** `save_user_data`: the dictionary's current contents replace the stored object. */
    method Save(uid: UserId, d: UserData)
      modifies this
      ensures files == old(files)[uid := d.ToRecord()]
    {
      files := files[uid := d.ToRecord()];
    }
  }

  /** The flip of `track_toggle`: an absent flag counts as off. */
  function Toggled(r: Record): (t: Record)
    ensures t.enabled.Some?
    ensures t.Enabled() <==> !r.Enabled()
    ensures t.(enabled := r.enabled) == r
  {
    r.(enabled := Some(!r.Enabled()))
  }

  /** Toggling twice restores whether tracking is on (an absent flag comes back as an explicit off). */
  lemma ToggleTwice(r: Record)
    ensures Toggled(Toggled(r)).Enabled() == r.Enabled()
    ensures Toggled(Toggled(r)) == r.(enabled := Some(r.Enabled()))
  {
  }

  /**
   * `track_toggle`: with no settings, or an empty object, nothing changes and no status is
   * reported; otherwise the flag is flipped, saved, and its new value reported.
   */
  method TrackToggle(uid: UserId, store: UserStore) returns (status: Option<bool>)
    modifies store
    ensures status.None? <==> uid !in old(store.files) || old(store.files)[uid].IsEmpty()
    ensures status.None? ==> store.files == old(store.files)
    ensures status.Some? ==>
      && store.files == old(store.files)[uid := Toggled(old(store.files)[uid])]
      && status.value == !old(store.files)[uid].Enabled()
  {
    var d := store.Load(uid);
    if d == null || d.ToRecord().IsEmpty() {
      return None;
    }
    d.enabled := Some(!(d.enabled == Some(true)));
    store.Save(uid, d);
    status := Some(d.enabled.value);
  }
}
