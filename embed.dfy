/**
 * The Discord embed built for one candidate tweet: the walk over its media (the first
 * photo becomes the embed image; videos, GIFs and other media become numbered link
 * lines), the quoted-tweet block, and the embed's fields.
 */
module Embed {
  import opened Types
  import opened Text

  /** A string value that Python treats as true: present and non-empty. */
  predicate Truthy(o: Option<string>) {
    o.Some? && o.value != ""
  }

  /**
   * `getattr(medium, name, None)`: a medium carries the attributes `type` and `media_url`
   * and no other attribute that a URL could name.
   */
  function Attr(m: Medium, name: string): (r: Option<string>)
    ensures name != "type" && name != "media_url" ==> r.None?
  {
    if name == "type" then m.kind
    else if name == "media_url" then m.mediaUrl
    else None
  }

  /** `getattr(medium, 'type', 'unknown')` */
  function KindOf(m: Medium): string {
    m.kind.GetOr("unknown")
  }

  predicate IsPhoto(m: Medium) {
    KindOf(m) == "photo"
  }

  predicate IsVideoOrGif(m: Medium) {
    KindOf(m) == "video" || KindOf(m) == "animated_gif"
  }

  /** What one medium contributes, or that handling it raises. */
  datatype MediumEffect = AddImage(url: string) | AddLink(line: string) | NoEffect | Raises

  /**
   * The branch for the medium at 0-based position `idx`.  For a photo the URL is looked up
   * as an attribute whose NAME is the medium's `media_url` value; a missing `media_url`
   * makes that lookup raise.  The link numbers are 1-based.
   */
  function MediumStep(m: Medium, idx: nat): (r: MediumEffect)
    ensures r.Raises? <==> IsPhoto(m) && m.mediaUrl.None?
    ensures r.AddImage? ==> IsPhoto(m) && r.url != ""
    ensures r.AddLink? ==> !IsPhoto(m) && (IsVideoOrGif(m) || Truthy(m.mediaUrl))
    ensures r.NoEffect? <==>
      if IsPhoto(m) then m.mediaUrl == Some("") else !IsVideoOrGif(m) && !Truthy(m.mediaUrl)
  {
    var kind := KindOf(m);
    var url := m.mediaUrl;
    var n := NatToString(idx + 1);
    if kind == "photo" then
      if url.None? then Raises
      else
        var byName := Attr(m, url.value);
        var photo := if Truthy(byName) then byName else url;
        if Truthy(photo) then AddImage(photo.value)
        else if Truthy(url) then AddLink("[画像を見る " + n + "](" + url.GetOr("") + ")")
        else NoEffect
    else if kind == "video" || kind == "animated_gif" then
      if Truthy(url) then
        AddLink("[" + (if kind == "video" then "動画" else "GIF") + "を見る " + n + "](" + url.value + ")")
      else
        AddLink("(" + (if kind == "video" then "動画あり" else "GIFあり") + " " + n + ")")
    else if Truthy(url) then AddLink("[メディアを見る " + n + "](" + url.value + ")")
    else NoEffect
  }

  /**
   * A photo never yields a link line: once the attribute lookup succeeds the URL is
   * truthy, so the link branch for a photo without a usable URL cannot be reached.
   * A photo with a non-empty `media_url` that is not itself an attribute name shows that URL.
   */
  lemma PhotoNeverLinks(m: Medium, idx: nat)
    requires IsPhoto(m)
    ensures !MediumStep(m, idx).AddLink?
    ensures Truthy(m.mediaUrl) && m.mediaUrl.value != "type" && m.mediaUrl.value != "media_url" ==>
      MediumStep(m, idx) == AddImage(m.mediaUrl.value)
  {
  }

  /** The label a video or GIF link starts with. */
  function LinkWord(m: Medium): string {
    if KindOf(m) == "video" then "動画" else "GIF"
  }

  /**
   * The lines of a video, a GIF or an unknown medium, numbered by position: a link to a
   * video or GIF URL, a plain note without one, and a link for an unknown medium with a URL.
   */
  lemma LinkLines(m: Medium, idx: nat)
    ensures IsVideoOrGif(m) && Truthy(m.mediaUrl) ==>
      MediumStep(m, idx) == AddLink("[" + LinkWord(m) + "を見る " + NatToString(idx + 1) + "](" + m.mediaUrl.value + ")")
    ensures IsVideoOrGif(m) && !Truthy(m.mediaUrl) ==>
      MediumStep(m, idx) == AddLink("(" + LinkWord(m) + "あり " + NatToString(idx + 1) + ")")
    ensures !IsPhoto(m) && !IsVideoOrGif(m) && Truthy(m.mediaUrl) ==>
      MediumStep(m, idx) == AddLink("[メディアを見る " + NatToString(idx + 1) + "](" + m.mediaUrl.value + ")")
  {
  }

  /** The result of walking all media of a tweet: image URLs and link lines, or an exception. */
  datatype MediaResult = Collected(images: seq<string>, links: seq<string>) | MediaRaised

  /** The walk over the media, stated recursively on the prefix walked so far. */
  function MediaSpec(media: seq<Medium>): MediaResult
    decreases |media|
  {
    if media == [] then Collected([], [])
    else
      var idx := |media| - 1;
      match MediaSpec(media[..idx])
      case MediaRaised => MediaRaised
      case Collected(images, links) =>
        match MediumStep(media[idx], idx)
        case Raises => MediaRaised
        case AddImage(u) => Collected(images + [u], links)
        case AddLink(l) => Collected(images, links + [l])
        case NoEffect => Collected(images, links)
  }

  /** The loop over `enumerate(tweet.media)`: an exception leaves the loop at once. */
  method CollectMedia(media: seq<Medium>) returns (r: MediaResult)
    ensures r == MediaSpec(media)
  {
    var images: seq<string> := [];
    var links: seq<string> := [];
    for idx := 0 to |media|
      invariant MediaSpec(media[..idx]) == Collected(images, links)
    {
      assert media[..idx + 1][..idx] == media[..idx];
      var effect := MediumStep(media[idx], idx);
      match effect {
        case Raises =>
          assert MediaSpec(media[..idx + 1]) == MediaRaised;
          MediaRaisedStays(media, idx + 1);
          return MediaRaised;
        case AddImage(u) =>
          images := images + [u];
        case AddLink(l) =>
          links := links + [l];
        case NoEffect =>
      }
    }
    assert media[..|media|] == media;
    r := Collected(images, links);
  }

  /** Once the walk has raised, walking further media does not undo it. */
  lemma {:induction false} MediaRaisedStays(media: seq<Medium>, k: nat)
    requires k <= |media| && MediaSpec(media[..k]).MediaRaised?
    ensures MediaSpec(media).MediaRaised?
    decreases |media| - k
  {
    if k < |media| {
      assert media[..k + 1][..k] == media[..k];
      MediaRaisedStays(media, k + 1);
    } else {
      assert media[..k] == media;
    }
  }

  /** Handling the media raises exactly when some photo has no `media_url` at all. */
  lemma {:induction false} MediaRaisedIff(media: seq<Medium>)
    ensures MediaSpec(media).MediaRaised? <==> exists i :: 0 <= i < |media| && IsPhoto(media[i]) && media[i].mediaUrl.None?
    decreases |media|
  {
    if media != [] {
      var idx := |media| - 1;
      var front := media[..idx];
      MediaRaisedIff(front);
      assert forall i :: 0 <= i < idx ==> front[i] == media[i];
    }
  }

  /**
   * The embed image is the URL that the first image-yielding medium gives, and there is
   * none when no medium yields an image.
   */
  lemma {:induction false} FirstImage(media: seq<Medium>)
    requires MediaSpec(media).Collected?
    ensures MediaSpec(media).images == [] <==> forall j :: 0 <= j < |media| ==> !MediumStep(media[j], j).AddImage?
    ensures MediaSpec(media).images != [] ==>
      exists j :: 0 <= j < |media| && MediumStep(media[j], j) == AddImage(MediaSpec(media).images[0]) &&
        forall i :: 0 <= i < j ==> !MediumStep(media[i], i).AddImage?
    decreases |media|
  {
    if media != [] {
      var idx := |media| - 1;
      var front := media[..idx];
      FirstImage(front);
      assert forall i :: 0 <= i < idx ==> front[i] == media[i];
    }
  }

  /** Every link line comes from some medium, and there are never more lines than media. */
  lemma {:induction false} LinksFromMedia(media: seq<Medium>)
    requires MediaSpec(media).Collected?
    ensures |MediaSpec(media).links| + |MediaSpec(media).images| <= |media|
    ensures forall k :: 0 <= k < |MediaSpec(media).links| ==>
      exists j :: 0 <= j < |media| && MediumStep(media[j], j) == AddLink(MediaSpec(media).links[k])
    decreases |media|
  {
    if media != [] {
      var idx := |media| - 1;
      var front := media[..idx];
      LinksFromMedia(front);
      assert forall i :: 0 <= i < idx ==> front[i] == media[i];
    }
  }

  /** The longest quoted text shown in full. */
  const QuoteLimit := 200

  /** A quoted text longer than the limit is cut to the limit and marked with `...`. */
  function TruncateQuote(text: string): (r: string)
    ensures |text| <= QuoteLimit ==> r == text
    ensures |text| > QuoteLimit ==> |r| == QuoteLimit + 3 && r[..QuoteLimit] == text[..QuoteLimit] && r[QuoteLimit..] == "..."
  {
    if |text| > QuoteLimit then text[..QuoteLimit] + "..." else text
  }

  /** Truncating a second time changes nothing. */
  lemma TruncateQuoteIdempotent(text: string)
    ensures TruncateQuote(TruncateQuote(text)) == TruncateQuote(text)
    ensures |TruncateQuote(text)| <= QuoteLimit + 3
  {
    if |text| > QuoteLimit {
      var once := TruncateQuote(text);
      assert once[..QuoteLimit] + "..." == once;
    }
  }

  /** `f"https://twitter.com/{screen_name}/status/{id}"` */
  function StatusUrl(screenName: string, id: TweetId): string {
    "https://twitter.com/" + screenName + "/status/" + id
  }

  /** The quoted-tweet block appended to the description. */
  function QuoteBlock(q: Quote): string {
    "\n\n> **引用元:** [" + TruncateQuote(q.text) + "](" + StatusUrl(q.screenName, q.id) + ")"
  }

  /** The quote block of the description, empty when the tweet quotes nothing. */
  function QuotePart(quote: Option<Quote>): string {
    match quote
    case Some(q) => QuoteBlock(q)
    case None => ""
  }

  /** The link lines of the description after a blank line, empty when there are none. */
  function LinkPart(links: seq<string>): (p: string)
    ensures links == [] ==> p == ""
  {
    if links == [] then "" else "\n\n" + Join(links, '\n')
  }

  /**
   * The description: the tweet text, then the quote block when the tweet quotes another,
   * then the link lines joined by newlines when there are any.
   */
  function Description(t: Tweet, links: seq<string>): (d: string)
    ensures t.text <= d
    ensures t.quote.Some? ==> t.text + QuoteBlock(t.quote.value) <= d
    ensures links != [] ==> EndsWith(d, "\n\n" + Join(links, '\n'))
    ensures t.quote.None? && links == [] ==> d == t.text
  {
    var withQuote := t.text + QuotePart(t.quote);
    assert (withQuote + LinkPart(links))[|withQuote|..] == LinkPart(links);
    withQuote + LinkPart(links)
  }

  /** What the description shows, in order: the text, the truncated quote when there is one, the link lines. */
  function Shown(t: Tweet, links: seq<string>): seq<string> {
    [t.text] + (match t.quote case Some(q) => [TruncateQuote(q.text)] case None => []) + links
  }

  /** The description carries the text, then the truncated quote, then every link line, in that order. */
  lemma DescriptionCarries(t: Tweet, links: seq<string>)
    ensures InOrder(Shown(t, links), Description(t, links))
  {
    var tail := LinkPart(links);
    if links != [] {
      JoinInOrder(links, '\n');
      InOrderAfter(links, "\n\n", Join(links, '\n'));
    }
    match t.quote {
      case Some(q) =>
        InOrderFramed(t.text, "\n\n> **引用元:** [", TruncateQuote(q.text), "](", StatusUrl(q.screenName, q.id), ")", links, tail);
        assert Shown(t, links) == [t.text, TruncateQuote(q.text)] + links;
      case None =>
        InOrderFront(t.text, links, tail);
        assert t.text + "" == t.text;
        assert Shown(t, links) == [t.text] + links;
    }
  }

  /** The embed sent for a tweet; the colour is a constant and is not modelled. */
  datatype EmbedMsg = EmbedMsg(
    url: string,
    timestamp: int,
    title: string,
    description: string,
    footer: string,
    favorites: string,
    retweets: string,
    authorName: string,
    authorUrl: string,
    authorIcon: Option<string>,
    image: Option<string>)

  /**
   * The embed for a tweet posted by `info`'s account at time `time`, or `None` when
   * handling its media raises.
   */
  function BuildEmbed(t: Tweet, info: UserInfo, time: int): (e: Option<EmbedMsg>)
    ensures e.None? <==> MediaSpec(t.media).MediaRaised?
    ensures e.Some? ==> e.value.image == (if MediaSpec(t.media).images == [] then None else Some(MediaSpec(t.media).images[0]))
    ensures e.Some? ==> t.text <= e.value.description && e.value.timestamp == time
    ensures e.Some? ==> e.value.description == Description(t, MediaSpec(t.media).links)
  {
    match MediaSpec(t.media)
    case MediaRaised => None
    case Collected(images, links) =>
      var sn := info.screenName.GetOr("");
      Some(EmbedMsg(
        StatusUrl(sn, t.id),
        time,
        "@" + sn + " の新しいツイート",
        Description(t, links),
        "Twitter @" + sn,
        IntToString(t.favoriteCount),
        IntToString(t.retweetCount),
        info.name.GetOr("Unknown User"),
        "https://twitter.com/" + sn,
        info.profileImageUrl,
        if images == [] then None else Some(images[0])))
  }

  /**
   * The posted embed's description carries the tweet text, then the truncated quote when
   * the tweet quotes another, then the numbered line of every medium that yields one.
   */
  lemma EmbedShowsQuoteAndLinks(t: Tweet, info: UserInfo, time: int)
    requires BuildEmbed(t, info, time).Some?
    ensures InOrder(Shown(t, MediaSpec(t.media).links), BuildEmbed(t, info, time).value.description)
    ensures forall k :: 0 <= k < |MediaSpec(t.media).links| ==>
      exists j :: 0 <= j < |t.media| && MediumStep(t.media[j], j) == AddLink(MediaSpec(t.media).links[k])
  {
    DescriptionCarries(t, MediaSpec(t.media).links);
    LinksFromMedia(t.media);
  }
}
