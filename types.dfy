/**
 * Values that the tweet relay reads from its collaborators: tweets and their media as
 * the scraping client returns them, the tracked account's profile, the outcome of
 * decrypting the stored cookies, of fetching, of posting to a webhook and of sending a
 * direct message.  External calls are never made by the model: their results are
 * inputs.
 */
module Types {

  datatype Option<T> = None | Some(value: T) {
    function GetOr(default: T): T {
      match this
      case Some(v) => v
      case None => default
    }
  }

  /** Tweet ids are decimal strings as the client returns them. */
  type TweetId = string

  /** The ids of a list as a set: Python's `set(ids)`. */
  function SetOf(ids: seq<TweetId>): set<TweetId> {
    set x | x in ids
  }

  /** One attached medium: its `type` attribute and its `media_url` attribute, each absent or present. */
  datatype Medium = Medium(kind: Option<string>, mediaUrl: Option<string>)

  /** The tweet a tweet quotes. */
  datatype Quote = Quote(text: string, screenName: string, id: TweetId)

  /**
   * A fetched tweet.  `createdAt` is the creation time in seconds; `None` stands for a
   * timestamp that the client cannot parse, so that reading it raises.
   */
  datatype Tweet = Tweet(
    id: TweetId,
    text: string,
    createdAt: Option<int>,
    media: seq<Medium>,
    quote: Option<Quote>,
    favoriteCount: int,
    retweetCount: int)

  /** The tracked account as returned by a lookup by id. */
  datatype UserInfo = UserInfo(screenName: Option<string>, name: Option<string>, profileImageUrl: Option<string>)

  /** What decrypting the stored cookies yields: nothing, plain text, a JSON object, or another JSON value. */
  datatype Decrypted = Undecryptable | PlainText(text: string) | JsonObject(entries: map<string, string>) | OtherJson

  /** How the two lookups (profile, then timeline) of one run end. */
  datatype FetchError = UserNotFound | HttpError(message: string) | OtherFetchError
  datatype FetchOutcome =
    | TargetFalsy                                // the profile lookup returned nothing
    | Fetched(info: UserInfo, tweets: seq<Tweet>)
    | FetchRaised(error: FetchError)

  /** The body of a webhook response: a JSON object (with or without `retry_after`) or anything else. */
  datatype Body = JsonBody(retryAfter: Option<int>) | NotJsonObject

  /** What one webhook POST gives back: a response, or an exception raised by the request. */
  datatype PostResult = Response(status: int, body: Body) | PostRaised

  /** How the direct message to the user ends. */
  datatype DmOutcome = DmSent | DmForbidden | DmNotFound | DmHttpError
}
