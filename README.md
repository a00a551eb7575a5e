# IFTTT2 tweet relay: a Dafny model of `bot.py`

IFTTT2 is a Discord bot. Each user registers three things:
- their Twitter cookies, stored encrypted;
- an account to track;
- a Discord webhook.

Every fifteen minutes the bot launches one check per user whose tracking is on. A check does the following:
1. It verifies that the settings are complete.
2. It decrypts the cookies.
3. It fetches the tracked account's profile and timeline.
4. It keeps the non-retweet tweets of the last thirty minutes that were not handled before.
5. It posts each of them, oldest first, to the webhook as an embed.
6. It writes back the list of handled tweet ids (at most 200, largest id first).

Unusable cookies, a missing or unknown account, an authentication error and a webhook that answers 400, 401 or 404 each end the run the same way: the user gets a direct message and tracking is switched off.

The model covers that check (`check_tweets_for_user`), `notify_user_and_disable`, the `track_toggle` flip, the tick's choice of users, and the small validators of the setup dialog:
- screen-name normalisation;
- the webhook URL check;
- the cookie-list conversion;
- the invite allow-list.

The outside world is given as values. The `World` of a run holds:
- the decrypted cookies;
- the fetch outcome;
- the current time in seconds;
- the webhook's replies, in order;
- the outcomes of the direct messages, in order.

The settings of one user form a `Record`. The dictionary that the bot loads and mutates in place is the class `Store.UserData`. The settings directory is the class `Store.UserStore`, whose `files` map is reassigned by `Save`.

Five loops are modelled as loops:
- the timeline filter (`Window.FilterWindow`);
- the listing of the merged id set (`Seen.ListOfSet`);
- the media walk (`Embed.CollectMedia`);
- the delivery loop (`Delivery.Deliver`);
- the tick's selection (`Tick.SelectUsers`).

Four of these loop methods are proved equal to recursive specification functions: `FilterWindow` to `ScanSpec`, `CollectMedia` to `MediaSpec`, `Deliver` to `DeliverySpec` and `SelectUsers` to `Launches`. The properties are proved about those functions. `ListOfSet` has no such function; its contract says what `list(set)` promises: each element of the set exactly once, in some order. The whole run, `Pipeline.CheckTweetsForUser`, is proved to end in the state and report given by the pure `Pipeline.RunSpec`; the lemmas in `RunProperties` are stated about `RunSpec`.

`list(set)` in Python lists a set in an order the language does not fix. `Seen.ListOfSet` picks any order. The run returns the order it used as a ghost value, and `RunSpec` takes that order as a parameter.

Four behaviours of the code are worth stating plainly, since the model follows them:
- **Retweet ids.** A retweet's id is never added to the window ids (bot.py:592-593), so it never enters the handled list.
- **Disabling after a notice.** A direct message failing with an HTTP error other than Forbidden or NotFound raises out of `notify_user_and_disable` before `enabled` is set (bot.py:776-786). The flag is then left as it was, and the run ends in one of two ways:
  - before delivery, it ends with the settings untouched;
  - inside the delivery loop, the exception is caught per tweet (bot.py:733-736), and the loop goes on with the next candidate.
- **Photo URL.** The comment at bot.py:631 gives the priority as `url` before `media_url`. The code instead looks up an attribute whose name is the `media_url` value (bot.py:632) and falls back to `media_url` (bot.py:634), so the URL shown is `media_url`. A photo without `media_url` raises, and the whole tweet is skipped.
- **The one-second pause.** The pause (bot.py:731) follows every reply that is classified without ending the loop and without raising: a 2xx, or any status outside 400, 401 and 404, including the reply to the resend after a 429. It does not follow a 429 whose body is not a JSON object, which raises at bot.py:710, nor a 400, 401 or 404 whose notice fails, since both jump to the handler at bot.py:733.

## Model

| member | source | states |
|---|---|---|
| Setup.NormalizeScreenName | bot.py:304-308 | The input is rejected exactly when, once stripped, it is only `@` signs. Otherwise the name is non-empty, does not start with `@`, and is the stripped input minus its leading `@` signs. |
| Setup.DropLeadingAtSigns | bot.py:305 | `lstrip('@')` with the emptiness check: none exactly when the text is all `@`. Otherwise what is left after the leading `@` signs. |
| Setup.WebhookUrlShape | bot.py:354-355 | A URL is accepted exactly when it is one of the two Discord webhook prefixes followed by some rest. Every rest after either prefix is accepted. |
| Setup.CookieDict | bot.py:245 | The keys are exactly the names of the entries that carry both `name` and `value`. Each name maps to the value of its last such entry. |
| Setup.CookiesFromExport | bot.py:245-265 | Setup gives up exactly when no entry carries both keys. Otherwise it yields the non-empty dictionary. |
| Setup.CookieDictEmpty | bot.py:264-265 | The dictionary is empty exactly when no entry has both keys. |
| Setup.ParseAllowedInviterIds | bot.py:105-110 | Every allowed id is non-negative. An unset variable gives the empty set. |
| Setup.PartValueOfRendered | bot.py:110 | A rendered id contains no comma and reads back as itself after stripping. |
| Setup.ParseRenderedIds | bot.py:105-110 | Writing any list of ids comma-separated and parsing the text gives back exactly that set of ids. This holds for the empty list too. |
| Store.DisabledRecord | bot.py:785 | Tracking is off (`enabled` is `False`), and every other key is kept. |
| Store.UserData.constructor | bot.py:47-57 | The loaded dictionary holds exactly the stored object. |
| Store.UserStore.constructor | bot.py:43-44 | The store starts with the given objects. |
| Store.UserStore.Load | bot.py:47-57 | Gives nothing exactly when no object is stored for the id. Otherwise gives a fresh dictionary holding that object. |
| Store.UserStore.Save | bot.py:59-66 | The user's stored object becomes the dictionary's current contents, and no other object changes. |
| Store.Toggled | bot.py:413 | The flag is always present afterwards. Tracking is on exactly when it was off before, with an absent flag counting as off. No other key changes. |
| Store.ToggleTwice | bot.py:413 | Toggling twice restores whether tracking is on. |
| Store.TrackToggle | bot.py:403-418 | With no settings or an empty object, nothing changes and no status is reported. Otherwise the toggled object is saved and its new state reported. |
| Window.Cutoff | bot.py:590-601 | The position of the first tweet older than the threshold: every tweet before it is not old, and the tweet at it is old. |
| Window.RetweetPrefix | bot.py:592 | The retweet test ignores case: a text is a retweet exactly when it has at least four characters and its first four, lower-cased, are `rt @`. |
| Window.FilterWindow | bot.py:577-605 | The filtering loop returns the candidates and the window ids of the walk `ScanSpec`. |
| Window.ScanIgnoresAfterCutoff | bot.py:598-601 | Nothing after the first old tweet is inspected: appending tweets after it changes neither result. |
| Window.ScanRecentIff | bot.py:586-597 | A tweet is a candidate exactly when all of these hold: it stands before the cutoff; its time is readable and inside the window; it is not a retweet; its id was not handled before. |
| Window.ScanWindowIff | bot.py:590-593 | An id is a window id exactly when a non-retweet inside the window, before the cutoff, carries it. In particular, retweet ids are never collected. |
| Window.ScanWindowSeenFree | bot.py:590-593 | The window ids do not depend on the ids handled before. |
| Window.ScanSettled | bot.py:586-597 | When every window id was handled before, there is no candidate. |
| Window.OrderedCandidates | bot.py:609 | The sorted candidates are ordered by time and are the same tweets. Tweets with equal times keep their timeline order. |
| Embed.Attr | bot.py:624-632 | A medium has no attribute other than `type` and `media_url`. |
| Embed.MediumStep | bot.py:624-661 | Handling a medium raises exactly when it is a photo without `media_url`. An image comes only from a photo, with a non-empty URL. A link line comes only from a medium that is not a photo. The cases with no effect are exactly these: a photo whose `media_url` is empty, and a medium that is neither a photo, a video nor a GIF and has no URL. |
| Embed.PhotoNeverLinks | bot.py:629-643 | A photo never yields a link line, so the `[画像を見る n]` branch cannot be reached. A photo whose `media_url` is a non-empty URL shows that URL. |
| Embed.LinkLines | bot.py:645-661 | The exact numbered lines (1-based): `[動画を見る n](url)` or `[GIFを見る n](url)` with a URL; `(動画あり n)` or `(GIFあり n)` without one; `[メディアを見る n](url)` for an unknown medium with a URL. |
| Embed.CollectMedia | bot.py:621-661 | The media loop returns what the walk `MediaSpec` gives, and stops at the first exception. |
| Embed.MediaRaisedStays | bot.py:623-661 | Once handling a medium has raised, the tweet's result stays an exception. |
| Embed.MediaRaisedIff | bot.py:623-634 | A tweet's media raise exactly when some photo among them has no `media_url`. |
| Embed.FirstImage | bot.py:636-637 | The embed image is the image of the first medium that yields one, and there is no image exactly when no medium yields one. |
| Embed.LinksFromMedia | bot.py:641-661 | Every link line comes from some medium, and there are no more lines and images together than media. |
| Embed.TruncateQuote | bot.py:667 | A quoted text of at most 200 characters is unchanged. A longer one becomes its first 200 characters followed by `...`. |
| Embed.TruncateQuoteIdempotent | bot.py:667 | Truncating twice is the same as once, and the result has at most 203 characters. |
| Embed.Description | bot.py:664-671 | The description starts with the tweet text. With a quote, the text is followed at once by the quote block, which shows the quote truncated to 200 characters. With link lines, it ends with a blank line and then the lines joined by newlines. Without either, it is exactly the text. |
| Embed.DescriptionCarries | bot.py:664-671 | The description shows the tweet text, then the truncated quote when there is one, then every link line, in that order and without overlap. |
| Embed.BuildEmbed | bot.py:616-695 | Building the embed fails exactly when the media raise. The image is the first collected image. The description is the one built from the text, the quote and the collected link lines. The timestamp is the tweet's time. |
| Embed.EmbedShowsQuoteAndLinks | bot.py:621-671 | The posted embed's description shows the text, the truncated quote and every numbered media line in order. Every such line comes from one of the tweet's media. |
| Delivery.RetryOnlyOnRateLimit | bot.py:703-715 | Each candidate gets no request exactly when its embed cannot be built (its media raise). Otherwise it gets one request, or two exactly when the first reply is a 429 with a JSON body. The pause before the resend is `retry_after` (default 5) plus one. Every request carries this tweet, the webhook URL and the tweet's time. |
| Delivery.PostEmbedRequests | bot.py:703-715 | For any embed: no request exactly when the embed could not be built. Otherwise one request, or two exactly when the first reply is a 429 with a JSON body. Every new request carries that embed to the webhook URL. |
| Delivery.PostEmbedBounds | bot.py:703-728 | One candidate adds at most one notice, and only for 400, 401 or 404. It can post only its own id. A status that ends the loop is a rejection. |
| Delivery.PostedOnSuccess | bot.py:717-728 | A candidate is recorded posted exactly when the status its outcome is decided on is 2xx. The loop ends exactly when that status is 400, 401 or 404 and the notice does not raise. |
| Delivery.PostEmbedDecided | bot.py:703-728 | For any embed: posted exactly on a 2xx deciding status. The loop ends exactly on a rejecting status whose notice goes through, and it ends with that status. |
| Delivery.ClassifyFacts | bot.py:718-728 | The same two facts for one final reply: posted on 2xx, and ended on a rejection whose notice goes through. |
| Delivery.DeliveryBounds | bot.py:613-736 | At most two requests and one notice per candidate. Only candidate ids are posted. Every notice and the ending status are 400, 401 or 404. |
| Delivery.RejectionStops | bot.py:724-728 | After a rejection ends the loop, no later candidate is handled. |
| Delivery.AttemptsFromCandidates | bot.py:613-707 | Every request goes to the webhook URL and carries a handled candidate, stamped with that candidate's time. |
| Delivery.DeliveryOrdered | bot.py:609-613 | When the candidates are sorted oldest first, the requests go out oldest first. |
| Delivery.NotifyUserAndDisable | bot.py:772-786 | The notice raises exactly when the direct message fails with an HTTP error, and then nothing changes. Otherwise (sent, Forbidden or NotFound) tracking is switched off and saved. |
| Delivery.DeliverOne | bot.py:614-736 | Handling one candidate gives the state `Step` describes. The settings change only when a rejection's notice goes through, and then tracking is switched off and saved. |
| Delivery.Deliver | bot.py:613-736 | The delivery loop gives `DeliverySpec`. The settings are untouched unless a rejection ended the loop, in which case tracking is switched off and saved. |
| Seen.ListOfSet | bot.py:748 | Lists every element of the merged set exactly once. |
| Seen.PruneSeen | bot.py:744-751 | The pruned list has the listing's length, capped at 200. |
| Seen.PrunedSeenList | bot.py:742-751 | The new list meets all of the following: it has at most 200 ids, each once, all from the listing; it is ordered by numeric value from largest to smallest, with non-digit ids counting as 0; every dropped id is no larger than every kept id; nothing is dropped when the listing holds at most 200 ids. |
| Seen.PrunedMembers | bot.py:747-751 | The pruned list has each id once and only ids from the listing. With at most 200 ids, it keeps all of them. |
| Seen.PrunedOrder | bot.py:747-751 | The pruned list is ordered from the largest id to the smallest. Every id dropped is no larger than any id kept. |
| Seen.PruneSeenIdempotent | bot.py:747-751 | Pruning a pruned list gives the same list. |
| Seen.SeenUpdate | bot.py:753-759 | The list is written exactly when the pruned list holds a set of ids different from the stored one. |
| Tick.ParseIntRoundTrip | bot.py:459 | `int()` reads back what `str()` writes, for every integer. |
| Tick.ParseDigits | bot.py:459 | `int()` reads a digit string as the number it spells. |
| Tick.ParseNegative | bot.py:459 | `int()` reads a minus sign followed by digits as the negated number. |
| Tick.FileUserId | bot.py:454-459 | Only names ending in `.json` stand for an id. |
| Tick.FileIdOfDigits | bot.py:454-459 | A name made of digits, a dot and a rest ending in `.json` stands for the id the digits spell. |
| Tick.SelectUsers | bot.py:454-474 | The selection loop launches exactly the ids `Launches` lists. |
| Tick.LaunchedIff | bot.py:454-466 | A user is launched exactly when some listed name stands for their id and their stored settings have tracking on. There are never more launches than names. |
| Tick.LaunchedByIff | bot.py:454-466 | The same, for file names read by any id reader. |
| Tick.LaunchesPair | bot.py:454-466 | Two names that read as the same enabled id launch it twice. |
| Tick.DuplicateLaunch | bot.py:454-466 | Two names for the same id launch that user twice: `7.json` and `7.old.json` launch user 7 twice. |
| Pipeline.DisableBeforeDelivery | bot.py:522-574 | A notice-and-disable before delivery ends in the state `DisableEarly` gives, for the first direct message's outcome. |
| Pipeline.CookiesUsableCases | bot.py:522-523 | The decrypted cookies pass the check exactly when they are a JSON object holding at least one cookie. A failed decryption, plain text, other JSON and an empty object all fail it. |
| Pipeline.AuthErrorIff | bot.py:567 | A fetch error counts as an authentication failure exactly when `authenticate` occurs in its lower-cased message, or `401` or `403` occurs in the message. |
| Pipeline.CheckTweetsForUser | bot.py:502-768 | The settings object, the store and the report after a run are exactly `RunSpec`'s. A finished run has listed the merged id set, each id once. |
| Pipeline.DeliverAndRecord | bot.py:576-759 | The part of a run after a non-empty fetch ends as `DeliverSpec` gives. The listing enumerates the window ids and the stored ids, each once. |
| Pipeline.RecordSeen | bot.py:740-759 | After a loop with no rejection, the run finishes as `Conclude` gives. The listing enumerates the merged set, each id once. |
| RunProperties.DeliverSpecFramed | bot.py:607-759 | The delivery part of a run writes only the user's own object. In it, only the flag and the handled list can change. |
| RunProperties.ConcludeFramed | bot.py:724-759 | However the run ends after the loop, it writes only the user's own object. Only the flag and the handled list change, and the flag follows the exit. |
| RunProperties.DeliverSpecFinished | bot.py:740-759 | A finished run writes the pruned list exactly when its set of ids differs from the stored one. Otherwise it writes nothing. |
| RunProperties.ConcludeFinished | bot.py:740-759 | The same, for any outcome of the delivery loop. |
| RunProperties.FramedKeepsOthers | bot.py:59-66 | An outcome within the frame leaves every other user's stored object as it was. |
| RunProperties.RunTouchesOnlyOwnSettings | bot.py:502-786 | A run writes no other user's object. It changes only the flag and the handled list of its own. Tracking ends up off exactly on the runs that end by switching it off. The handled list changes only on finished runs. |
| RunProperties.IncompleteSettingsDisable | bot.py:505-512 | With a required key missing, the run switches tracking off, saves, and does nothing else: no fetch, no request, no notice. |
| RunProperties.FailureClassification | bot.py:521-574 | These failures send a notice and end the run: unusable cookies, a missing target, `UserNotFound`, and an authentication-flavoured HTTP error. Tracking is switched off unless the notice raises. Any other fetch error ends the run with nothing written. |
| RunProperties.SetupCookiesUsable | bot.py:262-270 | Cookies that the setup dialog accepted pass the run's cookie check once decrypted back to the stored dictionary. |
| RunProperties.EmptyFetchUntouched | bot.py:580-583 | An empty timeline ends the run with nothing posted and nothing written. |
| RunProperties.PostsAreFreshTweets | bot.py:586-613 | Every request, and every id reported posted, belongs to a tweet that meets all of these: it stands before the first old tweet; its time lies in the window; it is not a retweet; its id was not handled before. |
| RunProperties.PostsOldestFirst | bot.py:609-613 | The requests of a run go out in order of tweet time, oldest first. |
| RunProperties.ConcludeReports | bot.py:613-736 | However the run ends after the loop, it reports the loop's requests, pauses, posted ids and notices. |
| RunProperties.SeenListUpdate | bot.py:740-759 | The handled list changes exactly when a run finishes with a different set of ids. The new list meets all of the following: it has at most 200 ids, each once; it is ordered largest first; each id was handled before or collected in the window. A finish without a change writes nothing. |
| RunProperties.DeliverSeenList | bot.py:740-759 | The same, from a non-empty timeline on. |
| RunProperties.PrunedFromCombined | bot.py:742-751 | The pruned merged list has at most 200 ids, each once, largest first. Each was handled before or is in the window. |
| RunProperties.WindowIdsMarkedSeen | bot.py:742-751 | With at most 200 ids in all, a finished run keeps every window id and every previously handled id in the handled list, whether or not posting succeeded. |
| RunProperties.SmallListingKept | bot.py:747-751 | A listing of at most 200 distinct ids keeps its whole set when pruned. |
| RunProperties.FinishedRunSettles | bot.py:502-759 | After a finished run with at most 200 ids in all, the four required keys and the webhook are still set, and the handled ids are exactly the window ids together with those handled before. |
| RunProperties.SettledDelivery | bot.py:586-759 | Once every window id is handled, delivery makes no request, posts nothing and sends no notice. Given a listing of the unchanged set, it writes nothing. |
| RunProperties.SecondRunPostsNothing | bot.py:502-768 | After a finished run with at most 200 ids in all, the same run again makes no request, posts nothing and sends no notice. It finishes without writing the handled list, and the store is unchanged. |
| Sorting.SortBySorted | bot.py:609 | The stable sort by a key yields a list ordered by that key. |
| Sorting.SortByStable | bot.py:609 | Elements with equal keys keep their relative order. |
| Sorting.SortByMembers | bot.py:747-751 | Sorting keeps the same elements and keeps a list free of duplicates. |
| Sorting.SortBySortedIdentity | bot.py:747-751 | Sorting an already sorted list leaves it unchanged. |
| Text.TrimStart | bot.py:305 | `lstrip` removes exactly the longest prefix made of the given characters. |
| Text.SplitJoin | bot.py:110 | Splitting a comma-joined list of comma-free parts gives the parts back. |
| Text.ContainsIff | bot.py:567 | `sub in s` holds exactly when `sub` occurs in `s` at some index. |
| Text.NatToString | bot.py:682-683 | `str(n)` is a digit string without leading zeros whose value is `n`. |
| Text.JoinInOrder | bot.py:671 | The parts of a join occur in it one after another, in order. |

## Left out

- Fernet encryption and decryption: `decrypt_data` is not modelled. Its result is an input: nothing, plain text, a JSON object or another JSON value.
- The twikit client, `requests.post`, `bot.fetch_user` and `user.send`: their results are inputs. A webhook request past the end of the given replies raises. A direct message past the end of the given outcomes is delivered.
- The Discord event handlers (`on_ready`, `on_guild_join`, `leave_guild`), the `wait_for` dialog of `setup_tracking`, the `checknow` command, `keep_alive` and `bot.run`.
- `asyncio.create_task`/`gather` in the tick and the fifteen-minute scheduling: the concurrent runs are not modelled, only the selection.
- `asyncio.sleep`: pauses are recorded as a list of seconds, and nothing waits.
- File I/O of `load_user_data` and `save_user_data`: the store is an in-memory map, and a file that is not valid JSON is not modelled.
- `datetime`, `ZoneInfo` and `isoformat`: times are integer seconds, and the embed timestamp is that integer.
- The embed colour, the message wording of notices, and logging.
- Store.UserData: only the six keys the relay reads or writes are modelled. A JSON `null` value, a non-boolean `enabled` and non-string tweet ids are not modelled.
- Setup.ParseAllowedInviterIds, Tick.FileUserId and Seen.SeenKey: only ASCII digits are digits, and the underscores that `int()` accepts are not modelled.
- Delivery.RetryDelay: `retry_after` is an integer. A float, a `null` or a non-numeric value, which would raise or sleep a fractional time in the code, is not modelled.
- Window.OrderedCandidates: the in-place `list.sort` is modelled as the value function `Sorting.SortBy`, a stable insertion sort.
- Setup.CookieDict: an exported item that is not a JSON object is not modelled.
- RunProperties.SecondRunPostsNothing: stated only for runs with at most 200 ids in all. With more, pruning keeps the 200 largest ids, and a window id among the smaller ones can be dropped and posted again by a later run.
- Text.Lower: only ASCII letters are lower-cased. Unicode case folding in `str.lower()` and `re.IGNORECASE` is not modelled.
