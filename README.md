# insta-bot: a Dafny model of the bot's governor, API client and request layer

insta-bot is a Kotlin library that drives an Instagram account through
Instagram's private mobile API. This project models its core in Dafny and
proves properties of the model:

- **The action governor of `InstagramBot`.** It keeps per-action counters,
  blocked and sleeping flags, daily maxima and the time of the last reset.
  Around it sit the gates (`like`, `likeComment`, `follow`, `unfollow`,
  `comment`, `unlike`, `block`, `unblock`), the list drivers that run a gate
  over a list, the validation in `replyToComment`, the unseen-story filter of
  `watchUsersStories`, and the bot's own feed loops.
- **The shortcode codec.** `getMediaIdFromLink` and `getLinkFromMediaId`
  convert between a media id and a link. They are modelled as written and
  with a corrected alphabet.
- **The singleton API client `InstagramAPI`.** Modelled are `prepare`
  (restoring a saved login), `login`, `saveSuccessfulLogin`, `logout`, the
  challenge menu and `solveChallenge`, the five cursor-driven pagination
  loops, `sendDirectItem`, `watchReels` and `archiveMedia`.
- **The request dispatcher `Request`.** `prepare` builds the URL and payload.
  `send` covers the login guard, signing, cookie merging and request
  counting, and classifies the status code (200, 400 with two-factor or
  challenge, 403 `login_required` deleting the session file, 404 leaving
  `lastJSON` alone).
- **`Crypto`**: HMAC signing, the device id and the UUID.
- **`CookiePersistor`**: the on-disk session record and its round trip.

State that the source mutates in place is a class with `modifies` clauses:

| class | stands for |
|---|---|
| `InstagramBot.Bot` | the bot object |
| `InstagramApi.InstagramApi` | the `InstagramAPI` object |
| `Session.Session` | the `InstagramAPI` fields that `Request.send` writes |
| `Request.Request` | the request object |
| `CookiePersistor.CookiePersistor` | the persistor |
| `FileSystem.Disk` | the files the program reads and deletes |

Each method is proved against a specification function of the old state
(`Snapshot() == Gate(Rules(), key, old(Snapshot()), …).ledger`). Lemmas then
state what the source promises about those functions. Code that only computes
values is written as functions.

Anything that comes from outside the process is a parameter:

- the clock and random draws (the jitter of `watchReels`, the random UUID
  text, the MD5 and HMAC digests);
- the server's responses and parsed JSON replies;
- the answers of the interactive prompts.

## Model

| member | source | states |
|---|---|---|
| InstagramBot.Bot.constructor | src/main/kotlin/bot/InstagramBot.kt:19-80 | every one of the eleven actions starts at 0, not blocked, not sleeping; the eight limited actions get their daily maxima |
| InstagramBot.Reset | src/main/kotlin/bot/InstagramBot.kt:122-126 | a reset keeps the tracked actions and the sleeping flags and sets the reset time to now |
| InstagramBot.ResetClears | src/main/kotlin/bot/InstagramBot.kt:122-126 | after a reset every total is 0 and every blocked flag is false, over the same actions |
| InstagramBot.Bot.ResetCounters | src/main/kotlin/bot/InstagramBot.kt:122-126 | the bot's new state is the reset of its old state, and the bot stays well formed |
| InstagramBot.Refresh | src/main/kotlin/bot/InstagramBot.kt:131-135 | the reset step of reachedLimit keeps the tracked actions |
| InstagramBot.RefreshIdempotent | src/main/kotlin/bot/InstagramBot.kt:131-135 | a second check at the same instant changes nothing more |
| InstagramBot.QuotaOnlyBindsAtZero | src/main/kotlin/bot/InstagramBot.kt:131-139 | at any instant later than the last reset, the limit is reached exactly when the daily maximum is 0 or less |
| InstagramBot.Bot.ReachedLimit | src/main/kotlin/bot/InstagramBot.kt:131-139 | the state is refreshed (reset when now is later than the last reset), and the answer is whether nothing is left of the maximum |
| InstagramBot.Bot.Respond | src/main/kotlin/bot/InstagramBot.kt:880-911 | the bot's new state and result are those of React: the feedback_required, ok and other replies |
| InstagramBot.Bot.Act | src/main/kotlin/bot/InstagramBot.kt:858-911 | the bot's new state and result are those of Gate: the quota and blocked check, then the reply handling |
| InstagramBot.React | src/main/kotlin/bot/InstagramBot.kt:880-911 | the reply handling keeps the tracked actions and the reset time, and always counts as a sent request |
| InstagramBot.Gate | src/main/kotlin/bot/InstagramBot.kt:858-911 | a gated action keeps the tracked actions and leaves the reset time where the quota check put it |
| InstagramBot.GateOutcome | src/main/kotlin/bot/InstagramBot.kt:858-911 | the request goes out exactly when the quota and the blocked flag allow it; only an "ok" status without feedback_required succeeds and adds exactly one; feedback_required blocks the action or puts it to sleep as the protection and sleep settings say; no other total changes |
| InstagramBot.Bot.Like | src/main/kotlin/bot/InstagramBot.kt:858-911 | like is the gate on "likes", with sleep and protection as configured |
| InstagramBot.Bot.LikeComment | src/main/kotlin/bot/InstagramBot.kt:1063-1094 | likeComment is the gate on "likes" that blocks on the first feedback_required |
| InstagramBot.Bot.Follow | src/main/kotlin/bot/InstagramBot.kt:1254-1299 | follow is the gate on "follows" |
| InstagramBot.Bot.Unfollow | src/main/kotlin/bot/InstagramBot.kt:1354-1399 | unfollow is the gate on "unfollows" |
| InstagramBot.Commenting | src/main/kotlin/bot/InstagramBot.kt:1914-1963 | an already commented media succeeds without a request or a state change; otherwise comment is the gate on "comments" |
| InstagramBot.Bot.Comment | src/main/kotlin/bot/InstagramBot.kt:1914-1963 | the bot's new state and result are those of Commenting |
| InstagramBot.Bot.PlainAct | src/main/kotlin/bot/InstagramBot.kt:1022-1037 | the bot's new state and result are those of Plain |
| InstagramBot.Plain | src/main/kotlin/bot/InstagramBot.kt:1022-1037 | the plain gate keeps the tracked actions |
| InstagramBot.PlainOutcome | src/main/kotlin/bot/InstagramBot.kt:1022-1037 | the request goes out exactly when the quota allows it, success is exactly an accepted request and adds one, and no blocked or sleeping flag changes |
| InstagramBot.Bot.Unlike | src/main/kotlin/bot/InstagramBot.kt:1022-1037 | unlike is the plain gate on "unlikes" |
| InstagramBot.Bot.Block | src/main/kotlin/bot/InstagramBot.kt:2081-2095 | block is the plain gate on "blocks" |
| InstagramBot.Bot.Unblock | src/main/kotlin/bot/InstagramBot.kt:2100-2114 | unblock is the plain gate on "unblocks" |
| InstagramBot.MentionCheck | src/main/kotlin/bot/InstagramBot.kt:1983-1995 | the text check throws exactly on an empty text and refuses a text not starting with '@' |
| InstagramBot.NoReplyToSelf | src/main/kotlin/bot/InstagramBot.kt:1991-1994 | a reply whose first word is '@' and the user's own name is refused |
| InstagramBot.ReplyToOther | src/main/kotlin/bot/InstagramBot.kt:1983-1994 | a reply whose first word mentions another name passes the check |
| InstagramBot.Replying | src/main/kotlin/bot/InstagramBot.kt:1968-2013 | an uncommented media is refused with no change; a request goes out only for a commented media whose text passes the check; the exception happens only on an empty text; success is exactly an "ok" reply without feedback_required and adds one comment; a failed reply leaves only the quota check's refresh and never sets a flag |
| InstagramBot.Bot.ReplyToComment | src/main/kotlin/bot/InstagramBot.kt:1968-2013 | the bot's new state and result (None for the exception) are those of Replying |
| InstagramBot.QuotaDrive | src/main/kotlin/bot/InstagramBot.kt:917-945 | a quota drive keeps the tracked actions and stops at an index inside the list |
| InstagramBot.QuotaDriveOrder | src/main/kotlin/bot/InstagramBot.kt:917-945 | likeMedias, followUsers and unfollowUsers emit ids in list order, and stop before the end only when the quota is exhausted |
| InstagramBot.QuotaOrder | src/main/kotlin/bot/InstagramBot.kt:1304-1317 | a whole quota drive emits a subsequence of its ids |
| InstagramBot.QuotaNeverStopsDriver | src/main/kotlin/bot/InstagramBot.kt:131-139 | on a clock that moves forward, a driver with a positive maximum goes through every id, because every check resets the counters |
| InstagramBot.SubseqShorter | src/main/kotlin/bot/InstagramBot.kt:1211-1222 | a subsequence is no longer than its sequence, so the unseen count is bounded by the stories held |
| InstagramBot.SubseqConcat | src/main/kotlin/bot/InstagramBot.kt:1211-1219 | subsequences of two lists, joined, are a subsequence of the two lists joined, as the reels' unseen stories are |
| InstagramBot.SubseqGrow | src/main/kotlin/bot/InstagramBot.kt:917-945 | a subsequence stays one when the sequence grows at its end |
| InstagramBot.Bot.QuotaDriver | src/main/kotlin/bot/InstagramBot.kt:917-945 | the loop computes the quota drive: the new state and the emitted ids are QuotaDrive's from the first id |
| InstagramBot.Bot.PlainDriver | src/main/kotlin/bot/InstagramBot.kt:2119-2141 | the loop computes the plain drive: the new state and the emitted names are PlainDrive's from the first name |
| InstagramBot.Bot.LikeMedias | src/main/kotlin/bot/InstagramBot.kt:917-945 | the state and the emitted ids are those of the quota drive on "likes", and the ids are a subsequence of the media ids |
| InstagramBot.Bot.FollowUsers | src/main/kotlin/bot/InstagramBot.kt:1304-1317 | the state and the emitted names are those of the quota drive on "follows", and the names are a subsequence of the input |
| InstagramBot.Bot.UnfollowUsers | src/main/kotlin/bot/InstagramBot.kt:1404-1417 | the state and the emitted names are those of the quota drive on "unfollows", and the names are a subsequence of the input |
| InstagramBot.PlainDrive | src/main/kotlin/bot/InstagramBot.kt:2119-2141 | a plain drive keeps the tracked actions and stops at an index inside the list |
| InstagramBot.BlockDrivePrefix | src/main/kotlin/bot/InstagramBot.kt:2119-2128 | blockUsers emits exactly the names before the first failure |
| InstagramBot.UnblockDriveAll | src/main/kotlin/bot/InstagramBot.kt:2133-2141 | unblockUsers goes through every name and emits a subsequence of them |
| InstagramBot.Bot.BlockUsers | src/main/kotlin/bot/InstagramBot.kt:2119-2128 | the state and the emitted names are those of the stopping plain drive on "blocks", and the names are a prefix of the input |
| InstagramBot.Bot.UnblockUsers | src/main/kotlin/bot/InstagramBot.kt:2133-2141 | the state and the emitted names are those of the plain drive on "unblocks", and the names are a subsequence of the input |
| InstagramBot.FreshSpec | src/main/kotlin/bot/InstagramBot.kt:1214-1218 | the filter of one reel throws exactly when a taken_at is missing; otherwise it keeps, in their order, exactly the stories taken after the reel was seen, each as many times as the reel holds it, and drops every other story |
| InstagramBot.UnseenReadable | src/main/kotlin/bot/InstagramBot.kt:1212-1219 | the unseen filter throws exactly when some `seen` or `taken_at` cannot be read |
| InstagramBot.UnseenSpec | src/main/kotlin/bot/InstagramBot.kt:1211-1219 | the unseen stories are a subsequence of the reels' stories in reel order; each story occurs as often as it occurs in reels that were seen before it was taken, and no other story occurs |
| InstagramBot.CollectUnseen | src/main/kotlin/bot/InstagramBot.kt:1211-1219 | the nested loops compute the unseen filter |
| InstagramBot.Bot.WatchUsersStories | src/main/kotlin/bot/InstagramBot.kt:1210-1224 | a failed read throws with the governor and the api's request, session counters, last reply and disk (`Wire`) unchanged; otherwise stories_viewed grows by the number of unseen stories and nothing else in the governor changes; a report that cannot be built throws its exception with the api's `Wire` unchanged; otherwise it posts the watch payload of the unseen stories to the v2 media/seen URL, and the result is the verdict of send (LoginException when logged out) |
| InstagramBot.EmitMediaOrAd | src/main/kotlin/bot/InstagramBot.kt:590-613 | a timeline item is emitted and counted exactly when it has a media_or_ad |
| InstagramBot.EmitCommenter | src/main/kotlin/bot/InstagramBot.kt:724-746 | a comment is emitted and counted exactly when it has a user |
| InstagramBot.GetTimelineMedias | src/main/kotlin/bot/InstagramBot.kt:590-613 | the loop is the pagination run; it emits a prefix of what the items of the pages emit in page order, at most max(amount, 1) values, each from an item of a page it requested; it ends on the amount, on a page saying there is no more, or on a missing cursor; when every page continues it emits exactly min(max(amount, 1), M) values, M being the items with a media_or_ad, and ends by the amount exactly when M reaches max(amount, 1); those are the media_or_ad values of the first items that have one |
| InstagramBot.GetMediaComments | src/main/kotlin/bot/InstagramBot.kt:699-719 | the loop is the pagination run; it emits a prefix of what the items of the pages emit in page order, at most max(amount, 1) values, each from an item of a page it requested; it ends on the amount, on a page saying there is no more, or on a missing cursor; when every page continues it emits exactly min(max(amount, 1), M) values, M being the number of comments, and ends by the amount exactly when M reaches max(amount, 1); each request carries the cursor read from the previous page |
| InstagramBot.GetMediaCommenter | src/main/kotlin/bot/InstagramBot.kt:724-746 | the loop is the pagination run; it emits a prefix of what the items of the pages emit in page order, at most max(amount, 1) values, each from an item of a page it requested; it ends on the amount, on a page saying there is no more, or on a missing cursor; when every page continues it emits exactly min(max(amount, 1), M) values, M being the comments with a user, and ends by the amount exactly when M reaches max(amount, 1); those are the users of the first comments that have one |
| InstagramBot.FeedRepeatsCursor | src/main/kotlin/bot/InstagramBot.kt:740-741 | a page with more to come but no next_max_id makes the bot request the same cursor again |
| InstagramBot.CommenterSkipsUserless | src/main/kotlin/bot/InstagramBot.kt:731-737 | getMediaCommenter neither emits nor counts a userless comment, while getTotalHashTagUsers counts it |
| InstagramBot.ConvertToUserId | src/main/kotlin/bot/InstagramBot.kt:174-178 | a value that parses as a Long is returned unchanged; anything else is looked up with every '@' removed |
| InstagramBot.ConvertIdempotent | src/main/kotlin/bot/InstagramBot.kt:174-178 | converting twice is converting once when the lookup returns numeric ids |
| MediaLink.CharThenDigit | src/main/kotlin/bot/InstagramBot.kt:787-796 | a character found for a digit maps back to that digit |
| MediaLink.DigitThenChar | src/main/kotlin/bot/InstagramBot.kt:787-796 | a character with a digit is the character found for that digit |
| MediaLink.CharDefined | src/main/kotlin/bot/InstagramBot.kt:808-824 | as written, only digit 62 has no character; the corrected alphabet has one for every digit |
| MediaLink.EncodeSpellsDigits | src/main/kotlin/bot/InstagramBot.kt:819-826 | the encoding exists exactly when every base-64 digit has a character, and then spells those digits, most significant first |
| MediaLink.AsWrittenEncodes | src/main/kotlin/bot/InstagramBot.kt:808-826 | as written, an id has a link exactly when none of its base-64 digits is 62 |
| MediaLink.CorrectedEncodesAll | src/main/kotlin/bot/InstagramBot.kt:808-826 | with the corrected alphabet every id has a link |
| MediaLink.LinkFromMediaId | src/main/kotlin/bot/InstagramBot.kt:807-827 | a non-numeric id throws NumberFormatException, an id with an unencodable digit throws NoSuchElementException, and a link starts with the link prefix and ends with '/' |
| MediaLink.GetLinkFromMediaId | src/main/kotlin/bot/InstagramBot.kt:807-827 | the digit loop computes LinkFromMediaId |
| MediaLink.Decode | src/main/kotlin/bot/InstagramBot.kt:786-800 | the decoded value stays in the Long range, wrapping around as Kotlin's Long does |
| MediaLink.DecodeEncode | src/main/kotlin/bot/InstagramBot.kt:786-826 | decoding the encoding of a non-negative Long gives it back |
| MediaLink.ShortcodeOf | src/main/kotlin/bot/InstagramBot.kt:798-799 | subList throws exactly when the index after "p" is beyond the last segment |
| MediaLink.MediaIdFromLink | src/main/kotlin/bot/InstagramBot.kt:781-802 | a link without "instagram.com/p/" gives null, and any id returned is a decimal Long |
| MediaLink.ReadShortcode | src/main/kotlin/bot/InstagramBot.kt:800 | the character loop computes Decode |
| MediaLink.GetMediaIdFromLink | src/main/kotlin/bot/InstagramBot.kt:781-802 | the method computes MediaIdFromLink |
| MediaLink.ReadLink | src/main/kotlin/bot/InstagramBot.kt:781-802 | a link built from a slash-free code reads back the decoded code, or throws NoSuchElementException on a character outside the alphabet |
| MediaLink.RoundTrip | src/main/kotlin/bot/InstagramBot.kt:781-827 | an id that has a link reads back from that link |
| MediaLink.RoundTripCorrected | src/main/kotlin/bot/InstagramBot.kt:781-827 | with the corrected alphabet, every non-negative Long round-trips through its link |
| MediaLink.AsWrittenHasNoLink | src/main/kotlin/bot/InstagramBot.kt:816 | as written, id 62 has no link |
| MediaLink.AsWrittenMisreads | src/main/kotlin/bot/InstagramBot.kt:795 | as written, the shortcode "-" reads as 63, while the corrected alphabet reads it as 62 |
| Pagination.NextCursor | src/main/kotlin/api/InstagramAPI.kt:1007-1009 | the next cursor throws exactly for a required string that is missing or not a string, and a string-or-keep read keeps the old cursor when none is given |
| Pagination.Paginate | src/main/kotlin/api/InstagramAPI.kt:960-1010 | the request loop with its element loop computes the run of the specification function |
| Pagination.OutGrows | src/main/kotlin/api/InstagramAPI.kt:1041-1065 | a loop only ever appends to what it has emitted |
| Pagination.LimitPrefix | src/main/kotlin/api/InstagramAPI.kt:1046-1051 | a smaller amount emits a prefix of what a larger amount emits |
| Pagination.RunBounded | src/main/kotlin/api/InstagramAPI.kt:1046-1051 | a loop emits at most max(amount, 1) elements |
| Pagination.StartBounded | src/main/kotlin/api/InstagramAPI.kt:1046-1051 | from the start, a loop emits at most max(amount, 1) elements, and a smaller amount emits a prefix |
| Pagination.NonPositiveAmountEmitsOne | src/main/kotlin/api/InstagramAPI.kt:1046-1051 | an amount of 0 or less still emits the first element, because the counter is checked after the emit |
| Pagination.RunProduced | src/main/kotlin/api/InstagramAPI.kt:967-978 | everything emitted is the visit of an element of a page the run requested |
| Pagination.StartProduced | src/main/kotlin/api/InstagramAPI.kt:967-978 | everything a whole loop emits is the visit of an element of a page it requested |
| Pagination.RunTakePrefix | src/main/kotlin/api/InstagramAPI.kt:960-1010 | from any point, a run emits a prefix of what the remaining elements emit up to the one that brings the counter to max(amount, 1) |
| Pagination.RunTakeExact | src/main/kotlin/api/InstagramAPI.kt:960-1010 | on pages that all continue, with elements that never throw, a run emits exactly that |
| Pagination.RunEndsExact | src/main/kotlin/api/InstagramAPI.kt:960-1010 | on pages that all continue, with elements that never throw, a run ends by the counter exactly when the remaining elements count up to max(amount, 1), and otherwise uses up the pages |
| Pagination.StartTake | src/main/kotlin/api/InstagramAPI.kt:960-1010 | a whole loop emits a prefix of what the elements emit in page order (ranked_items before items); with continuing pages and no throw, exactly the values of the elements up to the counter's limit, ending by the counter exactly when there are enough |
| Pagination.TakeCountedCounts | src/main/kotlin/api/InstagramAPI.kt:1046-1051 | the elements up to the counter's limit count min(limit, M) |
| Pagination.TakeCountedPrefix | src/main/kotlin/api/InstagramAPI.kt:1046-1051 | those elements, and what they emit, are prefixes of all of them and of what all emit |
| Pagination.EmitsCounted | src/main/kotlin/api/InstagramAPI.kt:1046-1051 | when every counted element emits, as many values are emitted as elements counted |
| Pagination.AllCounted | src/main/kotlin/api/InstagramAPI.kt:1046-1051 | when every element counts, the count is the length and the elements up to a limit n are the first n |
| Pagination.StartCount | src/main/kotlin/api/InstagramAPI.kt:1041-1065 | with continuing pages, no throw, and a value for every counted element, a loop emits exactly min(max(amount, 1), M) values |
| Pagination.RunStops | src/main/kotlin/api/InstagramAPI.kt:960-1010 | from any point, a run ends for a reason read off the last page requested |
| Pagination.StartStops | src/main/kotlin/api/InstagramAPI.kt:960-1010 | a loop uses up the pages exactly when it requested all of them; it finishes on a page not walked, a page saying there is no more, or max(amount, 1) counted elements; it throws on an unreadable cursor or an element that throws |
| Pagination.StartFacts | src/main/kotlin/api/InstagramAPI.kt:960-1010 | every loop emits at most max(amount, 1) values, a prefix of what the elements emit in order, each from a requested page, and ends for a reason StopsFor names |
| Pagination.StartAllCounted | src/main/kotlin/api/InstagramAPI.kt:1102-1136 | a loop counting every element, on continuing pages, emits what the first min(max(amount, 1), N) elements emit, and ends by the counter exactly when N reaches max(amount, 1) |
| Pagination.EveryBodyCounted | src/main/kotlin/api/InstagramAPI.kt:1041-1065 | the media loops, on continuing pages, emit exactly min(max(amount, 1), N) items and end by the amount exactly when N reaches it |
| Pagination.RunCursors | src/main/kotlin/api/InstagramAPI.kt:1007-1009 | each request's cursor is read from the previous page; an exhausted run has sent one request per page |
| Pagination.StartCursors | src/main/kotlin/api/InstagramAPI.kt:1007-1009 | from the start, the cursors follow the pages |
| Pagination.ExhaustedWalkedAll | src/main/kotlin/api/InstagramAPI.kt:1041-1065 | a run that runs out of pages walked every page, and none said there was no more |
| Pagination.CountedSilently | src/main/kotlin/api/InstagramAPI.kt:1109-1115 | elements that are counted without being emitted can end a loop with nothing emitted |
| Pagination.FollowLoop | src/main/kotlin/api/InstagramAPI.kt:960-1010 | the follower loop ignores the fetch result, tolerates a missing users array, and reads the cursor as a String for followers and an Int for followings |
| Pagination.EmitBody | src/main/kotlin/api/InstagramAPI.kt:1046-1048 | a plain feed emits and counts every item |
| Pagination.EmitUser | src/main/kotlin/api/InstagramAPI.kt:1109-1115 | the hashtag-users loop counts every item and emits its user when there is one |
| Pagination.FollowerVisit | src/main/kotlin/api/InstagramAPI.kt:967-978 | private or verified users are skipped when filtered; a missing key throws; an emitted key is never that of a filtered user |
| Pagination.FollowPreamble | src/main/kotlin/api/InstagramAPI.kt:923-955 | a missing or private user ends at once; the total is the smaller of the amount and the user's count, and an existing file without overwrite ends the flow |
| Pagination.GetTotalFollowersOrFollowings | src/main/kotlin/api/InstagramAPI.kt:908-1011 | the flow ends, throws, or runs the follower loop up to the total: a prefix of what the users of the pages emit, in order, at most max(total, 1) keys, each from a user of a requested page; it stops on the total, on big_list false, on an unreadable cursor or a missing key; when every page continues and no key is missing it emits exactly min(max(total, 1), M) keys, M being the users it counts, and ends by the total exactly when M reaches it |
| Pagination.FilteredNeverEmitted | src/main/kotlin/api/InstagramAPI.kt:969-971 | with filtering on, every emitted key comes from a user that is not private |
| Pagination.CursorTypeMismatch | src/main/kotlin/api/InstagramAPI.kt:1007-1009 | a string cursor read as an Int, or a number read as a String, becomes "null" |
| Pagination.GetLastUserFeed | src/main/kotlin/api/InstagramAPI.kt:1037-1066 | a prefix of the items of the pages in page order, at most max(amount, 1); each from a page the loop requested; it stops on the amount, on more_available false or on a missing page; when every page continues it emits exactly min(max(amount, 1), N) items, N being the number of items the pages hold, and ends by the amount exactly when N reaches max(amount, 1); an exhausted run saw every page fetched with items |
| Pagination.HashTagRankedFirst | src/main/kotlin/api/InstagramAPI.kt:1074-1081 | a hashtag page is walked ranked_items first, then items |
| Pagination.GetTotalHashTagMedia | src/main/kotlin/api/InstagramAPI.kt:1068-1100 | a prefix of the ranked_items then items of the pages in page order, at most max(amount, 1); each from a page the loop requested; it stops on the amount, on more_available false or on a missing page; when every page continues it emits exactly min(max(amount, 1), N) items, N being the number of items the pages hold, and ends by the amount exactly when N reaches max(amount, 1) |
| Pagination.GetTotalHashTagUsers | src/main/kotlin/api/InstagramAPI.kt:1102-1136 | every item counts: when every page continues, the loop emits the users of the first min(max(amount, 1), N) items of the pages, in order, and ends by the amount exactly when N reaches max(amount, 1); in any case a prefix of the users of the pages, at most max(amount, 1), each from a requested page, stopping on the amount, more_available false or a missing page |
| Pagination.HashTagUsersCountUserless | src/main/kotlin/api/InstagramAPI.kt:1109-1115 | userless items use up the amount and can end the flow with nothing emitted |
| Pagination.GetTotalLikedMedia | src/main/kotlin/api/InstagramAPI.kt:1138-1162 | a prefix of the items of the pages in page order, at most max(amount, 1); each from a page the loop requested; it stops on the amount, on more_available false or on a missing page; when every page continues it emits exactly min(max(amount, 1), N) items, N being the number of items the pages hold, and ends by the amount exactly when N reaches max(amount, 1); the cursors follow next_max_id, which is required |
| InstagramApi.CookieText | src/main/kotlin/api/InstagramAPI.kt:57-59 | a missing cookie reads as the text "null" |
| InstagramApi.InstagramApi.constructor | src/main/kotlin/api/InstagramAPI.kt:28-41 | the singleton starts logged out with the default ids, no cookies and no requests |
| InstagramApi.InstagramApi.Prepare | src/main/kotlin/api/InstagramAPI.kt:45-64 | a new device id and UUID; a saved record whose status is "ok" restores the login, the cookie jar, the user id, the token and the rank token; anything else leaves the login state alone; a short MD5 text throws StringIndexOutOfBoundsException; a session file load cannot read throws load's exception |
| InstagramApi.InstagramApi.RestoreLogin | src/main/kotlin/api/InstagramAPI.kt:49-63 | a saved "ok" status restores the session from its jar; otherwise nothing changes; a session file load cannot read throws load's exception |
| InstagramApi.InstagramApi.LoadSaved | src/main/kotlin/api/InstagramAPI.kt:50 | load reads back the record saved under the user's name, or throws what load throws |
| InstagramApi.InstagramApi.SaveSuccessfulLogin | src/main/kotlin/api/InstagramAPI.kt:154-167 | the response is saved under the user's name before its status is read; an "ok" status logs in with the response's cookies; an unreadable status throws |
| InstagramApi.InstagramApi.Login | src/main/kotlin/api/InstagramAPI.kt:131-152 | a logged-in session without force returns false and sends nothing; otherwise one login request goes out with the login form, a refused one exits, and an accepted one saves the session |
| InstagramApi.InstagramApi.Logout | src/main/kotlin/api/InstagramAPI.kt:297-304 | logged out, the request throws; a successful logout deletes the session file |
| InstagramApi.InstagramApi.Dispatch | src/main/kotlin/api/Request.kt:22-79 | prepare then send: the request's URL and payload, and either the login refusal or the effects of send |
| InstagramApi.InstagramApi.SolveChallenge | src/main/kotlin/api/InstagramAPI.kt:220-248 | an empty api_path throws NegativeArraySizeException before any request; after the step request, a menu that throws (a phone or email offered, read under the "$." key) throws JSONException with one request counted; a "y" to the empty menu's password question with no password line throws NullPointerException after that one request; otherwise success exactly when the choice is accepted and the final reply is close/ok, with one or two more requests (refused or accepted choice) on top of MenuRequests: the step request, plus the password change when "y" was answered |
| InstagramApi.InstagramApi.ChallengeMenu | src/main/kotlin/api/InstagramAPI.kt:251-294 | after the counted step request, the menu of its reply; JSONException when building it throws; on an empty menu a "y" changes the password (one more counted request) or, with no password line, throws NullPointerException; the count is MenuRequests |
| InstagramApi.InstagramApi.ChangePassword | src/main/kotlin/api/InstagramAPI.kt:1164-1171 | posts the stored and the new password to the route, counted and sent even when logged out, with the verdict of send and the next lastJSON |
| InstagramApi.InstagramApi.WatchReels | src/main/kotlin/api/InstagramAPI.kt:1281-1308 | the seen report is timed by the millisecond clock as written; a story without taken_at, id or pk throws JSONException and a non-numeric taken_at NumberFormatException, both before any request, with the request, the session's counters and last reply and the disk all unchanged (`Wire`); otherwise the report is posted to the v2 URL and the result is that of send |
| InstagramApi.ArchiveAction | src/main/kotlin/api/InstagramAPI.kt:466 | the action is "undo_only_me" exactly when undoing |
| InstagramApi.InstagramApi.ArchiveMedia | src/main/kotlin/api/InstagramAPI.kt:465-480 | the archive form goes to the route for the media, its action and type |
| InstagramApi.FormMapHasKeys | src/main/kotlin/api/InstagramAPI.kt:1460-1466 | every payload key is in the posted form |
| InstagramApi.FormMapOnlyKeys | src/main/kotlin/api/InstagramAPI.kt:1460-1466 | the posted form has no other keys |
| InstagramApi.FormMapLastWins | src/main/kotlin/api/InstagramAPI.kt:1403-1455 | a key put last holds the value put last |
| InstagramApi.InstagramApi.PostForm | src/main/kotlin/api/InstagramAPI.kt:1457-1477 | the unsigned post carries the headers with the item's header added, the form and the cookies; lastJSON changes only on 200 |
| InstagramApi.InstagramApi.SendDirectItem | src/main/kotlin/api/InstagramAPI.kt:1397-1478 | logged out it throws; a non-numeric media_type throws; otherwise the form is posted to the item or photo route and the result is whether the status is 200; totalRequests is not counted |
| Direct.FormText | src/main/kotlin/api/InstagramAPI.kt:1459 | the payload text is a map's toString, starting with '{' |
| Direct.ItemKeeps | src/main/kotlin/api/InstagramAPI.kt:1422-1455 | the item branch changes no key outside its own |
| Direct.BaseFields | src/main/kotlin/api/InstagramAPI.kt:1403-1410 | the base payload has the recipients in double brackets, the send_item action and the token, and no thread |
| Direct.CommonFields | src/main/kotlin/api/InstagramAPI.kt:1403-1420 | every payload keeps the recipients, the action and the token, and has thread_ids exactly when a non-empty threadId is given |
| Direct.TextMessage | src/main/kotlin/api/InstagramAPI.kt:1416-1423 | a text item is never a photo, has no extra header, and carries the text option or "" |
| Direct.PhotoMessage | src/main/kotlin/api/InstagramAPI.kt:1439-1454 | a photo item with a file path carries the upload id (milliseconds times 1000) and the encoded file, with the multipart header |
| Direct.PayloadThrows | src/main/kotlin/api/InstagramAPI.kt:1427-1432 | the payload throws exactly for a media share with both options given and a non-numeric media_type |
| Challenge.ChoicesWith | src/main/kotlin/api/InstagramAPI.kt:251-294 | a menu is never empty, and the only exception is JSONException |
| Challenge.ChoicesByStep | src/main/kotlin/api/InstagramAPI.kt:251-294 | as written: the review step gives its three lines; any other step but verify-method gives only "0 - Nothing found"; the verify-method step throws JSONException exactly when it offers a phone number or an email not also stored under its "$." key, and otherwise starts with its header |
| Challenge.AsksPasswordOnEmptyMenu | src/main/kotlin/api/InstagramAPI.kt:251-294 | the password question is asked exactly when the menu is the lone "0 - Nothing found" line |
| Challenge.PhoneChoiceThrows | src/main/kotlin/api/InstagramAPI.kt:257-259 | as written, a verify-method step offering a phone number throws |
| Challenge.FixedChoicesListContacts | src/main/kotlin/api/InstagramAPI.kt:255-264 | with the checked keys, the menu lists the phone number and the email that step_data offers |
| Reels.LexTotal | src/main/kotlin/api/InstagramAPI.kt:1284 | the string order is total |
| Reels.LexTransitive | src/main/kotlin/api/InstagramAPI.kt:1284 | the string order is transitive |
| Reels.LexAntisymmetric | src/main/kotlin/api/InstagramAPI.kt:1284 | the string order is antisymmetric |
| Reels.SortIsStable | src/main/kotlin/api/InstagramAPI.kt:1284 | sortedByDescending gives a descending, stable permutation |
| Reels.SortPermutes | src/main/kotlin/api/InstagramAPI.kt:1284 | the sort is a permutation |
| Reels.SortWithKey | src/main/kotlin/api/InstagramAPI.kt:1284 | the sort keeps the order of equal keys |
| Reels.TextOrderNotNumeric | src/main/kotlin/api/InstagramAPI.kt:1284 | taken_at is sorted as text, so 9 comes before 10 |
| Reels.SeenAtBounds | src/main/kotlin/api/InstagramAPI.kt:1288-1291 | on a seconds clock, for a Long taken_at, a story is seen no earlier than taken and no later than now, at most index + 2 seconds back (the Long subtraction is wrapped as the JVM does) |
| Reels.OldestWrapsToNow | src/main/kotlin/api/InstagramAPI.kt:1288-1291 | a taken_at of Long.MIN_VALUE makes the Long subtraction now - taken_at wrap negative, so the story is reported seen exactly now |
| Reels.MillisClockOvershoots | src/main/kotlin/api/InstagramAPI.kt:1283-1291 | on the millisecond clock as written, a past story is reported seen after the present second |
| Reels.CorrectedEntrySeenAt | src/main/kotlin/api/InstagramAPI.kt:1288-1293 | on the seconds clock, an entry reads taken_at and a seen-at time between index + 2 seconds before now and now, no earlier than taken |
| Reels.CorrectedReportTimes | src/main/kotlin/api/InstagramAPI.kt:1281-1294 | a corrected report that was built files every story under its key with a seen-at time between index + 2 seconds before now and now, no earlier than taken |
| Reels.Entries | src/main/kotlin/api/InstagramAPI.kt:1287-1294 | one entry per sorted story, at its index |
| Reels.SeenReport | src/main/kotlin/api/InstagramAPI.kt:1287-1294 | the report loop computes the fold of the entries |
| Reels.ReportStaysThrown | src/main/kotlin/api/InstagramAPI.kt:1287-1294 | once a story throws, the report throws that same exception |
| Reels.ReportKeepsKey | src/main/kotlin/api/InstagramAPI.kt:1292-1293 | a key once reported stays in the report |
| Reels.ReportHasEveryEntry | src/main/kotlin/api/InstagramAPI.kt:1292-1293 | a finished report has a key for every story |
| Reels.EntryKey | src/main/kotlin/api/InstagramAPI.kt:1288-1293 | an entry is keyed by the story's id and user pk, and exists only when its taken_at reads as a Long |
| Request.Request.constructor | src/main/kotlin/api/Request.kt:15-20 | a fresh request is a GET with no cookies over the default headers |
| Request.Request.Prepare | src/main/kotlin/api/Request.kt:22-43 | the URL is the base URL and the endpoint ("null" for none); a GET exactly when the payload is empty; given headers override |
| Request.Form | src/main/kotlin/api/Request.kt:54-60 | the post form is exactly the signed body and the key version |
| Request.SignedBodySplits | src/main/kotlin/api/Request.kt:56 | the signed body splits at its first dot into the signature and the payload |
| Request.MergeCookies | src/main/kotlin/api/Request.kt:64-68 | the first response's cookies become the jar; later ones override the same names and keep the rest |
| Request.Verdict | src/main/kotlin/api/Request.kt:74-135 | 200 succeeds; only 200 or 400 can succeed; a 400 defers to two-factor, then challenge; a 400 without JSON fails |
| Request.NextLastJson | src/main/kotlin/api/Request.kt:74-93 | lastJSON is replaced by the parsed body on every status but 404 |
| Request.Request.Classify | src/main/kotlin/api/Request.kt:74-135 | the verdict, the new lastJSON, and the deletion of the user's file on 403 login_required |
| Request.Request.Send | src/main/kotlin/api/Request.kt:45-136 | logged out and not a login, it throws and changes nothing; otherwise the call (a POST signed), the merged cookies, one more request, the response, the new lastJSON, the verdict and the 403 file deletion |
| Session.Session.constructor | src/main/kotlin/api/InstagramAPI.kt:28-39 | the API's fields start at their declared defaults |
| Session.IntSucc | src/main/kotlin/api/Request.kt:70 | the request counter adds one with Int wrap-around |
| Crypto.SignData | src/main/kotlin/util/Crypto.kt:13-21 | the signature carries the payload and the key versions, and its text is the HMAC in hex (empty when HMAC fails) |
| Crypto.GenerateHmac | src/main/kotlin/util/Crypto.kt:36-47 | the HMAC text is hex of at least 40 digits with the digest's value, padded with zeros only up to 40 digits (beyond 40 it starts with a non-zero digit), or empty on failure |
| Strings.HexNoLeadingZero | src/main/kotlin/util/Crypto.kt:42 | the unpadded hex text starts with '0' exactly for the value 0 |
| Crypto.GenerateDeviceId | src/main/kotlin/util/Crypto.kt:65-69 | the device id is "android-" and the first 16 hex digits of the MD5 text, and exists exactly when that text has 16 digits |
| Crypto.DeviceIdDefined | src/main/kotlin/util/Crypto.kt:24-33 | because the MD5 text drops leading zeros, the device id exists exactly when the digest is at least 16^15 |
| Crypto.GenerateUuid | src/main/kotlin/util/Crypto.kt:50-56 | with dashes the UUID is unchanged; without, it has the same characters minus every dash |
| Crypto.UuidWithoutDashes | src/main/kotlin/util/Crypto.kt:50-56 | a UUID without dashes is 32 hex digits |
| Strings.Trim | src/main/kotlin/util/CookiePersistor.kt:32 | trim leaves no leading or trailing whitespace and keeps a trimmed text |
| Strings.TrimStripsEnds | src/main/kotlin/util/CookiePersistor.kt:32 | trim gives a slice `s[i..j]` of the text, everything before `i` and from `j` on being whitespace |
| Strings.LowerIsOk | src/main/kotlin/api/InstagramAPI.kt:52 | a status is "ok" ignoring case exactly when it is o or O, then k, K or the Kelvin sign |
| CookiePersistor.EntryTexts | src/main/kotlin/util/CookiePersistor.kt:15-18 | one "name=value" text per cookie, in order |
| CookiePersistor.RecordRoundTrip | src/main/kotlin/util/CookiePersistor.kt:14-36 | reading a saved record gives the account and the entry texts back, an empty jar as one empty text |
| CookiePersistor.CookieOfEntry | src/main/kotlin/util/CookiePersistor.kt:31-34 | a cookie text of a name without '=' and a value without ';', neither padded, reads back as that name and value |
| CookiePersistor.JarOfFails | src/main/kotlin/util/CookiePersistor.kt:31-34 | reading the entry texts throws exactly when one of them has no '=' |
| CookiePersistor.JarOfEntries | src/main/kotlin/util/CookiePersistor.kt:31-34 | setting the cookies of such entry texts rebuilds the jar on those names |
| CookiePersistor.RestoreSaved | src/main/kotlin/util/CookiePersistor.kt:14-36 | load after save gives the same account and cookie jar for a non-empty jar whose fields hold no separator and no padding |
| CookiePersistor.RestoreEmptyJar | src/main/kotlin/util/CookiePersistor.kt:14-36 | an empty jar is saved as an empty cookie list, which load reads as one text without '=' and throws IllegalArgumentException on |
| CookiePersistor.CookiePersistor.constructor | src/main/kotlin/util/CookiePersistor.kt:7 | the persistor is bound to its file name and the disk |
| CookiePersistor.CookiePersistor.Exist | src/main/kotlin/util/CookiePersistor.kt:9-11 | the file exists exactly when it is on the disk |
| CookiePersistor.CookiePersistor.Save | src/main/kotlin/util/CookiePersistor.kt:14-23 | the file holds the record of the account and the jar's entries, in some enumeration of the jar; no other file changes |
| CookiePersistor.CookiePersistor.Load | src/main/kotlin/util/CookiePersistor.kt:26-36 | load reads the record back, or throws FileNotFoundException for a missing file, IndexOutOfBoundsException for a short split, IllegalArgumentException for an entry without '=' |
| CookiePersistor.CookiePersistor.Destroy | src/main/kotlin/util/CookiePersistor.kt:39-43 | the file is gone afterwards and no other file changes |

## Left out

- HTTP, JSON parsing, MD5 and HMAC: the server's response, the parsed reply and the digests are inputs.
- Sleeps, delays and console output are not modelled; they change no modelled state.
- The clock, `Random` and the random UUID text are inputs.
- The interactive prompts are inputs: the choice and the code read by `solveChallenge`, and the answer and new password of the password-change dialogue of `getChallengeChoices`.
- `performTwoFactorAuth` and `solveChallenge` are not re-entered from `send`: `send` takes their boolean results as inputs.
- `preLoginFlow` and `postLoginFlow` are not modelled: their requests go through `send` like any other, so they count, merge cookies, overwrite `lastJSON` and can delete the session file or enter a challenge, but the model sends none of them.
- InstagramApi.InstagramApi.Login: the five counted `send(true)` requests of `preLoginFlow` (`InstagramAPI.kt:66-73`) are not modelled, so `totalRequests` grows by one instead of six, the login request carries no cookies merged by them, `lastJSON` is not overwritten by them, and neither their 403 session-file deletion nor their 400 challenge is modelled; and after a 400 accepted by two-factor or by the challenge, the source saves `lastResponse`, the last response of that flow, while the model saves the login response `x.response`.
- The body of every other API endpoint (like, follow, comment and so on) is left out: the bot sees only their reply or their boolean.
- Pages beyond the given sequence end a loop; the source would keep requesting.
- `isMediaCommented` is an input flag, and `api.username` is the bot's `username` field.
- `getUsersStories`, and the user-id lookups inside `watchUsersStories`, are left out: the reels they return are the input.
- The photo file read in `sendDirectItem` is the function `base64Of`.
- `unlikeMedias` and the convenience wrappers around the drivers (`likeTimelineMedias`, `followUserFollowers`, …) are not modelled; they only feed a list to a modelled driver.
- `generateTemporaryGUID` and the other API endpoints are not part of this model.
- Request.Request.Prepare: does not add the four random X-IG bandwidth headers, so its `headers` ensures omits them.
- Request.Request.Prepare: drops `extraSig`, because the source puts it into a map that is always null.
- InstagramBot.React: totals are unbounded integers; Kotlin `Int` overflow of a counter after 2^31 - 1 actions is not modelled.
- InstagramBot.Plain: totals are unbounded integers; overflow is not modelled.
- InstagramBot.Bot.WatchUsersStories: totals are unbounded integers; overflow is not modelled.
- A `read<T>` whose value has the wrong type is modelled as absent (null).
- JSON payload texts: field order and escaping are not modelled. org.json's `JSONObject` is backed by a hash map and escapes quotes and control characters, while `Render` writes the fields in insertion order without escaping, so the payloads in the contracts of `Login`, `WatchReels`, `ArchiveMedia` and `SolveChallenge` name the fields and values the source sends, not its exact bytes.
- Strings.LowerChar: lower-cases the ASCII letters and the Kelvin sign only; Java's `toLowerCase` maps other non-ASCII letters too, none of which lower-cases to 'o' or 'k', so `IsOk` is unaffected.
- Strings.ParseBounded: accepts ASCII digits only; Java's `Long.parseLong` and `Integer.parseInt` also accept other Unicode decimal digits (such as Arabic-Indic ones), which the model rejects with NumberFormatException.
- Strings.Trim: removes ASCII whitespace only; Kotlin's `trim` also removes Unicode spaces such as U+00A0.
- Strings: a `string` is a sequence of Unicode scalar values, so lengths and indices count scalars where the JVM counts UTF-16 code units; a character outside the Basic Multilingual Plane is one element here and two in the source.
- Direct.PhotoMessage: the upload id `System.currentTimeMillis() * 1000` is an unbounded product; its Kotlin `Long` wrap-around, reached only for clocks above about 9.2 × 10^15 ms, is not modelled.
- CookiePersistor.CookieOf: khttp's `Cookie(String)` is not part of this model; the parse splits at the first '=', trims the name and value, keeps the value up to the first ';' and throws IllegalArgumentException without an '='; the attributes after ';' are dropped.
- MediaLink.ShortcodeOf: the `subList` exception is modelled, but the model does not show which links reach it.
- Pagination.GetTotalFollowersOrFollowings: the result file is not written; its existence is an input.
- InstagramApi.InstagramApi.SendDirectItem: the post's `allowRedirects` is not modelled.

## Findings

| source | as written | input that shows it | evidently intended | confidence | as-written member | corrected member |
|---|---|---|---|---|---|---|
| src/main/kotlin/api/InstagramAPI.kt:257-263 | `has("phone_number")` is checked, then `get("$.phone_number")` is read; org.json's `get` takes the key literally and throws JSONException, so `solveChallenge` throws after its first request (`SolveChallenge` models this) | a `select_verify_method` step whose step_data has `phone_number` and no `$.phone_number` key | list the phone number (and the email) that step_data offers | high, not executed | Challenge.PhoneChoiceThrows | Challenge.FixedChoicesListContacts |
| src/main/kotlin/api/InstagramAPI.kt:1283-1291 | `currentTime` is `System.currentTimeMillis()` while `taken_at` is in seconds, so seen-at is `now_ms - (index + 1 + jitter)`; `WatchReport` and `WatchReels` model this clock, `WatchReportCorrected` the seconds clock | any story taken in the past, with a clock reading of at least 1000 × (index + 2) ms | a seen-at time in seconds, between the story's time and now | medium, not executed | Reels.MillisClockOvershoots | Reels.CorrectedReportTimes |
| src/main/kotlin/bot/InstagramBot.kt:795 | the alphabet maps `'-'` to 62 and then to 63, the later key winning; no character has 62 | id 62 has no link (NoSuchElementException); the shortcode `-` reads as 63 | Instagram's base-64 alphabet with `'-'` at 62 and `'_'` at 63, so every id round-trips | high, not executed | MediaLink.AsWrittenMisreads | MediaLink.RoundTripCorrected |
