# Order validation and routing engine, modelled in Dafny

`automation_order.py` takes the orders scraped from a storefront's admin console and walks them through four stages:

1. It works out each order's service number from a catalogue sheet.
2. It checks the order's link against the platform the service is for (Instagram, YouTube, TikTok, Twitter). It does this by pattern tests on the link and, for Instagram and YouTube, by asking remote scraping actors whether the profile, post, channel or video exists.
3. It submits the orders that passed to a fulfilment service and records them on an order sheet.
4. It records the rest on a manual-review sheet, once per market order number that the sheet did not already list when the batch began.

This project models that core and proves properties of the model:

- **Link grammar.** The predicates and username/id extractors of the four validator classes (`youtube.dfy`, `instagram.dfy`, `tiktok.dfy`, `twitter.dfy`). Each regex `prefix[\w-]+` is modelled as "the prefix occurs, followed by one word-or-hyphen character", found at its leftmost position.
- **Probe interpretation.** The actors are an oracle: a function from the call's position in the run and its request to a dataset or a client failure (`apify.dfy`). `ActorClient` records every call, so "no probe was made" is a statement about its log.
- **Detail parsing and catalogue lookup** (`services.dfy`): `get_od_info`, `get_service_number`, and the lookup by number the router does.
- **The six per-order protocols** (`protocols.dfy` as value-level effects, `validation.dfy` as methods on the `Order` object, proved equal to the effects).
- **The router `check_order_url`** (`router.dfy`): a loop over the orders, proved against a run of the per-order routing function.
- **Fulfilment.** `process_order`, `add_order_sheet`, `add_manual_order` and `add_manual_order_sheet` (`ledger.dfy`). The fulfilment service is a second oracle and each sheet is a `Worksheet` object whose rows the methods append to.
- **Shared pieces.** Python's `split`, `strip`, `find`, `int()`, `str()`, `.lower()` (`text.dfy`). Dynamic values, truthiness, `dict.get` and `max` with a key (`values.dfy`). The order record (`orders.dfy`). Folds over a batch loop (`runs.dfy`).

The order record is a class whose constant fields are the scraped ones. Its mutable fields are the four the engine updates in place: `order_edit_link`, `validate_url`, `note` and `store_order_num`. Each loop is proved against a pure run: the state of every order, the calls to the actors or to the fulfilment service, the rows appended and the lists returned are all functions of the initial states and the oracle's answers.

Some source behaviour is kept as written, because the code does it:

- A YouTube `watch?v=` link on a subscriber order is never resolved to its channel. `_extract_channel_id` finds no channel pattern, so `validate_channel` returns `[False, []]` without a probe. Only `youtu.be` links get the channel-resolution probe (`WatchLinkNotResolved`, `ShortLinkResolved`).
- A tagged Instagram handle `@name` given without the domain gets `order_edit_link` `name`, but the profile actor is asked for `@name` (`TagHandleProbedWithAt`).
- A tagged link whose username cannot be extracted raises at `.replace`, so the order is appended to neither list (`UnextractableTagRaises`).
- Username extraction is not idempotent in general. For example, `instagram.com/instagram.com?` yields `instagram.com`. Nothing beyond "a string without the domain is returned unchanged" is claimed.
- TikTok's `split('@')[1]` also stops at a second `@` (`ExtractedHandle`).
- `get_od_info` takes the text between the first and the second `' : '` of a line, not everything after the first.
- `max` over an empty list, or over a list with no video posts, raises. So the `else` branch at line 577 is unreachable and such orders take the exception path (`NoCandidateNoUrl`).
- The call at line 704 is not awaited. Indexing the coroutine raises, so a channel link on a video order always ends on the exception path (`YoutubeVideoEffect`).
- A client failure in Instagram `validate_post` makes its handler read the unbound `items`. The exception escapes and the order is dropped (`PostVerdict`).
- The scraper skips only service number 0. The miss value -1 reaches the router as `"-1"` and goes to the manual list with no probe (`MissingServiceKept`, `UnknownServiceIsManual`).
- A fulfilment reply that is a dict but no order, such as `{"error": ...}`, is counted as placed. Its sheet row carries the store number `None` and the status `배송중` (`ErrorReplyCounts`).

One quirk is not kept. `add_manual_order` is handed the manual-review `Worksheet` object (line 1422) and passes it to `get_sheet_data` (line 1333), whose `get_worksheet` looks a sheet up by its title (line 875). With a lookup by title, as gspread's `worksheet` does, that call would fail every time, outside the `try` of line 1334 and before the dedupe runs. The model reads the rows of the worksheet it is given instead (see `Ledger.AddManualOrder` under "Left out").

Some readings of the code that are easy to make are wrong, and the model follows the code instead:

- "A subscriber order on a watch link has its channel resolved": it does not, see above.
- "`@jane.doe` is stripped before probing": the probe is sent `@jane.doe`.
- "Username extraction is idempotent": not in general.
- "Probe errors never propagate": the Instagram post probe's errors do.
- "A service number of -1 is never scraped": only 0 is skipped; -1 is skipped by the router's lookup, which sends the order to manual review.

## Model

| member | source | states |
|---|---|---|
| Text.ParseIntToStr | automation_order.py:1066-1071 | the number written by `str(service)` is read back unchanged by the router's `int()` |
| Text.Strip | automation_order.py:994-998 | `.strip()` removes exactly a leading and a trailing run of whitespace and leaves no whitespace at either end |
| Text.StripIdempotent | automation_order.py:101 | stripping twice is stripping once |
| Text.Split | automation_order.py:992 | `split` gives one piece exactly when the separator does not occur |
| Text.SplitJoin | automation_order.py:992 | joining the pieces of a `split` with the separator gives back the string |
| Text.Lower | automation_order.py:101 | `.lower()` keeps the length and lowers each character |
| Text.ParseInt | automation_order.py:1265 | `int()` of blank text fails, of digits (surrounding whitespace allowed) gives their value, and succeeds only on text holding a digit; `ParseIntToStr` proves it reads back every `str(n)` |
| Values.Get | automation_order.py:182 | `dict.get` gives the value at the key, or `None` when the key is absent |
| Values.Truthy | automation_order.py:182 | a value is falsy exactly when it is `None`, `False`, `0`, `''`, `[]` or `{}`, as in the `not ...get('error')` tests |
| Values.Greater | automation_order.py:572 | `a > b` is defined exactly for two numbers or two strings |
| Values.GreaterOrder | automation_order.py:572 | the key comparison is a strict order: transitive, asymmetric, irreflexive and total up to equal rank |
| Values.MaxIndex | automation_order.py:570-573 | `max(..., key=...)` gives no element for an empty list and otherwise, when it returns, an index into the list; `MaxIndexIsFirstMaximum` and `MaxIndexDefined` give which one and when |
| Values.MaxIndexIsFirstMaximum | automation_order.py:570-573 | the element `max` returns has no greater key, and every earlier element's key is smaller (the first maximum wins) |
| Values.MaxIndexDefined | automation_order.py:654 | `max` returns exactly when the list is non-empty and every key compares with the first |
| Orders.Order.constructor | automation_order.py:1110-1123 | a scraped order starts with edit link -1, store number `{'order': -1}`, an empty note and verdict -1 |
| Apify.ActorClient.Call | automation_order.py:168-177 | an actor call appends its request to the log and returns the oracle's answer for that position |
| Youtube.SearchFrom | automation_order.py:123 | `re.search` finds the leftmost position where the pattern matches, or none |
| Youtube.IsVideoLink | automation_order.py:121-123 | `_is_video_link`: some video pattern (`watch?v=`, `youtu.be/`, `embed/`, `v/`, each followed by a `[\w-]` character) matches; every comment link is one (`CommentLinkIsVideoLink`) |
| Youtube.IsChannelLink | automation_order.py:125-127 | `_is_channel_link`: some channel pattern (`channel/`, `c/`, `@`) matches; every channel link contains `youtube.com` (`ChannelLinkHasDomain`) |
| Youtube.IsCommentLink | automation_order.py:129-131 | `_is_comment_link`: one of the two `&lc=` patterns matches, the second allowing other parameters between the id and `&lc=` (`PlainCommentIsComment`) |
| Youtube.IsValidBaseUrl | automation_order.py:117-119 | `_is_valid_base_url`: the URL holds `youtube.com` or `youtu.be` and starts with `http://` or `https://` |
| Youtube.IdRun | automation_order.py:143-145 | the capture group is the longest run of `[\w-]` characters after the prefix |
| Youtube.PlainCommentIsComment | automation_order.py:91-94 | the first comment pattern is a special case of the second |
| Youtube.CommentLinkIsVideoLink | automation_order.py:78-94 | every comment link is a video link |
| Youtube.ValidateUrl | automation_order.py:96-115 | empty input is rejected first; a trimmed, lower-cased URL without scheme or domain is rejected; otherwise ok iff it is a video or a channel link, and "video" exactly when it is a video link (video is tested first) |
| Youtube.NoSchemeIsInvalid | automation_order.py:117-119 | a URL that does not start with `http://` or `https://` is never valid |
| Youtube.FirstGroup | automation_order.py:142-145 | a group is found iff some channel pattern matches, and it is never empty |
| Youtube.ExtractChannelId | automation_order.py:133-148 | `None` for empty input, the input itself without `youtube.com`, otherwise some id iff a channel pattern matches |
| Youtube.ChannelLinkHasDomain | automation_order.py:85-89 | every channel link contains `youtube.com` |
| Youtube.ChannelIdOfChannelPath | automation_order.py:142-145 | for a `/channel/` link the id is the `[\w-]` run after the leftmost `youtube.com/channel/` |
| Youtube.ExtractVideoId | automation_order.py:150-159 | an id is extracted iff the link contains `youtube.com/watch?v=` or `youtu.be/` |
| Youtube.WatchIdPieces | automation_order.py:153-154 | a watch link has a piece after `watch?v=`, so the indexing does not raise |
| Youtube.VideoIdCut | automation_order.py:153-156 | a watch id contains no `&`, a short-link id no `?` |
| Youtube.Verdict | automation_order.py:177-187 | found iff the dataset has a first item without a `note` key and with a falsy `error`; a failure or an empty dataset gives `[False, []]` |
| Instagram.ExtractUsername | automation_order.py:358-373 | `None` for empty input and the input itself without `instagram.com`; for a link, a username iff the link contains `instagram.com/` and its path segment is neither `p` nor `reel`, and then it is that segment |
| Instagram.IsProfileCardLink | automation_order.py:346-347 | `_is_profile_card_link`: the link holds `profile_card` or `profilecard` |
| Instagram.IsPostLink | automation_order.py:349-350 | `_is_post_link`: the link holds `/p/`, `/reel/` or `/share/` |
| Instagram.IsTagUsername | automation_order.py:352-353 | `_is_tag_username`: the link holds `@` |
| Instagram.IsCommentLink | automation_order.py:355-356 | `_is_comment_link`: the link holds `/c/` |
| Instagram.ExtractUsernameOpt | automation_order.py:562 | extraction applied to a value that may already be `None` |
| Instagram.PathSegment | automation_order.py:366 | the segment after the first `instagram.com/` is its leading segment: no `/`, `?` or `instagram.com/` starts before its end, and it ends at one of them or at the end of the link |
| Instagram.ExtractedUsernameIsPathSegment | automation_order.py:366 | exactly one string is the leading segment of the text after the first `instagram.com/`, cut at `/`, `?` or the next `instagram.com/`, and it is the extracted username |
| Instagram.DomainWithoutPath | automation_order.py:365-373 | a link with the domain but no `instagram.com/` gives `None` |
| Instagram.ProfileVerdict | automation_order.py:375-403 | found iff there is a first item and its `error` is falsy |
| Instagram.PostVerdict | automation_order.py:405-436 | a client failure escapes the call; otherwise found iff the dataset is non-empty and no item has a truthy `error` |
| Instagram.Videos | automation_order.py:571 | the video filter keeps only posts whose `type` is `Video`, and no more posts than it is given |
| Instagram.VideosAppend | automation_order.py:571 | the filter keeps the input order: the videos of `a + b` are those of `a` followed by those of `b` |
| Instagram.VideoPosition | automation_order.py:571 | the `m`-th video stands at a position of the list before which exactly the first `m` videos come |
| Instagram.VideosMembers | automation_order.py:571 | the filter's output is drawn from the posts, and every video post is in it |
| Instagram.KeysOf | automation_order.py:572 | the key list holds each post's `timestamp` |
| Instagram.LatestPostIsNewest | automation_order.py:570-575 | the chosen url is that of a candidate post (a video, for reels) of `latestPosts` whose timestamp no other candidate's exceeds, and every candidate before it in `latestPosts` has a strictly smaller timestamp (on ties the first wins) |
| Instagram.NewestCandidate | automation_order.py:654 | the candidate `max` picks has no candidate with a greater timestamp |
| Instagram.NoCandidateNoUrl | automation_order.py:570-579 | with no candidate post no url is chosen, so line 577 is never reached |
| Tiktok.ExtractUsername | automation_order.py:225-237 | `None` for empty input, the input itself without `tiktok.com`, and for a link a result iff it contains `@` |
| Tiktok.ExtractedHandle | automation_order.py:234 | the handle is the text after the first `@`, cut at `@`, `/` or `?` |
| Tiktok.IsVideoLink | automation_order.py:222-223 | `_is_video_link`: the link holds `tiktok.com` and `/video/` |
| Twitter.ExtractUsername | automation_order.py:287-299 | `None` for empty input, the input itself without `twitter.com`, and for a link a result iff it contains `twitter.com/` |
| Twitter.ExtractedPathSegment | automation_order.py:295 | exactly one string is the leading segment of the text after the first `twitter.com/`, cut at `/` or the next `twitter.com/`, and it is the extracted username |
| Twitter.IsTweetLink | automation_order.py:284-285 | `_is_tweet_link`: the link holds `twitter.com` and `/status/` |
| Services.FirstEnabledMatch | automation_order.py:911-931 | the number is the code of the first enabled row matching name and option, and -1 when no row matches |
| Services.GetServiceNumber | automation_order.py:911-931 | `get_service_number` returns a number other than -1 only as the code of an enabled row matching name and option; `FirstEnabledMatch` shows it is the first such row |
| Services.DisabledRowIgnored | automation_order.py:920-924 | removing a disabled row does not change the lookup |
| Services.ScrapedServiceNum | automation_order.py:1060-1066 | an order is scraped exactly when the number is not 0, and its `service_num` reads back as that number |
| Services.MissingServiceKept | automation_order.py:1060-1071 | an order whose service is missing is still scraped, with `service_num` `"-1"` |
| Services.RowByCode | automation_order.py:1151-1159 | the router's lookup finds the first row with the number, and nothing iff no row has it |
| Services.LookupRoundTrip | automation_order.py:1060-1160 | with distinct codes, the row the router finds for a scraped order is the enabled row the scraper matched |
| Services.FieldValue | automation_order.py:994-998 | a line has a value iff it contains `' : '` |
| Services.GetOdInfo | automation_order.py:990-999 | parsing succeeds iff the needed lines contain `' : '`; a single line gives an empty option |
| Services.GetOdInfoTwoLines | automation_order.py:992-996 | two or more lines give `[url, option]`, each stripped, the option from the first line and the url from the second; later lines are ignored |
| Services.GetOdInfoOneLine | automation_order.py:997-999 | one line gives `[url, '']` |
| Protocols.ProfileCall | automation_order.py:375-403 | `validate_profile` returns bare `False` with no call iff extraction fails or is empty; otherwise it makes one call for the extracted username and reads it as `ProfileVerdict` |
| Protocols.InstagramProfileEffect | automation_order.py:586-626 | the edit link is the tag rewrite (username without `@`) where a tagged link yields a username, else the profile-card rewrite; an unextractable tag raises with no probe; a post link, or a link with no or an empty username, is rejected with no probe; otherwise the one `validate_profile` call decides: bare `False` raises, a found profile without `private` raises, accepted iff found with a falsy `private` |
| Protocols.ProfileInput | automation_order.py:560-564 | a link that is no profile card is passed to the probe unchanged |
| Protocols.InstagramReelsEffect | automation_order.py:542-583 | a post link is probed once with the post actor: raised iff the actor fails, accepted iff the post is found and its first item is a `Video`, edit link untouched; otherwise one profile call: bare `False` raises, not found rejects, a found profile with a newest video accepts with that video's url as edit link, and one without (no `latestPosts` or no video) raises |
| Protocols.InstagramPostEffect | automation_order.py:628-661 | a post link is probed once: raised iff the actor fails, accepted iff the post is found; otherwise one profile call: bare `False` raises, not found rejects, a found profile with a newest post accepts with its url as edit link, and one without (no `latestPosts`, no post, or `max` failing) raises |
| Protocols.TagHandleProbedWithAt | automation_order.py:594-612 | a handle `@name` without the domain gets edit link `name` and is probed as `@name` |
| Protocols.UnextractableTagRaises | automation_order.py:589-596 | a tagged link whose username cannot be extracted raises before any probe |
| Protocols.ChannelCall | automation_order.py:161-187 | `validate_channel` makes no call iff the channel id is falsy, else one call read as `Verdict` |
| Protocols.VideoCall | automation_order.py:189-215 | `validate_video` makes one call, read as `Verdict` |
| Protocols.YoutubeChannelEffect | automation_order.py:665-691 | never raises; a link that is neither channel nor video is rejected with no probe; a channel link is accepted iff its one `validate_channel` call finds it, edit link untouched; a video-only link whose first call fails is rejected after that call alone, otherwise its `channelUrl` becomes the edit link, is probed in turn, and decides the verdict |
| Protocols.WatchLinkNotResolved | automation_order.py:164-166 | a `youtube.com` link that is no channel link is rejected with no probe |
| Protocols.ShortLinkResolved | automation_order.py:673 | a `youtu.be` video link is first probed as a channel with the link itself |
| Protocols.YoutubeVideoEffect | automation_order.py:693-719 | raises exactly for a valid base URL that is a channel but no video link; probes once iff it is a valid video link; accepted iff that probe finds it |
| Protocols.YoutubeCommentEffect | automation_order.py:721-742 | never raises; probes once with the video actor iff the link is a comment link; accepted iff that probe finds it |
| Validation.ValidateProfile | automation_order.py:375-403 | the profile call changes the log and returns the result exactly as `ProfileCall` says |
| Validation.ValidatePost | automation_order.py:405-436 | one post-actor call, read as `PostVerdict` |
| Validation.ValidateChannel | automation_order.py:161-187 | the channel call as `ChannelCall` says |
| Validation.ValidateVideo | automation_order.py:189-215 | the video call as `VideoCall` says |
| Validation.ValidateInstagramProfile | automation_order.py:586-626 | the order and the log end as `InstagramProfileEffect` says; `raised` iff it raises |
| Validation.ValidateInstagramReels | automation_order.py:542-583 | the order and the log end as `InstagramReelsEffect` says |
| Validation.ValidateInstagramPost | automation_order.py:628-661 | the order and the log end as `InstagramPostEffect` says |
| Validation.ValidateYoutubeChannel | automation_order.py:665-691 | the order and the log end as `YoutubeChannelEffect` says |
| Validation.ValidateYoutubeVideo | automation_order.py:693-719 | the order and the log end as `YoutubeVideoEffect` says |
| Validation.ValidateYoutubeComment | automation_order.py:721-742 | the order and the log end as `YoutubeCommentEffect` says |
| Router.Classify | automation_order.py:1162-1229 | the route is chosen by the platform keywords in the order Instagram, YouTube, TikTok, Twitter, then by the sub-keywords in their order |
| Router.Finish | automation_order.py:1231-1240 | processed iff the protocol accepted, dropped with `validate_url` 0 iff it raised, manual otherwise |
| Router.RunProtocol | automation_order.py:1163-1194 | the dispatch: followers, reels views, other Instagram, subscribers, comment likes and other YouTube services run their protocol on the order's link, numbered after the calls made so far |
| Router.RouteNamed | automation_order.py:1162-1235 | the verdict is 0 or 1, processed iff 1; only edit link, note and verdict change; TikTok, Twitter, custom-comment and unknown services are manual with no probe; TikTok, Twitter and custom comments get their fixed notes, every other route keeps the note |
| Router.RouteOne | automation_order.py:1144-1240 | one order's routing changes only its edit link, note and verdict; processed iff the verdict is 1; at most two probes |
| Router.RoutedOnItsOwn | automation_order.py:1144-1146 | in the batch, each order is routed on its own state, numbered after the calls of the orders before it |
| Router.RoutedVerdicts | automation_order.py:1231-1239 | after routing every order's verdict is 0 or 1, processed iff 1, and only edit link, note and verdict changed |
| Router.ProcessedIffVerdict | automation_order.py:1231-1235 | an order is processed iff its verdict is 1 |
| Router.ProcessedAreValidated | automation_order.py:1231-1232 | the processed list holds exactly the orders left with `validate_url` 1 |
| Router.PickPartition | automation_order.py:1231-1239 | every order goes to exactly one of processed, manual and dropped |
| Router.UnknownServiceIsManual | automation_order.py:1151-1157 | an order whose number is not in the catalogue goes to manual with verdict 0 and no probe |
| Router.ManualRoutesMakeNoCalls | automation_order.py:1177-1229 | TikTok, Twitter, custom-comment and unknown services go to manual with verdict 0, no probe and the edit link untouched, TikTok, Twitter and custom comments with their fixed notes |
| Router.RunProtocolMethod | automation_order.py:1163-1194 | the protocol the route selects, run on the order, ends as `RunProtocol` says |
| Router.RouteNamedMethod | automation_order.py:1162-1235 | the loop body after the lookup ends as `RouteNamed` says |
| Router.RouteOrder | automation_order.py:1144-1239 | the loop body on one order ends as `RouteOne` says |
| Router.RouteNth | automation_order.py:1144-1239 | routing order `i` changes that order only |
| Router.TurnAdvances | automation_order.py:1144-1235 | one loop turn moves the log and both lists past order `i` |
| Router.RouteTurn | automation_order.py:1144-1239 | one loop turn on the objects keeps the loop invariant |
| Router.RouteEach | automation_order.py:1144-1240 | the loop leaves each order, the log and both lists as the run of `RouteOne` says |
| Router.CheckOrderUrl | automation_order.py:1131-1247 | `check_order_url` returns the processed and manual lists of the run, in input order, and leaves each order as routed |
| Ledger.SubmissionLink | automation_order.py:1261 | the edit link unless it is still -1, then the scraped link; never -1 |
| Ledger.OrderSheetRow | automation_order.py:933-955 | a row exists iff `store_order_num` is a dict; 10 columns ending `배송중`, store number `str(...get('order'))` |
| Ledger.ManualSheetRow | automation_order.py:1355-1373 | a row exists iff `store_order_num` is a dict; 11 columns, `처리필요` then the note |
| Ledger.RowsShareLeadColumns | automation_order.py:1358-1368 | both sheets' rows agree on the first nine columns and differ in the status |
| Ledger.UnsubmittedOrderRow | automation_order.py:1360 | an order never submitted is listed with store number `-1` |
| Ledger.StoreClient.Create | automation_order.py:467-483 | a submission is logged and answered by the fulfilment oracle; `None` where `create_order` raises |
| Ledger.PlaceOne | automation_order.py:1256-1279 | manual iff not validated; a submission iff validated and the quantity parses, with the chosen link; accepted iff the service answers; only `store_order_num` changes |
| Ledger.PlacedOnItsOwn | automation_order.py:1256-1260 | in the batch each order is placed on its own state, numbered after the submissions before it |
| Ledger.ManualListIsUnvalidated | automation_order.py:1272-1273 | the manual list is exactly the orders whose `validate_url` is not 1, and they are left untouched |
| Ledger.SubmissionsAreValidated | automation_order.py:1260-1266 | every submission is that of a validated order with the chosen link, its service number and its parsed quantity; -1 is never submitted |
| Ledger.OnlyStoreNumberChanges | automation_order.py:1269 | placing changes nothing of an order but `store_order_num` |
| Ledger.PlacedFlag | automation_order.py:1270-1283 | the returned flag is set iff some order was accepted |
| Ledger.ErrorReplyCounts | automation_order.py:1269-1271 | a dict reply without `order` counts as accepted and is written with store number `None` |
| Ledger.AddOrderSheet | automation_order.py:933-955 | appends the order's row iff it can be built |
| Ledger.PlaceOrder | automation_order.py:1258-1279 | the loop body on one order ends as `PlaceOne` says |
| Ledger.PlaceNth | automation_order.py:1258-1279 | placing order `i` changes that order only |
| Ledger.TurnAdvances | automation_order.py:1256-1279 | one loop turn moves the log, the rows, the count and the manual list past order `i` |
| Ledger.PlaceTurn | automation_order.py:1256-1279 | one loop turn on the objects keeps the loop invariant |
| Ledger.PlaceEach | automation_order.py:1256-1280 | the loop leaves each order, the submissions, the sheet and the counters as the run of `PlaceOne` says |
| Ledger.ProcessOrders | automation_order.py:1250-1284 | `process_order` returns whether any order was accepted and the manual list, and leaves orders, submissions and sheet as the run says |
| Ledger.ManualRowsAreFresh | automation_order.py:1337-1343 | no appended manual row repeats a number of the snapshot; each has 11 columns and status `처리필요` |
| Ledger.DuplicatesInBatchAppended | automation_order.py:1333-1343 | the snapshot is read once, so two orders of one batch with the same new number are both appended |
| Ledger.ManualRowAppended | automation_order.py:1335-1343 | an order's manual row, if built, is among the rows of its batch |
| Ledger.NothingToAppend | automation_order.py:1342 | a batch whose every number is listed appends nothing |
| Ledger.RerunAppendsNothing | automation_order.py:1331-1353 | running `add_manual_order` again on the sheet it left appends nothing |
| Ledger.AddManualOrderSheet | automation_order.py:1355-1382 | appends the manual row iff it can be built |
| Ledger.AddUnlisted | automation_order.py:1337-1343 | an order whose number the snapshot lists gets no row |
| Ledger.AddManualOrder | automation_order.py:1331-1353 | appends, in order, the manual rows of exactly the orders whose number the snapshot taken at the start does not list |
| Runs.PickMembers | automation_order.py:1231-1235 | a picked list holds exactly the items whose result qualifies, and as many as the count |
| Runs.ConcatMember | automation_order.py:1262 | every call of a run was made by one of its items |

## Left out

- Selenium scraping and the admin-console flow: `init_driver`, `cafe24_login`, `scrape_orders` and `process_eship`. This is browser I/O. The scraped record is the `Order` constructor, and `ScrapedServiceNum` models the service-number step. The single-item branch's record (lines 1068-1081) is never built, since `textsplit` at line 1070 raises; the constructor follows the sub-order record.
- `order["check_element"].click()` in `process_order`, which is a browser action.
- The HTTP side of `StoreAPI`. `create_order` is an oracle answering a JSON value, or `None` where it raises. The status and balance queries are not called by the core.
- `GoogleSheetManager`, gspread/pandas loading and its retries. Sheets are `Worksheet` objects with a list of rows; `append_row` never fails in the model.
- The catalogue as a table of `(enabled, name, option, code)` rows. Spreadsheet number coercion is not modelled: a code is an integer, and `서비스유무 == 1` is an integer test.
- The webhook in `alert_manual_orders`, which is network I/O.
- Environment loading, prints, `traceback` logging and `time.sleep`.
- The remote Apify runs. They are replaced by the oracle, and an actor's dataset is a list of string-keyed values.
- The TikTok/Twitter validator methods `validate_profile`/`validate_post` and the protocol helpers at lines 746-823. The router never calls them; it sends these services to manual review.
- main.py, which holds the scheduler and the retry wrapper.
- Asynchrony: the protocols run one after another, as the router awaits each.
- Regex `\w` is modelled as ASCII letters, digits and `_`; Unicode word characters are not. `.lower()` lowers ASCII letters only.
- `int()` accepts surrounding whitespace, a sign and ASCII digits. It does not accept underscores or non-ASCII digits.
- Values.Greater: lists, which Python compares element-wise, are treated as incomparable. Floats are not modelled.
- Values.PyStr: `str()` of a list or dict is not rendered; both appear as fixed placeholders.
- Router.CheckOrderUrl: requires the orders to be distinct objects, as the scraper builds them; the source would also accept a list holding one order twice.
- Ledger.ProcessOrders: requires the orders to be distinct objects, for the same reason.
- Services.GetOdInfo: its ensures states only when parsing succeeds; the values are stated by `GetOdInfoTwoLines` and `GetOdInfoOneLine` for well-formed text.
- Ledger.AddManualOrder: reads the rows of the worksheet it is given. The source passes the worksheet object where `get_sheet_data` expects a sheet title; resolving a title is the sheet library's job, which is not part of this model, so the failure that lookup would report is not modelled.
- Instagram.ExtractUsername: states no idempotence, because the source's extraction is not idempotent for links.
