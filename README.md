# Streamora core, modelled in Dafny

Streamora is a live-streaming site. Streamers publish over RTMP to a media
server that checks their stream key, transcodes the input into an HLS
quality ladder and cleans up when the publisher leaves. An HTTP API opens
and closes streams, serves a paginated feed of live channels backed by a
Redis channel cache, rotates refresh tokens, authenticates bearer tokens,
and edits the social graph and profiles. A React client plays the HLS
stream, edits the avatar and formats times.

This project models that core and proves what it promises:

* `Ladder` — the preset table, the quality ladder for a probed height, the
  resolution fallback, the encoder options of a rendition and the HLS
  master playlist (section 4.3.4.2 of RFC 8216), read back line by line.
* `Ingest` — the media server's `prePublish` admission (negative cache of
  unknown keys with a 120 s lifetime, open-stream check, one connection
  per user) and `donePublish` cleanup, over the shared stores.
* `Lifecycle` — starting and ending a stream, and the invariants they keep
  together with admission: one open stream per user, a connected publisher
  has an open stream, no stream ends while its publisher is connected.
* `Feed` — page size, the base64url cursor (section 5 of RFC 4648, in
  `Base64Url`) and its round trip, page slicing, the deduplicated feed of
  followed, category and trending users, the channel cache and the merge
  of cached and fetched channels.
* `Accounts`, `Refresh`, `Session` — the username sanitiser, unique
  usernames, refresh-token issue and rotation with reuse detection, stream
  keys, and the bearer-token middleware (section 2.1 of RFC 6750) with its
  session-invalidation cut-off.
* `Social`, `Profile` — follow and unfollow over the follower pairs,
  username, bio and profile-picture changes with their cache effects and
  image rules.
* `Config` — the two port normalisers and the CORS allow-list.
* `Player`, `Avatar`, `TimeSince`, `RelativeTime` — the client's
  resolution labels, quality menu and error classification, the avatar
  editor's flags, the elapsed-time clock and the relative-time buckets.

`Store` holds the state: `Tables` (users in row order, streams by id,
follower pairs, refresh tokens) and `Keys` (the Redis keys and a clock in
seconds), each behind a class (`Database`, `Cache`) whose fields the
handlers update in place, plus `MediaRoot` (the media directory) and
`StaticDir` (uploaded pictures). Each handler is an imperative method whose
postcondition ties its result and the new state to a specification
function of the old state; the lemmas state what the specification
function guarantees. `Wrappers` holds `Option` and `Result`, `Strings` the
string helpers (trimming, ASCII lower-casing, decimal printing, JavaScript
`parseInt`, split and join).

External effects are parameters: the probe's outcome, the JWT
verification's outcome and the newly signed token with its expiry, the
hashed stream key or file name, the image metadata the image library
reads, the current time, the database's ranking of live streams, the
configured host name and the production flag.

## Model

| member | source | states |
|---|---|---|
| Ladder.PresetsDescending | server/src/lib/nms.ts:23-52 | the preset table strictly descends in height (1080, 720, 480, 360) |
| Ladder.FilterByHeight | server/src/lib/nms.ts:96-98 | the filter keeps exactly the presets no taller than the height and never adds one |
| Ladder.FilterOfDescendingIsSuffix | server/src/lib/nms.ts:96-98 | filtering a strictly descending table by height yields a suffix of it |
| Ladder.FilterKeepsAll | server/src/lib/nms.ts:96-98 | when every preset fits, the filter returns the table unchanged |
| Ladder.ApplicableQualities | server/src/lib/nms.ts:96-98 | the ladder holds exactly the presets with height at most the input height |
| Ladder.LadderIsSuffix | server/src/lib/nms.ts:96-98 | the ladder is always a suffix of the preset table, and empty exactly when the height is below 360 |
| Ladder.DefaultLadder | server/src/lib/nms.ts:54-98 | the default 854x480 resolution gives the ladder [480p, 360p] |
| Ladder.FirstVideo | server/src/lib/nms.ts:71-73 | the chosen stream is a video stream of the probe, and none is chosen only when there is no video stream |
| Ladder.StreamResolution | server/src/lib/nms.ts:54-94 | the probed width and height of the first video stream are returned unchanged when both are present and non-zero; a probe error, a lost race with the timer, no video stream or a missing or zero side gives 854x480 |
| Ladder.RenditionArguments | server/src/lib/nms.ts:126-147 | there is one argument per encoder flag |
| Ladder.RenditionOptions | server/src/lib/nms.ts:126-147 | the options carry the flags in the source's order, one option per flag |
| Ladder.ReadBackAt | server/src/lib/nms.ts:126-147 | looking up a flag in the rendered option strings finds the argument paired with its first occurrence |
| Ladder.ReadBackBitrate | server/src/lib/nms.ts:130 | `-b:v` reads back as the preset's bitrate in decimal |
| Ladder.ReadBackMaxRate | server/src/lib/nms.ts:131 | `-maxrate` reads back as 6/5 of the bitrate, exactly 1.2 times it |
| Ladder.ReadBackBufferSize | server/src/lib/nms.ts:132 | `-bufsize` reads back as the bitrate |
| Ladder.ReadBackScale | server/src/lib/nms.ts:133 | `-vf` reads back as `scale=<width>:<height>` of the preset |
| Ladder.ReadBackFrameRate | server/src/lib/nms.ts:134 | `-r` reads back as the preset's frame rate |
| Ladder.ReadBackGop | server/src/lib/nms.ts:135 | `-g` reads back as 30 |
| Ladder.ReadBackSegmentLength | server/src/lib/nms.ts:140 | `-hls_time` reads back as 1 |
| Ladder.ReadBackPlaylistSize | server/src/lib/nms.ts:141 | `-hls_list_size` reads back as 3 |
| Ladder.VariantLines | server/src/lib/nms.ts:191-196 | each ladder entry, in order, gives a `#EXT-X-STREAM-INF` line with its bandwidth and resolution followed by its `<name>/index.m3u8` line |
| Ladder.VariantLinesOneLineEach | server/src/lib/nms.ts:191-196 | no variant line contains a line break |
| Ladder.MasterPlaylistLines | server/src/lib/nms.ts:188-197 | the playlist splits on line breaks into exactly 2 + 2n lines: `#EXTM3U`, `#EXT-X-VERSION:6`, then each entry's two lines in ladder order |
| Ingest.StreamKeyOf | server/src/lib/nms.ts:229 | the key taken from a publish path contains no `/` |
| Ingest.StreamKeyOfPublishPath | server/src/lib/nms.ts:284 | the key of `/<app>/<key>` is `<key>` |
| Ingest.AdmittedIff | server/src/lib/nms.ts:231-266 | a publisher is admitted exactly when the key is not negatively cached, some user has it, that user has an open stream and is not already connected; admission sets the connected flag and drops the user's cached channel |
| Ingest.RejectionLeavesFlags | server/src/lib/nms.ts:232-259 | every rejection leaves the connected flags and channel cache as they were; only an unknown key writes anything (its negative-cache entry) |
| Ingest.AdmitKeepsConsistent | server/src/lib/nms.ts:252-264 | admission keeps "a connected user has an open stream" |
| Ingest.SecondPublisherRejected | server/src/lib/nms.ts:255-259 | after an admission, a second publisher with the same key is rejected as already connected |
| Ingest.NegativeCacheHolds | server/src/lib/nms.ts:232-248 | within 120 s of an unknown-key rejection, the same key is rejected from the negative cache whatever the users table then holds |
| Ingest.RenditionDirsContents | server/src/lib/nms.ts:117-119 | each rendition gets its directory under the user's media root, and nothing outside it changes |
| Ingest.SetupContents | server/src/lib/nms.ts:111-202 | after setup the user's media root is a directory holding the master playlist and one directory per rendition |
| Ingest.SetupKeepsOthers | server/src/lib/nms.ts:111-202 | setup leaves every entry outside the user's directory as it was |
| Ingest.PresetNamesArePlain | server/src/lib/nms.ts:23-52 | no preset name clashes with the playlist's file name or holds a line break |
| Ingest.PlaylistFailureLeftovers | server/src/lib/nms.ts:114-202 | a failed playlist write leaves the user's directory and every rendition directory behind, with no playlist |
| Ingest.RenditionDirsOnly | server/src/lib/nms.ts:117-119 | creating the rendition directories creates nothing under any other name |
| Ingest.WriteHlsLayout | server/src/lib/nms.ts:111-202 | writes, in order, up to the write that fails, exactly what the setup effect says, and reports success only for a setup that succeeds |
| Ingest.Admit | server/src/lib/nms.ts:231-266 | the admission checks and Redis writes, in order, produce the specified verdict and keys |
| Ingest.PublishWithKey | server/src/lib/nms.ts:231-279 | once a key is read, the admission specification holds, the session is kept exactly when admitted and the media setup succeeds; an admitted publisher's media root is the setup effect of the outcome, a rejected one's is unchanged |
| Ingest.MissingKeyRejected | server/src/lib/nms.ts:229-248 | a path without a key is never admitted: a negative-cache hit on the `undefined` key, or an unknown key that is then cached as invalid for 120 s |
| Ingest.RejectMissingKey | server/src/lib/nms.ts:229-248 | the negative-cache check and write for a path without a key are those of the admission of a key no row holds |
| Ingest.PrePublish | server/src/lib/nms.ts:224-279 | the Redis effects are those of the path's admission (a path without a key goes on with `undefined`); the session is kept exactly when admitted and setup succeeds; an admitted publisher's media root is the setup effect, partial writes included, and a rejected one's is unchanged |
| Ingest.DoneCleansUp | server/src/lib/nms.ts:289-315 | for a known key whose removals succeed, the user's media directory and thumbnail are gone, and the connected flag and cached channel are dropped |
| Ingest.DoneIdempotent | server/src/lib/nms.ts:298-315 | with removals that succeed, cleaning up twice is the same as cleaning up once |
| Ingest.RemoveTreeAbsent | server/src/lib/nms.ts:298-310 | a forced removal of an absent path changes nothing |
| Ingest.DoneKeepsConsistent | server/src/lib/nms.ts:312-315 | cleanup, whatever its removals do, keeps "a connected user has an open stream" |
| Ingest.FailedRemovalKeepsFlags | server/src/lib/nms.ts:298-316 | a removal that fails skips the Redis deletes, so the user stays flagged connected; a failed media removal leaves the disk as it was, a failed thumbnail removal has already removed the media directory |
| Ingest.DonePublish | server/src/lib/nms.ts:281-320 | a path without a key changes nothing (its query matches no row); otherwise the cleanup specification holds for the removals' outcome |
| Store.ParseCategory | server/src/lib/db/schema/enums.ts:3-14 | an accepted category is exactly the label of an enum value |
| Store.ParseCategoryLabel | server/src/lib/db/schema/enums.ts:3-14 | every category label is accepted as that category |
| Store.AtMostOneOpenStream | server/src/api/stream/start.ts:51-78 | in a well-formed state two open streams of one user are the same stream |
| Store.RemoveTreeIdempotent | server/src/lib/nms.ts:298-310 | a forced recursive removal of a path already removed changes nothing |
| Store.RemoveTreeCommutes | server/src/lib/nms.ts:298-310 | the media directory and the thumbnail can be removed in either order with the same result |
| StreamLifecycle.StartOutcome | server/src/api/stream/start.ts:33-81 | a start succeeds exactly when the trimmed title has at least 6 characters, the user exists, has no open stream and the trimmed category is valid; then one new open stream with the trimmed title belongs to the user and is their current stream, and other streams are unchanged; a failure changes nothing |
| StreamLifecycle.StartKeepsConsistent | server/src/api/stream/start.ts:51-78 | starting keeps the tables well formed (one open stream per user) and connected users' streams open |
| StreamLifecycle.NoEndWhileConnected | server/src/api/stream/end.ts:28-32 | with a publisher connected, ending fails with "Stream is connected" and changes nothing |
| StreamLifecycle.EndOutcome | server/src/api/stream/end.ts:21-55 | for an existing, unconnected user ending succeeds, the user has no current stream and no open stream, and the former stream ends at the given time |
| StreamLifecycle.EndIdempotent | server/src/api/stream/end.ts:27 | ending a second time succeeds and changes nothing |
| StreamLifecycle.EndKeepsConsistent | server/src/api/stream/end.ts:33-55 | ending keeps the tables well formed and connected users' streams open |
| StreamLifecycle.ConnectedMeansOpen | server/src/lib/nms.ts:252-264 | in a consistent state a connected user's current stream is open |
| StreamLifecycle.StartStream | server/src/api/stream/start.ts:32-95 | the handler's result and new state are those of the start specification |
| StreamLifecycle.InsertStream | server/src/api/stream/start.ts:58-78 | inserts one stream row under the next serial id and makes it the user's current stream |
| StreamLifecycle.EndStream | server/src/api/stream/end.ts:16-68 | the handler's result and new state are those of the end specification |
| Feed.PageSizeClamped | server/src/lib/feed/index.ts:331-336 | the page size is 10 without options or without a limit, otherwise the limit capped at 20 |
| Feed.EncodeCursor | server/src/lib/feed/index.ts:377-379 | a cursor is never empty |
| Feed.CursorRoundTrip | server/src/lib/feed/index.ts:338-352 | decoding a cursor made for index `end` gives `end` back |
| Feed.PlanPageContents | server/src/lib/feed/index.ts:365-379 | a page exists exactly when the start is inside the feed; it is the contiguous slice from the start, of the limit's length or up to the end, with a next index exactly when the feed goes on |
| Feed.PagesCoverFeed | server/src/lib/feed/index.ts:365-379 | following the next indexes from a start yields the feed from that start, each element once, in order |
| Feed.DedupMembers | server/src/lib/feed/index.ts:302-307 | removing duplicates keeps exactly the names of the input |
| Feed.DedupDistinct | server/src/lib/feed/index.ts:302-307 | the result has no duplicates |
| Feed.DedupFirstOccurrence | server/src/lib/feed/index.ts:302-307 | names appear in the order of their first occurrence |
| Feed.DedupPrefix | server/src/lib/feed/index.ts:302-307 | the deduplicated prefix of a list begins the deduplicated list |
| Feed.UniqueInOrder | server/src/lib/feed/index.ts:302-307 | the loop over the names computes the deduplicated list |
| Feed.GeneratedFeedShape | server/src/lib/feed/index.ts:272-325 | a generated feed holds exactly the names of the three capped lists, without duplicates, is cached for the viewer and expires after 60 s; it fails exactly for a signed-in viewer with no row |
| Feed.FollowedFirst | server/src/lib/feed/index.ts:286-307 | followed live users come first, in query order |
| Feed.FollowedAreLive | server/src/lib/feed/index.ts:168-187 | every followed name listed is a live user |
| Feed.OwnersAreLive | server/src/lib/feed/index.ts:204-227 | every category or trending name listed owns an open stream |
| Feed.FeedOnlyLive | server/src/lib/feed/index.ts:272-325 | every name in a feed is a live user |
| Feed.OwnerListed | server/src/lib/feed/index.ts:241-261 | an open stream in the ranking puts its owner in the trending list |
| Feed.EveryLiveUserTrends | server/src/lib/feed/index.ts:238-270 | with at most 200 open streams, every live user is in an anonymous visitor's feed |
| Feed.GenerateUserFeed | server/src/lib/feed/index.ts:272-325 | the method's result and feed cache are those of the feed specification |
| Feed.ChannelShowsLiveness | server/src/lib/feed/index.ts:47-70 | a channel is live exactly when its user has a current stream; then it is connected exactly when the publisher flag is set, shows the stream's title and has 0 viewers |
| Feed.MissesMembers | server/src/lib/feed/index.ts:98-102 | the missed names are exactly the requested names without a cache entry |
| Feed.CollectMisses | server/src/lib/feed/index.ts:98-102 | the loop collects the page's uncached names, in page order |
| Feed.FillPage | server/src/lib/feed/index.ts:140-153 | the loop builds the page from the cached channels and the fetched rows in page order, each name taking its own user's row (corrected merge, see Findings: the source gives the k-th uncached name the k-th fetched row) |
| Feed.FindByName | server/src/lib/feed/index.ts:103-108 | a found channel belongs to the fetched rows and has the name; none is found only when no fetched row has it |
| Feed.FetchFinds | server/src/lib/feed/index.ts:103-108 | every missed name that is some user's name is fetched |
| Feed.InPageOrderShowsEach | server/src/lib/feed/index.ts:140-153 | the merged page has one channel per name, the k-th for the k-th name (corrected merge, see Findings: the source gives the k-th uncached name the k-th fetched row) |
| Feed.CacheAll | server/src/lib/feed/index.ts:72-79 | caching the fetched channels adds an entry for each and keeps the cached ones |
| Feed.CacheAllKeyed | server/src/lib/feed/index.ts:72-79 | every cache entry stays keyed by its channel's username |
| Feed.ChannelsInFeedOrder | server/src/lib/feed/index.ts:87-162 | for names of existing users the page has one channel per name in the requested order, and all of them are then cached under their names (corrected merge, see Findings: the source gives the k-th uncached name the k-th fetched row) |
| Feed.ChannelsFromUsernames | server/src/lib/feed/index.ts:87-162 | the method's page and channel cache are those of the channels specification, which uses the corrected merge (see Findings) |
| Feed.MergeAsWrittenLength | server/src/lib/feed/index.ts:140-153 | the merge as written yields the hits plus the smaller of the misses and the fetched rows |
| Feed.AsWrittenReordersPage | server/src/lib/feed/index.ts:140-153 | two uncached names requested against table order come back in table order as written, in request order in the model |
| Feed.NextCursorContinues | server/src/lib/feed/index.ts:365-379 | with a live cached feed, a page has a next cursor exactly when more names follow, and that cursor starts the next page right after this one |
| Feed.ExpiredFeedRestarts | server/src/lib/feed/index.ts:357-363 | when the viewer's feed has expired, any valid cursor gives the first page |
| Feed.PaginateUserFeed | server/src/lib/feed/index.ts:327-385 | the method's result and cache are those of the pagination specification, whose page is built with the corrected merge (see Findings) |
| Base64Url.Symbol | server/src/lib/feed/index.ts:378 | a symbol is never the padding character `=`, so cursors are unpadded |
| Base64Url.Encode | server/src/lib/feed/index.ts:378 | the encoding has the unpadded length, 4 symbols per 3 bytes |
| Base64Url.RoundTrip | server/src/lib/feed/index.ts:341-342 | decoding an encoding gives the bytes back |
| Strings.TrimShape | server/src/api/user/follow.ts:16 | the trimmed text is the slice of the input between its leading and trailing white space, and has no white space at either end |
| Strings.ToLower | server/src/lib/auth/index.ts:69 | lower-casing keeps the length, leaves no ASCII capital, keeps every other character and maps each capital to its small letter 32 code points up |
| Strings.ParseInt | server/src/config/environment.ts:40 | a parsed number is the signed value of the leading decimal digits |
| Strings.ParseDecimal | server/src/config/environment.ts:40 | the decimal text of a number parses back to it |
| Strings.ParseDecimalPrefix | server/src/config/environment.ts:40 | parsing stops at the first character after the digits |
| Strings.ParseIntAuto | server/src/lib/feed/index.ts:341 | `parseInt` without a radix reads hexadecimal after `0x` and decimal otherwise |
| Strings.ParseAutoDecimal | server/src/lib/feed/index.ts:341 | the decimal text of a number parses back to it without a radix too |
| Strings.Split | server/src/middleware/auth.ts:18 | there is at least one piece and no piece contains the separator |
| Strings.SplitCount | server/src/middleware/auth.ts:18 | there is one more piece than separators |
| Strings.SplitJoin | server/src/lib/nms.ts:188-197 | splitting lines joined by the separator gives the lines back |
| Strings.JoinSplit | server/src/api/user/profile/profilePicture.ts:119 | joining the pieces of a split gives the text back |
| Strings.SplitLastPiece | server/src/api/user/profile/profilePicture.ts:119-122 | the last piece of a path ending in `/<name>` is `<name>` |
| Accounts.SanitizeShape | server/src/lib/auth/index.ts:68-74 | the sanitised name holds only `a-z`, `0-9`, `_` and `-` and has at most 69 characters |
| Accounts.SanitizeFixes | server/src/lib/auth/index.ts:68-74 | a sanitised name is left as it is by any replacement |
| Accounts.SanitizeIdempotent | server/src/lib/auth/index.ts:68-74 | sanitising twice is sanitising once |
| Accounts.SanitizeFixpointIff | server/src/api/user/profile/username.ts:20-22 | a name passes the body's fixpoint check exactly when it is in sanitised form |
| Accounts.CountLike | server/src/lib/auth/index.ts:81-84 | no name is counted exactly when none starts with the base (with `_` and `%` as LIKE wildcards) |
| Accounts.UniqueUsernameIsFree | server/src/lib/auth/index.ts:76-104 | a generated name is free, starts with the sanitised base, and is the base exactly when nothing starts with it; the only failure is "Couldn't generate unique username" after some name matched |
| Accounts.MarkUsed | server/src/lib/auth/index.ts:48-52 | marking a token used keeps the table's length |
| Accounts.IssueOutcome | server/src/lib/auth/index.ts:32-66 | issuing succeeds exactly when the user exists; then one new unused row with a new id holds the token, the old row alone is marked used, and a failure changes nothing |
| Accounts.IssueKeepsWellFormed | server/src/lib/auth/index.ts:48-57 | issuing keeps the tables well formed (ids increasing, foreign keys) |
| Accounts.IssueRefreshToken | server/src/lib/auth/index.ts:32-66 | the method's result and tables are those of the issue specification |
| Accounts.NewStreamKeyRegistered | server/src/lib/auth/index.ts:106-131 | a new key is stored on the user's row alone, finds that row, and is no longer negatively cached |
| Accounts.GenerateStreamKey | server/src/lib/auth/index.ts:106-139 | the method's result and state are those of the stream-key specification |
| Refresh.FindToken | server/src/api/auth/refresh.ts:63-74 | the stored token found is the first row holding the cookie's token, and none is found only when no row holds it |
| Refresh.Revoke | server/src/api/auth/refresh.ts:86-90 | revoking keeps exactly the rows of other users |
| Refresh.RevokeKeepsOrder | server/src/api/auth/refresh.ts:86-90 | revoking keeps token ids increasing in row order |
| Refresh.RefreshSucceedsIff | server/src/api/auth/refresh.ts:33-123 | an exchange succeeds exactly when a non-empty cookie verifies with a string user id, its row exists and is unused, and the user exists; it returns the new token with its expiry; every failure except reuse leaves the tables unchanged |
| Refresh.ExchangedAtMostOnce | server/src/api/auth/refresh.ts:83-102 | presenting an exchanged token again is reuse and revokes all of the user's tokens |
| Refresh.ReuseRevokesAll | server/src/api/auth/refresh.ts:83-97 | a used token gives "Refresh token reuse detected" and deletes exactly that user's tokens |
| Refresh.RefreshKeepsWellFormed | server/src/api/auth/refresh.ts:83-102 | an exchange keeps the tables well formed |
| Refresh.RefreshSession | server/src/api/auth/refresh.ts:29-150 | the handler's result and tables are those of the refresh specification |
| Session.BearerTokenIff | server/src/middleware/auth.ts:18-19 | a header yields a token exactly when it is `Bearer ` followed by a token without spaces |
| Session.AuthenticatedIff | server/src/middleware/auth.ts:9-59 | a request is authenticated exactly when the header has the bearer form, the token verifies to a payload with a user id, session expiry and issue time, and no invalidation at or after the issue time is recorded; the claims are the payload's |
| Session.InvalidationCutsOff | server/src/middleware/auth.ts:38-47 | after an invalidation at time `at`, a token is refused as expired exactly when it was issued at or before `at` |
| Social.FollowOutcome | server/src/api/user/follow.ts:33-79 | a follow succeeds exactly when the trimmed name is another, existing user not yet followed and the caller exists; then the pair is added, the caller's profile cache is dropped and the reply tells the user's liveness; a failure changes nothing |
| Social.UnfollowOutcome | server/src/api/user/unfollow.ts:33-75 | an unfollow succeeds exactly when the trimmed name is another, existing user the caller follows; then the pair is removed and the caller's profile cache dropped; a failure changes nothing |
| Social.NeverSelfFollows | server/src/api/user/follow.ts:47-53 | neither operation creates a pair of a user with themselves |
| Social.FollowThenUnfollow | server/src/api/user/unfollow.ts:55-63 | unfollowing after a follow restores the follower set |
| Social.UnfollowThenFollow | server/src/api/user/follow.ts:55-70 | following after an unfollow restores the follower set |
| Social.FollowKeepsWellFormed | server/src/api/user/follow.ts:55-62 | following keeps follower pairs between existing users |
| Social.UnfollowKeepsWellFormed | server/src/api/user/unfollow.ts:55-63 | unfollowing keeps the tables well formed |
| Social.Follow | server/src/api/user/follow.ts:19-90 | the handler's result and state are those of the follow specification |
| Social.Unfollow | server/src/api/user/unfollow.ts:19-86 | the handler's result and state are those of the unfollow specification |
| Profile.Matching | server/src/api/user/profile/username.ts:42-49 | the rows found are exactly the caller's row and rows holding the new name |
| Profile.RenameRefusal | server/src/api/user/profile/username.ts:50-70 | the rows allow the rename exactly when there is one row, it is the caller's and it has no open stream |
| Profile.RenameSucceedsIff | server/src/api/user/profile/username.ts:42-86 | a rename succeeds exactly when the name is valid, the caller exists and is not streaming, and no other user holds the name |
| Profile.RenameEffect | server/src/api/user/profile/username.ts:71-86 | a rename changes only the caller's username and drops the old name's cached channel; a failure changes nothing |
| Profile.RenameKeepsWellFormed | server/src/api/user/profile/username.ts:73-79 | renaming keeps usernames unique and the tables well formed |
| Profile.RenameToOwnName | server/src/api/user/profile/username.ts:42-86 | renaming to one's current name succeeds and changes no table |
| Profile.TakenNameRefusalDependsOnOrder | server/src/api/user/profile/username.ts:56-70 | when a streaming user holds the name, the refusal says "Cannot change username while streaming" or "Username already exists" depending on which row comes first |
| Profile.Rename | server/src/api/user/profile/username.ts:26-99 | the handler's result and state are those of the rename specification |
| Profile.BioOutcome | server/src/api/user/profile/bio.ts:14-48 | a bio update succeeds exactly when the trimmed bio has at most 500 characters and the user exists; it stores and returns the trimmed bio, changes only that column of that row and drops the cached channel; a failure changes nothing |
| Profile.UpdateBio | server/src/api/user/profile/bio.ts:17-59 | the handler's result and state are those of the bio specification |
| Profile.ValidateImageIff | server/src/api/user/profile/profilePicture.ts:22-53 | an image is accepted exactly when it is a readable JPEG or PNG with both sides in [128, 1024]; the result is square, a square image keeps its size, and a non-square one is padded to its larger side |
| Profile.DeleteOutcomeIff | server/src/api/user/profile/profilePicture.ts:55-65 | deleting succeeds exactly when the unlink succeeds or the file is absent |
| Profile.PictureFile | server/src/api/user/profile/profilePicture.ts:119-122 | the old picture's file name is its URL's last path segment |
| Profile.PictureOutcome | server/src/api/user/profile/profilePicture.ts:67-158 | an upload succeeds exactly when a JPEG or PNG of at most 2 MiB passes the image rules and the user exists; then the row points at `HOSTNAME + "file/" + <hash>.webp`, that file exists, no other file is added, and the cached channel and profile are dropped; a failure changes nothing |
| Profile.ReplacedPictureRemoved | server/src/api/user/profile/profilePicture.ts:119-125 | a replaced `.webp` picture's file is deleted |
| Profile.ReplacePicture | server/src/api/user/profile/profilePicture.ts:83-160 | the handler's result and state are those of the picture specification |
| Config.DbPortCases | server/src/config/environment.ts:37-44 | the database port is the parsed value when it is a non-negative number, and 5432 otherwise |
| Config.DbPortReadsPrefix | server/src/config/environment.ts:40 | the port is read from the leading digits, so `8080x` gives 8080 |
| Config.ServerPortCases | server/src/bin/index.ts:9-14 | text that is not a number stays a pipe name, a non-negative number is the port, a negative one refuses |
| Config.ServerPortReadsPrefix | server/src/bin/index.ts:10 | the server port is read from the leading digits |
| Config.DefaultServerPort | server/src/config/environment.ts:10 | the default `9000` listens on port 9000 |
| Config.AllowedOrigins | server/src/config/cors.ts:5-10 | the two Vercel origins are always allowed, and `http://localhost:5173` exactly outside production |
| Config.CheckOriginIff | server/src/config/cors.ts:13-23 | an origin passes without error exactly when it is listed, and is then allowed; an unlisted origin gets the policy error and `false` |
| Player.ResolutionLabelOfHeight | client/src/components/LiveVideoPlayer.tsx:72-79 | the label ignores the width, heights below 480 print as `<h>p`, and heights below 1440 give a `p` label |
| Player.PresetsLabelledByName | client/src/components/LiveVideoPlayer.tsx:72-79 | every server preset is labelled with its own name |
| Player.QualitiesOf | client/src/components/LiveVideoPlayer.tsx:131-139 | there is one quality per level, whose id is the level's index and whose sizes, bitrate and label are the level's |
| Player.QualityIdSelectsItsLevel | client/src/components/LiveVideoPlayer.tsx:131-139 | a quality's id selects the level it describes |
| Player.ClassifyCases | client/src/components/LiveVideoPlayer.tsx:271-303 | only fatal errors are handled: a network error with a 404 is a disconnection, any other network error a network failure, a media error a media failure, anything else fatal |
| Player.PlayerState.constructor | client/src/components/LiveVideoPlayer.tsx:107-118 | the player starts in automatic quality, level -1, menu closed, no error |
| Player.PlayerState.Attach | client/src/components/LiveVideoPlayer.tsx:252-253 | the player is attached |
| Player.PlayerState.HandleQualityChange | client/src/components/LiveVideoPlayer.tsx:151-172 | without a player nothing changes; otherwise the level and shown quality become the id, automatic mode holds exactly for -1, and the menu closes |
| Player.PlayerState.HandleError | client/src/components/LiveVideoPlayer.tsx:120-127 | the error's message is shown, and a retry is scheduled exactly for a disconnection |
| Avatar.PreviewAcceptedIff | client/src/components/EditAvatar.tsx:40-46 | a preview is accepted exactly when it is square with a side in [128, 1024] |
| Avatar.ClientImpliesServer | client/src/components/EditAvatar.tsx:40-46 | an image the editor accepts passes the server's rules unchanged, not the other way round (128x256), and both limit uploads to 2 MiB |
| Avatar.AvatarEditor.constructor | client/src/components/EditAvatar.tsx:19-22 | the editor starts with no file, no preview, not valid and not loading |
| Avatar.AvatarEditor.ChooseFileAsWritten | client/src/components/EditAvatar.tsx:95-111 | as written, a missing or oversized file leaves the editor loading with no preview and no way to choose another file |
| Avatar.AvatarEditor.PreviewFailedAsWritten | client/src/components/EditAvatar.tsx:62-71 | as written, an unreadable preview leaves the editor loading with no preview and no way to choose another file |
| Avatar.AvatarEditor.ChooseFile | client/src/components/EditAvatar.tsx:95-111 | a file within 2 MiB becomes the previewed file; a missing or oversized one leaves the editor ready to choose again |
| Avatar.AvatarEditor.PreviewFailed | client/src/components/EditAvatar.tsx:62-71 | an unreadable preview is dropped, the file is not valid and another can be chosen |
| Avatar.AvatarEditor.PreviewLoadedAsWritten | client/src/components/EditAvatar.tsx:37-60 | as written: the file becomes valid exactly when the preview is accepted, loading ends, and a refused preview stays because the memoised handler reads the first render's URL |
| Avatar.AvatarEditor.PreviewLoaded | client/src/components/EditAvatar.tsx:37-60 | corrected: the file becomes valid exactly when the preview is accepted, loading ends, and a refused preview is dropped while an accepted one stays |
| Avatar.AvatarEditor.Upload | client/src/components/EditAvatar.tsx:73-93 | a file is sent exactly when one is chosen and valid, and it then meets the server's size and dimension limits |
| TimeSince.ClockReadsBack | client/src/components/TimeSince.tsx:16-21 | for a non-negative count the hours, minutes and seconds add back up to it, with minutes and seconds below 60 |
| TimeSince.NegativeCountShown | client/src/components/TimeSince.tsx:16-21 | a negative count prints parts that do not add up to it (-1 gives -1:-1:-1) |
| TimeSince.ElapsedSeconds | client/src/components/TimeSince.tsx:8-10 | the elapsed seconds are the milliseconds since the start divided by 1000, rounded down |
| TimeSince.Timer.constructor | client/src/components/TimeSince.tsx:4 | the timer starts at 0 seconds |
| TimeSince.Timer.Tick | client/src/components/TimeSince.tsx:7-11 | a tick sets the elapsed whole seconds since the start, never negative once the start has passed |
| RelativeTime.RoundDiv | client/src/lib/utils.ts:36 | the count is the nearest whole number to the quotient, halves rounded up |
| RelativeTime.FirstFit | client/src/lib/utils.ts:34-35 | the chosen row is the first, from the given one on, whose threshold the distance reaches |
| RelativeTime.FromNow | client/src/lib/utils.ts:8-43 | the loop over the table returns the relative-time specification's value |
| RelativeTime.LastRowFits | client/src/lib/utils.ts:29 | the scan always finds a row, since the last threshold is 0 |
| RelativeTime.AlwaysDescribed | client/src/lib/utils.ts:28-42 | every time is described, as "just now" exactly when less than 30 s away |
| RelativeTime.ChosenUnit | client/src/lib/utils.ts:31-41 | the unit is that of the first row whose threshold the distance reaches, the count is the rounded quotient, positive exactly for the future, and never 0 |
| RelativeTime.MonthIsTwelfthOfYear | client/src/lib/utils.ts:15 | a month is exactly a twelfth of a 365-day year |

## Left out

- The ffmpeg and ffprobe processes, their event wiring and the thumbnail timers: the probe's outcome, where the media setup fails and whether each removal of `donePublish` fails are parameters; only the option values, the directory layout and the playlist text are modelled.
- Ingest.WriteHlsLayout: the model assumes every rendition directory is created. A failed `mkdir` of one rendition's directory (server/src/lib/nms.ts:119) rejects that rendition's promise before `Promise.allSettled` is attached (line 211, after the playlist write awaited at lines 199-202). It then most likely surfaces as an uncaught exception, which the `uncaughtException` hook (server/src/app.ts:81-84) passes to the error handler's critical path, and that path exits the process. This is not modelled.
- Ingest.DonePublish: a recursive removal that fails part-way can leave part of the tree; the model treats a failed removal as removing nothing.
- Ingest.PrePublish: for a path without a key, the users query is taken to bind `undefined` as SQL NULL and so match no row, and the negative-cache key to be the one built from the text "undefined"; the query builder and the key builder are not part of this model.
- The race between the probe and its 5 s timer, and the fire-and-forget event wrapper: the race's winner is a parameter.
- Postgres, Redis, transactions and isolation levels: the stores are values in classes, key lifetimes are an integer clock, and each handler runs as one sequential step. Database and Redis failures, driver error texts (the feedback of a foreign-key failure), and the 500 answers they produce are not modelled.
- The Redis key builders are treated as opaque: each key family is its own field. The `REDIS_KEYS` object in server/src/config/environment.ts defines only a constant `lastSessionInvalidation`, while the handlers call builders; the model follows the handlers.
- An update `WHERE userId = ...` touches the first matching row; user ids are unique in well-formed tables. The "no row updated" or "no row inserted" branches after a successful lookup cannot occur in a sequential run and are not modelled.
- JWT signing and verification, Google sign-in and sha256 hashing: their outcomes (verification result, new token and expiry, hashed stream key or file name) are parameters.
- The image library and the upload parser: metadata and the upload are inputs. The resize with `fit: contain` and `withoutEnlargement` (server/src/api/user/profile/profilePicture.ts:44-47) is assumed to pad a non-square image to a square of its larger side. The model does not show that the library does this: the square output stated by Profile.ValidateImage and Profile.ValidateImageIff rests on this assumption.
- Profile.PictureOutcome: an unlink failure other than an absent file (a permission error) is not an input of the picture specification; the decision itself is `Profile.DeleteOutcomeIff`.
- An oversized upload is the parser's own error, which the error handler treats as critical: it answers 500 "Internal server error" and then exits the process. The exit is not modelled.
- A missing or unlisted Origin makes the CORS callback pass an error to `next` (server/src/app.ts:23). The first error middleware after it is the static-file error handler (server/src/app.ts:31-33, registered at line 60), which only logs it: the request is left unanswered. This is not modelled; the model stops at the callback's reply.
- Response writing: double sends (the start handler's 200 after "User is already streaming", the middleware calling `next` twice after a Redis error) are not modelled; only state effects and the first answer are.
- The order of Postgres rows for the trending and category queries (`ORDER BY` peak viewers and start time, with the database's own order among ties) is a `ranking` parameter; `Feed.EveryLiveUserTrends` assumes it lists the open streams.
- Strings are sequences of characters: JavaScript's UTF-16 code units and Unicode lower-casing beyond ASCII are not modelled (lower-casing is ASCII only). White space is the full ECMAScript WhiteSpace and LineTerminator set, as `trim` and `parseInt` use it.
- Numbers in request bodies are integers: zod's floating-point numbers for `iat` and `sessionExpiry` are not modelled.
- Floating-point display: `formatBitrate` and the bitrate part of a quality's label, and the player's buffer statistics.
- React rendering, hls.js internals, axios, the mutation's loading flag and the `setTimeout` that defers reading the chosen file: the editor's handlers run as atomic steps, and the retry the player schedules is a counter.
- The client's copy of the sanitiser and form schemas, the profile and channel GET handlers, logout, login, the error handler, the app set-up and the layout components.

## Findings

| source | as written | input that shows it | evidently intended | confidence | as-written member | corrected member |
|---|---|---|---|---|---|---|
| server/src/lib/feed/index.ts:140-153 | the k-th uncached name on the page takes the k-th fetched row, and the rows come back in table order because the query has no `ORDER BY` | a page `[bob, alice]` with neither cached, alice's row before bob's: the page shows alice first, then bob | each name gets its own user's channel, in the feed's order | medium, not executed (depends on the database returning rows in table order) | Feed.AsWrittenReordersPage | Feed.ChannelsFromUsernames |
| client/src/components/EditAvatar.tsx:95-111 | a missing or oversized file returns early after setting the loading flag, and only a loaded preview clears it; the file input and its button are disabled while loading (lines 159, 163) | choosing a 3 MB file: the editor stays loading and no other file can be chosen | the early returns clear the loading flag | high, not executed | Avatar.AvatarEditor.ChooseFileAsWritten | Avatar.AvatarEditor.ChooseFile |
| client/src/components/EditAvatar.tsx:62-71 | the preview's error handler drops the preview but never clears the loading flag | choosing a corrupted PNG within 2 MB: the editor stays loading and no other file can be chosen | the error handler clears the loading flag | high, not executed | Avatar.AvatarEditor.PreviewFailedAsWritten | Avatar.AvatarEditor.PreviewFailed |
| client/src/components/EditAvatar.tsx:37-60 | the load handler is memoised with dependencies that leave out `previewUrl` (line 59), so it always reads the first render's `undefined` and lines 49-52 never revoke or drop a refused preview | choosing a 64x64 PNG: the file is marked invalid but its object URL stays set and is never revoked | a refused preview is revoked and dropped | high, not executed | Avatar.AvatarEditor.PreviewLoadedAsWritten | Avatar.AvatarEditor.PreviewLoaded |
