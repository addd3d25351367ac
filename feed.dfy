/** The home feed and the channel cache (server/src/lib/feed/index.ts).
    A viewer's feed is the usernames of live channels: those they follow,
    those streaming in their preferred categories, and the trending ones,
    without repeats, cached for a minute. It is served in pages through an
    opaque cursor, and each page's usernames are turned into channel
    records, from the channel cache where present and from the tables
    otherwise. */
module Feed {
  import opened Wrappers
  import opened Strings
  import Base64Url
  import opened Store

  const FeedCacheTtl := 60
  const MaxFeedSearch := 200
  const DefaultPageSize := 10
  const MaxPageSize := 20

  function Min(a: int, b: int): int {
    if a <= b then a else b
  }

  /** The first `n` elements, or all of them when there are fewer. */
  function Take<T>(s: seq<T>, n: nat): (r: seq<T>)
    ensures |r| <= n && r <= s
    ensures |s| <= n ==> r == s
  {
    if |s| <= n then s else s[..n]
  }

  // ---------------------------------------------------------------------
  // Page size and cursor

  /** What a router passes: an optional page size and an optional cursor. */
  datatype PageOptions = PageOptions(limit: Option<int>, cursor: Option<string>)

  /** The page size: the default without options or without a limit, and
      otherwise the requested limit capped at the maximum. */
  function PageSize(options: Option<PageOptions>): int {
    if options.None? then DefaultPageSize
    else match options.value.limit
      case None => DefaultPageSize
      case Some(l) => Min(l, MaxPageSize)
  }

  /** Never above the maximum; the requested size whenever it is allowed. */
  lemma PageSizeClamped(options: Option<PageOptions>)
    ensures PageSize(options) <= MaxPageSize
    ensures options.Some? && options.value.limit.Some? ==>
      (PageSize(options) == options.value.limit.value <==> options.value.limit.value <= MaxPageSize)
    ensures options.None? || options.value.limit.None? ==> PageSize(options) == DefaultPageSize
  {
  }

  /** `Buffer.from(text)` for text of decimal digits: one byte per character. */
  function DigitBytes(s: string): (r: seq<Base64Url.Byte>)
    requires AllDigits(s)
    ensures |r| == |s|
  {
    seq(|s|, i requires 0 <= i < |s| => s[i] as int)
  }

  /** `buffer.toString("ascii")`: each byte with its high bit cleared. */
  function AsciiText(b: seq<Base64Url.Byte>): (r: string)
    ensures |r| == |b|
  {
    seq(|b|, i requires 0 <= i < |b| => (b[i] % 128) as char)
  }

  /** The cursor handed out for the next page: base64url of the decimal
      index where it starts. */
  function EncodeCursor(end: nat): (r: string)
    ensures r != []
  {
    Base64Url.Encode(DigitBytes(NatToDecimal(end)))
  }

  const InvalidCursor := Failure(400, "Invalid cursor", None)

  /** Where a page starts: 0 without a cursor (an empty one included), else
      the cursor's base64url decoding read as ASCII and through `parseInt`;
      NaN or a negative number is an invalid cursor. */
  function StartOf(options: Option<PageOptions>): Result<nat, Failure> {
    if options.None? || options.value.cursor.None? || options.value.cursor.value == [] then Ok(0)
    else match ParseIntAuto(AsciiText(Base64Url.Decode(options.value.cursor.value)))
      case None => Err(InvalidCursor)
      case Some(n) => if n < 0 then Err(InvalidCursor) else Ok(n)
  }

  lemma AsciiOfDigits(s: string)
    requires AllDigits(s)
    ensures AsciiText(DigitBytes(s)) == s
  {
  }

  /** Handing a cursor back resumes exactly where it said. */
  lemma CursorRoundTrip(end: nat, limit: Option<int>)
    ensures StartOf(Some(PageOptions(limit, Some(EncodeCursor(end))))) == Ok(end)
  {
    var d := NatToDecimal(end);
    Base64Url.RoundTrip(DigitBytes(d));
    AsciiOfDigits(d);
    ParseAutoDecimal(end);
  }

  // ---------------------------------------------------------------------
  // Slicing a page

  /** A page of a feed: nothing (when the start is past the end), or the
      usernames to show and the index of the next page if there is more. */
  datatype PagePlan = NoPage | Slice(names: seq<string>, next: Option<nat>)

  /** `end = min(start + limit, length)`; an empty page when the start is
      past the end or the end is not positive; otherwise `slice(start, end)`,
      with a next index exactly when the end is short of the length. */
  function PlanPage(feed: seq<string>, start: nat, limit: int): PagePlan {
    var end := Min(start + limit, |feed|);
    if start >= |feed| || end <= 0 then NoPage
    else Slice(if end <= start then [] else feed[start..end], if end < |feed| then Some(end) else None)
  }

  /** For a positive page size: there is a page iff the start is inside
      the feed; it is the next `limit` usernames from the start, or all that
      are left, and the next page begins right after it. */
  lemma PlanPageContents(feed: seq<string>, start: nat, limit: int)
    requires limit >= 1
    ensures PlanPage(feed, start, limit).Slice? <==> start < |feed|
    ensures var p := PlanPage(feed, start, limit);
      p.Slice? ==>
        && 1 <= |p.names| <= limit && start + |p.names| <= |feed|
        && p.names == feed[start..start + |p.names|]
        && (|p.names| == limit || start + |p.names| == |feed|)
        && (p.next.Some? <==> start + |p.names| < |feed|)
        && (p.next.Some? ==> p.next.value == start + |p.names|)
  {
  }

  /** The usernames seen by following each page's next index from `start`
      to the end. */
  function PagesFrom(feed: seq<string>, start: nat, limit: int): seq<string>
    requires limit >= 1
    decreases |feed| - start
  {
    match PlanPage(feed, start, limit)
    case NoPage => []
    case Slice(names, next) =>
      names + (if next.Some? then PagesFrom(feed, next.value, limit) else [])
  }

  /** Paging through a feed shows every username once, in order: the pages
      are contiguous, disjoint and cover the rest of the feed. */
  lemma {:induction false} PagesCoverFeed(feed: seq<string>, start: nat, limit: int)
    requires limit >= 1 && start <= |feed|
    ensures PagesFrom(feed, start, limit) == feed[start..]
    decreases |feed| - start
  {
    PlanPageContents(feed, start, limit);
    match PlanPage(feed, start, limit)
    case NoPage =>
    case Slice(names, next) =>
      if next.Some? {
        PagesCoverFeed(feed, next.value, limit);
        assert feed[start..] == names + feed[next.value..];
      }
  }

  // ---------------------------------------------------------------------
  // Deduplication

  /** `[...new Set(s)]`: each username once, at its first occurrence. */
  function Dedup(s: seq<string>): seq<string> {
    if s == [] then []
    else
      var d := Dedup(s[..|s| - 1]);
      if s[|s| - 1] in d then d else d + [s[|s| - 1]]
  }

  lemma {:induction false} DedupMembers(s: seq<string>, x: string)
    ensures x in Dedup(s) <==> x in s
  {
    if s != [] {
      DedupMembers(s[..|s| - 1], x);
      assert s == s[..|s| - 1] + [s[|s| - 1]];
    }
  }

  lemma {:induction false} DedupDistinct(s: seq<string>)
    ensures forall i, j :: 0 <= i < j < |Dedup(s)| ==> Dedup(s)[i] != Dedup(s)[j]
  {
    if s != [] {
      DedupDistinct(s[..|s| - 1]);
    }
  }

  /** The index of the first occurrence of `x`. */
  function IndexOf(s: seq<string>, x: string): (i: nat)
    requires x in s
    ensures i < |s| && s[i] == x
  {
    if s[0] == x then 0 else IndexOf(s[1..], x) + 1
  }

  lemma {:induction false} IndexOfAppend(p: seq<string>, x: string, y: string)
    requires y in p
    ensures IndexOf(p + [x], y) == IndexOf(p, y)
  {
    if p[0] != y {
      assert (p + [x])[1..] == p[1..] + [x];
      IndexOfAppend(p[1..], x, y);
    }
  }

  lemma {:induction false} IndexOfLast(p: seq<string>, x: string)
    requires x !in p
    ensures IndexOf(p + [x], x) == |p|
  {
    if p != [] {
      assert (p + [x])[1..] == p[1..] + [x];
      IndexOfLast(p[1..], x);
    }
  }

  /** The kept usernames appear in the order of their first occurrences. */
  lemma {:induction false} DedupFirstOccurrence(s: seq<string>)
    ensures var r := Dedup(s);
      forall i, j :: 0 <= i < j < |r| ==> r[i] in s && r[j] in s && IndexOf(s, r[i]) < IndexOf(s, r[j])
  {
    var r := Dedup(s);
    forall x | x in r ensures x in s {
      DedupMembers(s, x);
    }
    if s != [] {
      var p := s[..|s| - 1];
      var x := s[|s| - 1];
      assert s == p + [x];
      DedupFirstOccurrence(p);
      var d := Dedup(p);
      forall y | y in d ensures y in p && IndexOf(s, y) == IndexOf(p, y) {
        DedupMembers(p, y);
        IndexOfAppend(p, x, y);
      }
      if x !in d {
        DedupMembers(p, x);
        IndexOfLast(p, x);
      }
    }
  }

  /** Deduplicating a longer list only appends: the first list's usernames
      keep their places at the front. */
  lemma {:induction false} DedupPrefix(a: seq<string>, b: seq<string>)
    ensures Dedup(a) <= Dedup(a + b)
    decreases |b|
  {
    if b == [] {
      assert a + b == a;
    } else {
      var b' := b[..|b| - 1];
      assert (a + b)[..|a + b| - 1] == a + b';
      DedupPrefix(a, b');
    }
  }

  /** `[...new Set(names)]` as the loop over `names` that fills the set. */
  method UniqueInOrder(names: seq<string>) returns (r: seq<string>)
    ensures r == Dedup(names)
  {
    var seen: set<string> := {};
    r := [];
    var i := 0;
    while i < |names|
      invariant 0 <= i <= |names|
      invariant r == Dedup(names[..i])
      invariant forall x :: x in seen <==> x in r
    {
      assert names[..i + 1][..i] == names[..i];
      if names[i] !in seen {
        r := r + [names[i]];
        seen := seen + {names[i]};
      }
      i := i + 1;
    }
    assert names[..|names|] == names;
  }

  // ---------------------------------------------------------------------
  // Generating a feed

  /** The usernames of live users the viewer follows, in table order. */
  function FollowedLive(users: seq<User>, followers: set<(string, string)>, viewer: string): (r: seq<string>)
    ensures |r| <= |users|
  {
    if users == [] then []
    else
      var u := users[0];
      (if u.currentStreamId.Some? && (viewer, u.userId) in followers then [u.username] else [])
      + FollowedLive(users[1..], followers, viewer)
  }

  /** The owners of the open streams listed in `ranking`, in that order,
      restricted to the given categories when there are some. `ranking` is
      the stream ids in the order the database returns them for "most peak
      viewers first, then most recent first". */
  function StreamOwners(t: Tables, ranking: seq<nat>, categories: Option<seq<Category>>): (r: seq<string>)
    ensures |r| <= |ranking|
  {
    if ranking == [] then []
    else
      var id := ranking[0];
      var rest := StreamOwners(t, ranking[1..], categories);
      if IsOpen(t, id) && (categories.None? || t.streams[id].category in categories.value) then
        match Where(t.users, UserIdColumn, t.streams[id].userId)
        case Some(i) => [t.users[i].username] + rest
        case None => rest
      else rest
  }

  /** The order of the trending query: every open stream once, most peak
      viewers first and, among equals, the most recently started first. */
  ghost predicate Ranked(t: Tables, ranking: seq<nat>) {
    && (forall id :: id in ranking <==> IsOpen(t, id))
    && (forall i, j :: 0 <= i < j < |ranking| ==> ranking[i] != ranking[j])
    && (forall i, j :: 0 <= i < j < |ranking| && IsOpen(t, ranking[i]) && IsOpen(t, ranking[j]) ==>
          RankedBefore(t.streams[ranking[i]], t.streams[ranking[j]]))
  }

  predicate RankedBefore(a: StreamRow, b: StreamRow) {
    a.peakViewers > b.peakViewers || (a.peakViewers == b.peakViewers && a.startedAt >= b.startedAt)
  }

  /** A signed-in viewer is one with a non-empty id. */
  predicate SignedIn(viewer: Option<string>) {
    viewer.Some? && viewer.value != ""
  }

  const UserNotFound := Failure(500, "An error occurred", Some("User not found"))

  /** The three lists a feed is made of, each capped at 200, concatenated:
      followed live users and live users in the viewer's categories (only
      for a signed-in viewer who exists), then the trending ones. */
  function FeedSources(t: Tables, viewer: Option<string>, ranking: seq<nat>): seq<string> {
    var trending := Take(StreamOwners(t, ranking, None), MaxFeedSearch);
    if SignedIn(viewer) then
      match Where(t.users, UserIdColumn, viewer.value)
      case None => trending
      case Some(i) =>
        var following := Take(FollowedLive(t.users, t.followers, viewer.value), MaxFeedSearch);
        var categories := t.users[i].streamCategories;
        var inCategories := if categories == [] then [] else Take(StreamOwners(t, ranking, Some(categories)), MaxFeedSearch);
        following + inCategories + trending
    else trending
  }

  /** `generateUserFeed`: an unknown signed-in viewer fails; otherwise the
      sources without repeats, stored under the viewer's feed key for sixty
      seconds. */
  function GenerateFeedSpec(t: Tables, k: Keys, viewer: Option<string>, ranking: seq<nat>)
    : (Result<seq<string>, Failure>, Keys)
  {
    if SignedIn(viewer) && Where(t.users, UserIdColumn, viewer.value).None? then (Err(UserNotFound), k)
    else
      var feed := Dedup(FeedSources(t, viewer, ranking));
      (Ok(feed), k.(userFeed := k.userFeed[viewer := FeedEntry(feed, k.clock + FeedCacheTtl)]))
  }

  /** A generated feed holds every username of its sources and nothing
      else, each once; the followed channels come first; and it is served
      from the cache for exactly the next sixty seconds. */
  lemma GeneratedFeedShape(t: Tables, k: Keys, viewer: Option<string>, ranking: seq<nat>)
    ensures var (r, k') := GenerateFeedSpec(t, k, viewer, ranking);
      r.Ok? ==>
        && (forall x :: x in r.value <==> x in FeedSources(t, viewer, ranking))
        && (forall i, j :: 0 <= i < j < |r.value| ==> r.value[i] != r.value[j])
        && FeedCached(k', viewer) && k'.userFeed[viewer].usernames == r.value
        && !FeedCached(k'.(clock := k.clock + FeedCacheTtl), viewer)
    ensures var (r, k') := GenerateFeedSpec(t, k, viewer, ranking);
      r.Err? <==> SignedIn(viewer) && Where(t.users, UserIdColumn, viewer.value).None?
  {
    var s := FeedSources(t, viewer, ranking);
    forall x ensures x in Dedup(s) <==> x in s {
      DedupMembers(s, x);
    }
    DedupDistinct(s);
  }

  /** A signed-in viewer's followed live channels lead the feed. */
  lemma FollowedFirst(t: Tables, k: Keys, viewer: string, ranking: seq<nat>)
    requires viewer != "" && Where(t.users, UserIdColumn, viewer).Some?
    ensures Dedup(Take(FollowedLive(t.users, t.followers, viewer), MaxFeedSearch))
         <= GenerateFeedSpec(t, k, Some(viewer), ranking).0.value
  {
    var i := Where(t.users, UserIdColumn, viewer).value;
    var following := Take(FollowedLive(t.users, t.followers, viewer), MaxFeedSearch);
    var s := FeedSources(t, Some(viewer), ranking);
    assert s == following + s[|following|..];
    DedupPrefix(following, s[|following|..]);
  }

  /** A user who is live: their row points at a current stream. */
  ghost predicate IsLiveUsername(users: seq<User>, x: string) {
    exists i :: 0 <= i < |users| && users[i].username == x && users[i].currentStreamId.Some?
  }

  lemma {:induction false} FollowedAreLive(users: seq<User>, followers: set<(string, string)>, viewer: string, x: string)
    requires x in FollowedLive(users, followers, viewer)
    ensures IsLiveUsername(users, x)
  {
    if users[0].currentStreamId.Some? && (viewer, users[0].userId) in followers && x == users[0].username {
      assert users[0].username == x;
    } else {
      FollowedAreLive(users[1..], followers, viewer, x);
      var i :| 0 <= i < |users[1..]| && users[1..][i].username == x && users[1..][i].currentStreamId.Some?;
      assert users[i + 1] == users[1..][i];
    }
  }

  lemma {:induction false} OwnersAreLive(t: Tables, ranking: seq<nat>, categories: Option<seq<Category>>, x: string)
    requires WellFormed(t) && x in StreamOwners(t, ranking, categories)
    ensures IsLiveUsername(t.users, x)
  {
    var id := ranking[0];
    var rest := StreamOwners(t, ranking[1..], categories);
    if x in rest {
      OwnersAreLive(t, ranking[1..], categories, x);
    } else {
      var i := Where(t.users, UserIdColumn, t.streams[id].userId).value;
      assert CurrentStreamOf(t.users, t.streams[id].userId) == Some(id);
      assert t.users[i].username == x && t.users[i].currentStreamId.Some?;
    }
  }

  /** On well-formed tables a feed only ever lists users who are live. */
  lemma FeedOnlyLive(t: Tables, k: Keys, viewer: Option<string>, ranking: seq<nat>, x: string)
    requires WellFormed(t)
    requires GenerateFeedSpec(t, k, viewer, ranking).0.Ok?
    requires x in GenerateFeedSpec(t, k, viewer, ranking).0.value
    ensures IsLiveUsername(t.users, x)
  {
    var s := FeedSources(t, viewer, ranking);
    DedupMembers(s, x);
    var trending := StreamOwners(t, ranking, None);
    if x in Take(trending, MaxFeedSearch) {
      OwnersAreLive(t, ranking, None, x);
    } else {
      var i := Where(t.users, UserIdColumn, viewer.value).value;
      var following := FollowedLive(t.users, t.followers, viewer.value);
      var categories := t.users[i].streamCategories;
      if x in Take(following, MaxFeedSearch) {
        FollowedAreLive(t.users, t.followers, viewer.value, x);
      } else {
        OwnersAreLive(t, ranking, Some(categories), x);
      }
    }
  }

  lemma {:induction false} OwnerListed(t: Tables, ranking: seq<nat>, id: nat, i: nat)
    requires id in ranking && IsOpen(t, id)
    requires Where(t.users, UserIdColumn, t.streams[id].userId) == Some(i)
    ensures t.users[i].username in StreamOwners(t, ranking, None)
  {
    if ranking[0] != id {
      OwnerListed(t, ranking[1..], id, i);
    }
  }

  /** With at most 200 live streams, the anonymous feed lists every live
      user. */
  lemma EveryLiveUserTrends(t: Tables, k: Keys, ranking: seq<nat>, u: nat)
    requires WellFormed(t) && Ranked(t, ranking) && |ranking| <= MaxFeedSearch
    requires u < |t.users| && t.users[u].currentStreamId.Some?
    ensures t.users[u].username in GenerateFeedSpec(t, k, None, ranking).0.value
  {
    var id := t.users[u].currentStreamId.value;
    WhereUnique(t.users, UserIdColumn, u);
    OwnerListed(t, ranking, id, u);
    DedupMembers(FeedSources(t, None, ranking), t.users[u].username);
  }

  /** `generateUserFeed` against the stores. */
  method GenerateUserFeed(db: Database, cache: Cache, viewer: Option<string>, ranking: seq<nat>)
    returns (r: Result<seq<string>, Failure>)
    modifies cache`userFeed
    ensures r == GenerateFeedSpec(db.Snapshot(), old(cache.Snapshot()), viewer, ranking).0
    ensures cache.Snapshot() == GenerateFeedSpec(db.Snapshot(), old(cache.Snapshot()), viewer, ranking).1
  {
    if SignedIn(viewer) && Where(db.users, UserIdColumn, viewer.value).None? {
      return Err(UserNotFound);
    }
    var feed := UniqueInOrder(FeedSources(db.Snapshot(), viewer, ranking));
    cache.userFeed := cache.userFeed[viewer := FeedEntry(feed, cache.clock + FeedCacheTtl)];
    r := Ok(feed);
  }

  // ---------------------------------------------------------------------
  // Channels of a page

  /** The channel record of a user fetched from the tables: live when
      their current stream row exists, with the connection flag from the
      cache and no viewers counted; otherwise not live, with the time they
      last streamed. */
  function ChannelOf(t: Tables, k: Keys, u: User): Channel {
    var status :=
      if u.currentStreamId.Some? && u.currentStreamId.value in t.streams then
        var s := t.streams[u.currentStreamId.value];
        Live(s.userId in k.rtmpConnected, s.title, s.category, s.startedAt, 0)
      else NotLive(u.lastStreamedAt);
    Channel(u.username, u.profilePicture, u.profileBanner, u.bio, u.followerCount, status)
  }

  /** On well-formed tables a fetched channel is live exactly when its user
      is streaming, shows that stream's title, and is connected exactly when
      a publisher is. */
  lemma ChannelShowsLiveness(t: Tables, k: Keys, i: nat)
    requires WellFormed(t) && i < |t.users|
    ensures var c := ChannelOf(t, k, t.users[i]);
      && c.streamerUsername == t.users[i].username
      && (c.status.Live? <==> t.users[i].currentStreamId.Some?)
      && (c.status.Live? ==>
            && (c.status.isConnected <==> t.users[i].userId in k.rtmpConnected)
            && c.status.streamTitle == t.streams[t.users[i].currentStreamId.value].title
            && c.status.viewerCount == 0)
  {
  }

  /** The usernames whose channel is not cached, in page order. */
  function Misses(cached: map<string, Channel>, names: seq<string>): (r: seq<string>)
    ensures |r| <= |names|
  {
    if names == [] then []
    else
      var x := names[|names| - 1];
      Misses(cached, names[..|names| - 1]) + (if x in cached then [] else [x])
  }

  /** The misses are exactly the page's uncached usernames. */
  lemma {:induction false} MissesMembers(cached: map<string, Channel>, names: seq<string>, x: string)
    ensures x in Misses(cached, names) <==> x in names && x !in cached
  {
    if names != [] {
      var front := names[..|names| - 1];
      assert names == front + [names[|names| - 1]];
      MissesMembers(cached, front, x);
    }
  }

  /** The users whose username is among `misses`, in table order, as
      channel records. */
  function Fetch(t: Tables, k: Keys, users: seq<User>, misses: seq<string>): seq<Channel> {
    if users == [] then []
    else (if users[0].username in misses then [ChannelOf(t, k, users[0])] else [])
         + Fetch(t, k, users[1..], misses)
  }

  /** The first fetched channel of the given streamer. */
  function FindByName(fetched: seq<Channel>, name: string): (r: Option<Channel>)
    ensures r.Some? ==> r.value in fetched && r.value.streamerUsername == name
    ensures r.None? ==> forall c :: c in fetched ==> c.streamerUsername != name
  {
    if fetched == [] then None
    else if fetched[0].streamerUsername == name then Some(fetched[0])
    else FindByName(fetched[1..], name)
  }

  lemma {:induction false} FetchFinds(t: Tables, k: Keys, users: seq<User>, misses: seq<string>, i: nat)
    requires i < |users| && users[i].username in misses
    ensures FindByName(Fetch(t, k, users, misses), users[i].username).Some?
  {
    var f := Fetch(t, k, users, misses);
    if i == 0 {
      assert f[0] == ChannelOf(t, k, users[0]);
    } else {
      FetchFinds(t, k, users[1..], misses, i - 1);
      var rest := Fetch(t, k, users[1..], misses);
      var c := FindByName(rest, users[i].username).value;
      assert c in f;
    }
  }

  /** The page's channels in the page's order: each username's cached
      record, else its fetched one, else nothing. */
  function InPageOrder(names: seq<string>, cached: map<string, Channel>, fetched: seq<Channel>): seq<Channel> {
    if names == [] then []
    else
      var n := names[|names| - 1];
      InPageOrder(names[..|names| - 1], cached, fetched)
      + (if n in cached then [cached[n]]
         else match FindByName(fetched, n)
           case Some(c) => [c]
           case None => [])
  }

  /** A channel cache in which every record is stored under its own
      streamer's username, as `cacheChannels` stores them. */
  ghost predicate KeyedByName(cached: map<string, Channel>) {
    forall n :: n in cached ==> cached[n].streamerUsername == n
  }

  /** When every username of a page has a record, the page shows each of
      them, in the page's order. */
  lemma {:induction false} InPageOrderShowsEach(names: seq<string>, cached: map<string, Channel>, fetched: seq<Channel>)
    requires KeyedByName(cached)
    requires forall x :: x in names ==> x in cached || FindByName(fetched, x).Some?
    ensures var r := InPageOrder(names, cached, fetched);
      |r| == |names| && forall i :: 0 <= i < |r| ==> r[i].streamerUsername == names[i]
  {
    if names != [] {
      var front := names[..|names| - 1];
      assert forall x :: x in front ==> x in names;
      InPageOrderShowsEach(front, cached, fetched);
    }
  }

  /** `cacheChannels`: every fetched record is stored under its username. */
  function CacheAll(cached: map<string, Channel>, fetched: seq<Channel>): (r: map<string, Channel>)
    ensures forall c :: c in fetched ==> c.streamerUsername in r
    ensures forall n :: n in r <==> n in cached || exists c :: c in fetched && c.streamerUsername == n
    decreases |fetched|
  {
    if fetched == [] then cached
    else CacheAll(cached[fetched[0].streamerUsername := fetched[0]], fetched[1..])
  }

  lemma {:induction false} CacheAllKeyed(cached: map<string, Channel>, fetched: seq<Channel>)
    requires KeyedByName(cached)
    ensures KeyedByName(CacheAll(cached, fetched))
    decreases |fetched|
  {
    if fetched != [] {
      CacheAllKeyed(cached[fetched[0].streamerUsername := fetched[0]], fetched[1..]);
    }
  }

  /** `getChannelsFromUsernames`: an empty page needs nothing; otherwise
      the uncached users are fetched, their records cached, and the page's
      channels returned in the page's order. */
  function ChannelsSpec(t: Tables, k: Keys, names: seq<string>): (seq<Channel>, Keys) {
    if names == [] then ([], k)
    else
      var fetched := Fetch(t, k, t.users, Misses(k.channelInfo, names));
      (InPageOrder(names, k.channelInfo, fetched), k.(channelInfo := CacheAll(k.channelInfo, fetched)))
  }

  /** A page of existing users comes back whole and in the feed's order;
      the cache stays keyed by username and then holds every one of them. */
  lemma ChannelsInFeedOrder(t: Tables, k: Keys, names: seq<string>)
    requires KeyedByName(k.channelInfo)
    requires forall x :: x in names ==> exists i :: 0 <= i < |t.users| && t.users[i].username == x
    ensures var (r, k') := ChannelsSpec(t, k, names);
      && |r| == |names| && (forall i :: 0 <= i < |r| ==> r[i].streamerUsername == names[i])
      && KeyedByName(k'.channelInfo)
      && (forall x :: x in names ==> x in k'.channelInfo)
  {
    if names != [] {
      var misses := Misses(k.channelInfo, names);
      var fetched := Fetch(t, k, t.users, misses);
      forall x | x in names && x !in k.channelInfo
        ensures FindByName(fetched, x).Some?
      {
        var i :| 0 <= i < |t.users| && t.users[i].username == x;
        MissesMembers(k.channelInfo, names, x);
        FetchFinds(t, k, t.users, misses, i);
      }
      InPageOrderShowsEach(names, k.channelInfo, fetched);
      CacheAllKeyed(k.channelInfo, fetched);
    }
  }

  /** `getChannelsFromUsernames` against the stores: a loop that collects
      the cache misses, one fetch, one write-back, and a loop that fills the
      page in order. */
  method ChannelsFromUsernames(db: Database, cache: Cache, names: seq<string>) returns (data: seq<Channel>)
    modifies cache`channelInfo
    ensures data == ChannelsSpec(db.Snapshot(), old(cache.Snapshot()), names).0
    ensures cache.Snapshot() == ChannelsSpec(db.Snapshot(), old(cache.Snapshot()), names).1
  {
    if |names| == 0 {
      return [];
    }
    var cached := cache.channelInfo;
    var missed := CollectMisses(cached, names);
    var fetched := Fetch(db.Snapshot(), cache.Snapshot(), db.users, missed);
    cache.channelInfo := CacheAll(cached, fetched);
    data := FillPage(names, cached, fetched);
  }

  /** The first loop of `getChannelsFromUsernames`: the usernames without a
      cached channel, in page order. */
  method CollectMisses(cached: map<string, Channel>, names: seq<string>) returns (missed: seq<string>)
    ensures missed == Misses(cached, names)
  {
    missed := [];
    var index := 0;
    while index < |names|
      invariant 0 <= index <= |names|
      invariant missed == Misses(cached, names[..index])
    {
      assert names[..index + 1][..index] == names[..index];
      if names[index] !in cached {
        missed := missed + [names[index]];
      }
      index := index + 1;
    }
    assert names[..|names|] == names;
  }

  /** The last loop of `getChannelsFromUsernames`: each username's cached
      channel, else its fetched one, else nothing. */
  method FillPage(names: seq<string>, cached: map<string, Channel>, fetched: seq<Channel>) returns (data: seq<Channel>)
    ensures data == InPageOrder(names, cached, fetched)
  {
    data := [];
    var index := 0;
    while index < |names|
      invariant 0 <= index <= |names|
      invariant data == InPageOrder(names[..index], cached, fetched)
    {
      assert names[..index + 1][..index] == names[..index];
      var name := names[index];
      if name in cached {
        data := data + [cached[name]];
      } else {
        var found := FindByName(fetched, name);
        if found.Some? {
          data := data + [found.value];
        }
      }
      index := index + 1;
    }
    assert names[..|names|] == names;
  }

  // ---------------------------------------------------------------------
  // The merge as the source writes it

  /** The merge loop as written: a cached slot keeps its record; the k-th
      uncached slot takes the k-th fetched record, if there is one. */
  function MergeAsWritten(slots: seq<Option<Channel>>, fetched: seq<Channel>): seq<Channel>
    decreases |slots|
  {
    if slots == [] then []
    else if slots[0].Some? then [slots[0].value] + MergeAsWritten(slots[1..], fetched)
    else if fetched == [] then MergeAsWritten(slots[1..], fetched)
    else [fetched[0]] + MergeAsWritten(slots[1..], fetched[1..])
  }

  function Hits(slots: seq<Option<Channel>>): (n: nat)
    ensures n <= |slots|
  {
    if slots == [] then 0 else (if slots[0].Some? then 1 else 0) + Hits(slots[1..])
  }

  function SlotsOf(cached: map<string, Channel>, names: seq<string>): seq<Option<Channel>> {
    seq(|names|, i requires 0 <= i < |names| => if names[i] in cached then Some(cached[names[i]]) else None)
  }

  /** The as-written page has one record per hit plus as many misses as
      were fetched. */
  lemma {:induction false} MergeAsWrittenLength(slots: seq<Option<Channel>>, fetched: seq<Channel>)
    ensures |MergeAsWritten(slots, fetched)| == Hits(slots) + Min(|slots| - Hits(slots), |fetched|)
  {
    if slots != [] {
      if slots[0].Some? || fetched == [] {
        MergeAsWrittenLength(slots[1..], fetched);
      } else {
        MergeAsWrittenLength(slots[1..], fetched[1..]);
      }
    }
  }

  function ChannelsAsWritten(t: Tables, k: Keys, names: seq<string>): seq<Channel> {
    MergeAsWritten(SlotsOf(k.channelInfo, names), Fetch(t, k, t.users, Misses(k.channelInfo, names)))
  }

  function Account(id: string, name: string): User {
    User(id, name, name + "@example.com", None, None, "", 0, id, None, [], None)
  }

  /** Two users, alice before bob in table order, neither streaming. */
  function ExampleTables(): Tables {
    Tables([Account("1", "alice"), Account("2", "bob")], map[], 1, {}, [], 1)
  }

  /** Empty Redis keys. */
  function ExampleKeys(): Keys {
    Keys(0, {}, map[], {}, map[], map[], map[])
  }

  /** With nothing cached, a page of bob then alice misses both, and the
      fetch returns them in table order. */
  lemma ExampleFetch()
    ensures Misses(ExampleKeys().channelInfo, ["bob", "alice"]) == ["bob", "alice"]
    ensures Fetch(ExampleTables(), ExampleKeys(), ExampleTables().users, ["bob", "alice"])
         == [ChannelOf(ExampleTables(), ExampleKeys(), Account("1", "alice")),
             ChannelOf(ExampleTables(), ExampleKeys(), Account("2", "bob"))]
  {
    var names := ["bob", "alice"];
    assert names[..1] == ["bob"];
    assert ExampleTables().users[1..] == [Account("2", "bob")];
  }

  /** Two uncached users requested in the opposite of table order: as
      written, the page comes back in table order, while the intended page
      keeps the feed's order. */
  lemma AsWrittenReordersPage()
    ensures var t := ExampleTables();
      var k := ExampleKeys();
      && ChannelsAsWritten(t, k, ["bob", "alice"])[0].streamerUsername == "alice"
      && ChannelsSpec(t, k, ["bob", "alice"]).0[0].streamerUsername == "bob"
  {
    var t, k := ExampleTables(), ExampleKeys();
    var names := ["bob", "alice"];
    ExampleFetch();
    var alice := ChannelOf(t, k, Account("1", "alice"));
    var bob := ChannelOf(t, k, Account("2", "bob"));
    var f := [alice, bob];
    var slots := SlotsOf(k.channelInfo, names);
    assert slots == [None, None];
    assert slots[1..] == [None];
    assert MergeAsWritten(slots, f) == [alice] + MergeAsWritten([None], [bob]);
    assert FindByName(f, "bob") == Some(bob);
    assert names[..1] == ["bob"];
    assert InPageOrder(["bob"], k.channelInfo, f) == [bob];
  }

  // ---------------------------------------------------------------------
  // Serving a page

  datatype Page = Page(feed: seq<Channel>, nextCursor: Option<string>)

  /** `paginateUserFeed`: the cursor is checked first; the viewer's cached
      feed is used while it lives, otherwise a new one is generated and the
      page starts at 0 whatever the cursor said; then the page is sliced
      and its channels looked up, with the cursor of the next page when
      there is more. */
  function PaginateSpec(t: Tables, k: Keys, viewer: Option<string>, options: Option<PageOptions>, ranking: seq<nat>)
    : (Result<Page, Failure>, Keys)
  {
    match StartOf(options)
    case Err(e) => (Err(e), k)
    case Ok(cursorStart) =>
      var (feedResult, k1, start) :=
        if FeedCached(k, viewer) then (Ok(k.userFeed[viewer].usernames), k, cursorStart)
        else
          var (r, k1) := GenerateFeedSpec(t, k, viewer, ranking);
          (r, k1, 0);
      match feedResult
      case Err(e) => (Err(e), k1)
      case Ok(feed) =>
        match PlanPage(feed, start, PageSize(options))
        case NoPage => (Ok(Page([], None)), k1)
        case Slice(names, next) =>
          var (channels, k2) := ChannelsSpec(t, k1, names);
          (Ok(Page(channels, if next.Some? then Some(EncodeCursor(next.value)) else None)), k2)
  }

  /** While the feed is cached, the cursor of a page leads to the page right
      after it: the next request starts where this page ended. */
  lemma NextCursorContinues(t: Tables, k: Keys, viewer: Option<string>, cursor: Option<string>, ranking: seq<nat>, start: nat)
    requires FeedCached(k, viewer)
    requires StartOf(Some(PageOptions(None, cursor))) == Ok(start)
    ensures var feed := k.userFeed[viewer].usernames;
      var (r, _) := PaginateSpec(t, k, viewer, Some(PageOptions(None, cursor)), ranking);
      r.Ok? && (r.value.nextCursor.Some? <==> start + DefaultPageSize < |feed|)
      && (r.value.nextCursor.Some? ==>
            StartOf(Some(PageOptions(None, r.value.nextCursor))) == Ok(start + DefaultPageSize))
  {
    var feed := k.userFeed[viewer].usernames;
    PlanPageContents(feed, start, DefaultPageSize);
    if start + DefaultPageSize < |feed| {
      CursorRoundTrip(start + DefaultPageSize, None);
    }
  }

  /** When the viewer's feed has expired, a valid cursor is ignored: the
      page is the first page of the new feed. */
  lemma ExpiredFeedRestarts(t: Tables, k: Keys, viewer: Option<string>, cursor: Option<string>, ranking: seq<nat>)
    requires !FeedCached(k, viewer)
    requires StartOf(Some(PageOptions(None, cursor))).Ok?
    ensures PaginateSpec(t, k, viewer, Some(PageOptions(None, cursor)), ranking)
         == PaginateSpec(t, k, viewer, Some(PageOptions(None, None)), ranking)
  {
  }

  /** `paginateUserFeed` against the stores. */
  method PaginateUserFeed(db: Database, cache: Cache, viewer: Option<string>, options: Option<PageOptions>, ranking: seq<nat>)
    returns (r: Result<Page, Failure>)
    modifies cache`userFeed, cache`channelInfo
    ensures r == PaginateSpec(db.Snapshot(), old(cache.Snapshot()), viewer, options, ranking).0
    ensures cache.Snapshot() == PaginateSpec(db.Snapshot(), old(cache.Snapshot()), viewer, options, ranking).1
  {
    var limit := PageSize(options);
    var start := StartOf(options);
    if start.Err? {
      return Err(start.error);
    }
    var feed: seq<string>;
    var from: nat := start.value;
    if FeedCached(cache.Snapshot(), viewer) {
      feed := cache.userFeed[viewer].usernames;
    } else {
      var generated := GenerateUserFeed(db, cache, viewer, ranking);
      if generated.Err? {
        return Err(generated.error);
      }
      feed := generated.value;
      from := 0;
    }
    var plan := PlanPage(feed, from, limit);
    if plan.NoPage? {
      return Ok(Page([], None));
    }
    var channels := ChannelsFromUsernames(db, cache, plan.names);
    r := Ok(Page(channels, if plan.next.Some? then Some(EncodeCursor(plan.next.value)) else None));
  }
}
