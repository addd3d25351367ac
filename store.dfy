/** The state the server's handlers share: the Postgres tables (`users`,
    `streams`, `followers`, `refresh_tokens`), the Redis keys, the directory
    the media server writes HLS output to, and the static directory that
    holds uploaded pictures.

    Each store is a class whose fields the handlers update in place, with a
    `Snapshot()` of its current value; the handlers' specifications are
    functions over snapshots, and the invariants the handlers keep are
    predicates over them. Tables are sequences in row order, because the
    handlers take "the first row" of a query that has no ORDER BY. */
module Store {
  import opened Wrappers

  /** The labels of the `stream_category` enum. */
  datatype Category = Gaming | Music | Art | Education | Tech | Sports | Creative | IRL | Politics | Alternative

  function CategoryLabel(c: Category): string {
    match c
    case Gaming => "Gaming"
    case Music => "Music"
    case Art => "Art"
    case Education => "Education"
    case Tech => "Tech"
    case Sports => "Sports"
    case Creative => "Creative"
    case IRL => "IRL"
    case Politics => "Politics"
    case Alternative => "Alternative"
  }

  /** The enum's labels in declaration order. */
  const Categories: seq<Category> :=
    [Gaming, Music, Art, Education, Tech, Sports, Creative, IRL, Politics, Alternative]

  /** The first category of `cs` labelled `s`. */
  function FindCategory(s: string, cs: seq<Category>): (r: Option<Category>)
    ensures r.Some? ==> r.value in cs && CategoryLabel(r.value) == s
    ensures r.None? ==> forall c :: c in cs ==> CategoryLabel(c) != s
  {
    if cs == [] then None
    else if CategoryLabel(cs[0]) == s then Some(cs[0])
    else FindCategory(s, cs[1..])
  }

  /** Postgres's cast of text to the enum: the text must be one of the labels,
      exactly; anything else makes the insert fail. */
  function ParseCategory(s: string): (r: Option<Category>)
    ensures r.Some? ==> CategoryLabel(r.value) == s
  {
    FindCategory(s, Categories)
  }

  /** Every label is accepted, as the category it names: every category is
      in the table and the labels are distinct. */
  lemma ParseCategoryLabel(c: Category)
    ensures ParseCategory(CategoryLabel(c)) == Some(c)
  {
    assert c in Categories by {
      match c
      case Gaming => assert Categories[0] == c;
      case Music => assert Categories[1] == c;
      case Art => assert Categories[2] == c;
      case Education => assert Categories[3] == c;
      case Tech => assert Categories[4] == c;
      case Sports => assert Categories[5] == c;
      case Creative => assert Categories[6] == c;
      case IRL => assert Categories[7] == c;
      case Politics => assert Categories[8] == c;
      case Alternative => assert Categories[9] == c;
    }
    var r := ParseCategory(CategoryLabel(c));
    match r.value
    case Gaming => case Music => case Art => case Education => case Tech =>
    case Sports => case Creative => case IRL => case Politics => case Alternative =>
  }

  /** A row of `users`. */
  datatype User = User(
    userId: string,
    username: string,
    email: string,
    profilePicture: Option<string>,
    profileBanner: Option<string>,
    bio: string,
    followerCount: int,
    streamKey: string,
    currentStreamId: Option<nat>,
    streamCategories: seq<Category>,
    lastStreamedAt: Option<int>)

  /** A row of `streams`, keyed by its serial id. */
  datatype StreamRow = StreamRow(
    userId: string,
    title: string,
    category: Category,
    peakViewers: int,
    startedAt: int,
    endedAt: Option<int>)

  /** A row of `refresh_tokens`. */
  datatype TokenRow = TokenRow(id: nat, userId: string, token: string, used: bool, expiresAt: int)

  /** What `channelInfoCache(username)` holds: the streamer's public details,
      and either the live stream's or the time of the last one. */
  datatype Channel = Channel(
    streamerUsername: string,
    streamerProfilePicture: Option<string>,
    streamerProfileBanner: Option<string>,
    streamerBio: string,
    streamerFollowers: int,
    status: ChannelStatus)

  datatype ChannelStatus =
    | Live(isConnected: bool, streamTitle: string, streamCategory: Category,
           streamStartedAt: int, viewerCount: int)
    | NotLive(lastStreamedAt: Option<int>)

  /** How a request fails: an `AppError` with its status, description and
      optional feedback, or the 400 whose description zod writes for a body
      that does not match the schema. */
  datatype Failure =
    | Failure(status: nat, description: string, feedback: Option<string>)
    | InvalidBody

  /** The columns the handlers look users up by. */
  datatype Column = UserIdColumn | UsernameColumn | StreamKeyColumn

  function ColumnValue(u: User, c: Column): string {
    match c
    case UserIdColumn => u.userId
    case UsernameColumn => u.username
    case StreamKeyColumn => u.streamKey
  }

  /** The index of the first row whose column `c` equals `v`. */
  function Where(users: seq<User>, c: Column, v: string): (r: Option<nat>)
    ensures r.Some? ==> r.value < |users| && ColumnValue(users[r.value], c) == v
    ensures r.Some? ==> forall j :: 0 <= j < r.value ==> ColumnValue(users[j], c) != v
    ensures r.None? ==> forall j :: 0 <= j < |users| ==> ColumnValue(users[j], c) != v
  {
    if users == [] then None
    else if ColumnValue(users[0], c) == v then Some(0)
    else match Where(users[1..], c, v)
      case Some(k) => Some(k + 1)
      case None => None
  }

  /** Rewriting a row without changing column `c` leaves every lookup by
      `c` where it was. */
  lemma {:induction false} WhereAfterUpdate(users: seq<User>, i: nat, u: User, c: Column, v: string)
    requires i < |users| && ColumnValue(u, c) == ColumnValue(users[i], c)
    ensures Where(users[i := u], c, v) == Where(users, c, v)
  {
    if i > 0 {
      assert users[i := u][1..] == users[1..][i - 1 := u];
      WhereAfterUpdate(users[1..], i - 1, u, c, v);
    }
  }

  /** With unique ids and usernames, looking up a row's own id or username
      finds that row. */
  lemma WhereUnique(users: seq<User>, c: Column, i: nat)
    requires UniqueUsers(users) && i < |users| && c != StreamKeyColumn
    ensures Where(users, c, ColumnValue(users[i], c)) == Some(i)
  {
    var w := Where(users, c, ColumnValue(users[i], c)).value;
    assert w <= i;
    assert ColumnValue(users[w], c) == ColumnValue(users[i], c);
  }

  /** The stream the user with this id is currently streaming, if any. */
  function CurrentStreamOf(users: seq<User>, userId: string): Option<nat> {
    match Where(users, UserIdColumn, userId)
    case Some(i) => users[i].currentStreamId
    case None => None
  }

  /** The value of the Postgres tables. A follower pair is (the
      follower's id, the followed user's id). */
  datatype Tables = Tables(
    users: seq<User>,
    streams: map<nat, StreamRow>,
    nextStreamId: nat,
    followers: set<(string, string)>,
    refreshTokens: seq<TokenRow>,
    nextTokenId: nat)

  ghost predicate UniqueUsers(users: seq<User>) {
    forall i, j :: 0 <= i < j < |users| ==>
      users[i].userId != users[j].userId && users[i].username != users[j].username
  }

  /** Which stream rows are open: those without an end time. */
  predicate IsOpen(t: Tables, id: nat) {
    id in t.streams && t.streams[id].endedAt.None?
  }

  /** What the schema and the handlers together maintain:
      user ids and usernames are unique (primary key and unique
      constraint); serial ids are below their sequence's next value and
      refresh-token ids increase in row order; follower pairs refer to users
      (foreign keys); a user's `currentStreamId` names an open stream of
      theirs, and every open stream is its user's current one. */
  ghost predicate WellFormed(t: Tables) {
    && UniqueUsers(t.users)
    && (forall id :: id in t.streams ==> id < t.nextStreamId)
    && (forall i :: 0 <= i < |t.users| && t.users[i].currentStreamId.Some? ==>
          IsOpen(t, t.users[i].currentStreamId.value)
          && t.streams[t.users[i].currentStreamId.value].userId == t.users[i].userId)
    && (forall id :: IsOpen(t, id) ==> CurrentStreamOf(t.users, t.streams[id].userId) == Some(id))
    && (forall p :: p in t.followers ==>
          Where(t.users, UserIdColumn, p.0).Some? && Where(t.users, UserIdColumn, p.1).Some?)
    && 1 <= t.nextTokenId
    && (forall k :: 0 <= k < |t.refreshTokens| ==> 1 <= t.refreshTokens[k].id < t.nextTokenId)
    && (forall j, k :: 0 <= j < k < |t.refreshTokens| ==> t.refreshTokens[j].id < t.refreshTokens[k].id)
  }

  /** A user has at most one open stream. */
  lemma AtMostOneOpenStream(t: Tables, a: nat, b: nat)
    requires WellFormed(t)
    requires IsOpen(t, a) && IsOpen(t, b) && t.streams[a].userId == t.streams[b].userId
    ensures a == b
  {
    assert CurrentStreamOf(t.users, t.streams[a].userId) == Some(a);
  }

  /** Rewriting one user's row keeps the tables well-formed as long as its
      id and current stream stay and its username stays unique. */
  lemma RowUpdateKeepsWellFormed(t: Tables, i: nat, u: User)
    requires WellFormed(t) && i < |t.users|
    requires u.userId == t.users[i].userId && u.currentStreamId == t.users[i].currentStreamId
    requires forall j :: 0 <= j < |t.users| && j != i ==> t.users[j].username != u.username
    ensures WellFormed(t.(users := t.users[i := u]))
  {
    var t' := t.(users := t.users[i := u]);
    forall v ensures Where(t'.users, UserIdColumn, v) == Where(t.users, UserIdColumn, v) {
      WhereAfterUpdate(t.users, i, u, UserIdColumn, v);
    }
    assert forall id :: IsOpen(t', id) <==> IsOpen(t, id);
    forall v ensures CurrentStreamOf(t'.users, v) == CurrentStreamOf(t.users, v) {
      var w := Where(t.users, UserIdColumn, v);
      if w.Some? && w.value == i {
      }
    }
  }

  /** A cached feed and the time its sixty-second lifetime ends. */
  datatype FeedEntry = FeedEntry(usernames: seq<string>, expiresAt: int)

  /** The value of the Redis keys; `clock` is the server's time in seconds,
      against which `EX` lifetimes expire. The feed key of an anonymous
      visitor is `None`. */
  datatype Keys = Keys(
    clock: int,
    rtmpConnected: set<string>,
    channelInfo: map<string, Channel>,
    userProfile: set<string>,
    invalidStreamKey: map<string, int>,
    userFeed: map<Option<string>, FeedEntry>,
    lastSessionInvalidation: map<string, int>)

  /** A `GET invalidStreamKey(key)` finds the key: it was set and its
      lifetime has not ended. */
  predicate InvalidKeyCached(k: Keys, key: string) {
    key in k.invalidStreamKey && k.clock < k.invalidStreamKey[key]
  }

  predicate FeedCached(k: Keys, user: Option<string>) {
    user in k.userFeed && k.clock < k.userFeed[user].expiresAt
  }

  /** Across the two stores: a publisher is flagged connected only while
      its user has an open stream. */
  ghost predicate Consistent(t: Tables, k: Keys) {
    WellFormed(t) && forall uid :: uid in k.rtmpConnected ==> CurrentStreamOf(t.users, uid).Some?
  }

  class Database {
    var users: seq<User>
    var streams: map<nat, StreamRow>
    var nextStreamId: nat
    var followers: set<(string, string)>
    var refreshTokens: seq<TokenRow>
    var nextTokenId: nat

    function Snapshot(): Tables
      reads this
    {
      Tables(users, streams, nextStreamId, followers, refreshTokens, nextTokenId)
    }

    /** Empty tables; both sequences start at 1. */
    constructor ()
      ensures Snapshot() == Tables([], map[], 1, {}, [], 1)
      ensures WellFormed(Snapshot())
    {
      users, streams, nextStreamId := [], map[], 1;
      followers, refreshTokens, nextTokenId := {}, [], 1;
    }
  }

  class Cache {
    var clock: int
    var rtmpConnected: set<string>
    var channelInfo: map<string, Channel>
    var userProfile: set<string>
    var invalidStreamKey: map<string, int>
    var userFeed: map<Option<string>, FeedEntry>
    var lastSessionInvalidation: map<string, int>

    function Snapshot(): Keys
      reads this
    {
      Keys(clock, rtmpConnected, channelInfo, userProfile, invalidStreamKey, userFeed, lastSessionInvalidation)
    }

    constructor (now: int)
      ensures Snapshot() == Keys(now, {}, map[], {}, map[], map[], map[])
    {
      clock, rtmpConnected, channelInfo, userProfile := now, {}, map[], {};
      invalidStreamKey, userFeed, lastSessionInvalidation := map[], map[], map[];
    }

    /** Time passes; keys whose lifetime ends stop being found. */
    method Tick(seconds: nat)
      modifies this`clock
      ensures clock == old(clock) + seconds
    {
      clock := clock + seconds;
    }
  }

  /** An entry under the media root. */
  datatype MediaEntry = Directory | File(content: string)

  /** The directory the media server writes to, as a map from paths
      (relative to the root, one component per element) to entries. */
  class MediaRoot {
    var entries: map<seq<string>, MediaEntry>

    constructor ()
      ensures entries == map[]
    {
      entries := map[];
    }
  }

  /** `fs.rm(path, { recursive: true, force: true })`: the entry and
      everything below it go; a path that is not there is no error. */
  function RemoveTree(entries: map<seq<string>, MediaEntry>, path: seq<string>): (r: map<seq<string>, MediaEntry>)
    ensures forall p :: p in r <==> p in entries && !(|path| <= |p| && p[..|path|] == path)
    ensures forall p :: p in r ==> r[p] == entries[p]
  {
    map p | p in entries && !(|path| <= |p| && p[..|path|] == path) :: entries[p]
  }

  /** Removing a tree a second time finds nothing left to remove. */
  lemma RemoveTreeIdempotent(entries: map<seq<string>, MediaEntry>, path: seq<string>)
    ensures RemoveTree(RemoveTree(entries, path), path) == RemoveTree(entries, path)
  {
  }

  /** Two removals give the same tree in either order. */
  lemma RemoveTreeCommutes(entries: map<seq<string>, MediaEntry>, a: seq<string>, b: seq<string>)
    ensures RemoveTree(RemoveTree(entries, a), b) == RemoveTree(RemoveTree(entries, b), a)
  {
  }

  /** The static directory uploaded pictures are written to. */
  class StaticDir {
    var files: set<string>

    constructor ()
      ensures files == {}
    {
      files := {};
    }
  }
}
