/** The stream lifecycle over HTTP (server/src/api/stream/start.ts and
    server/src/api/stream/end.ts): starting a stream inserts its row and
    makes it the user's current stream; ending it stamps the end time and
    clears the pointer, unless a publisher is still connected. Together
    with admission (the Ingest module) they keep the invariants of
    `Store.Consistent`. */
module StreamLifecycle {
  import opened Wrappers
  import opened Strings
  import opened Store

  /** The minimum length of a trimmed stream title. */
  const MinTitleLength := 6

  /** The 500 a handler answers with when its transaction throws `msg`. */
  function Thrown(msg: string): Failure {
    Failure(500, "An error occurred.", Some("Error: " + msg))
  }

  /** The outcome of `POST /stream`, with the tables and keys it leaves.
      The body is validated first (title trimmed to at least six
      characters, category trimmed); then the caller's row is read; a user
      already streaming gets a 400 and nothing is inserted; a category
      outside the enum makes the insert throw and the transaction roll back;
      otherwise a stream row is inserted, becomes the user's current stream,
      and the cached channel is dropped. */
  function StartSpec(t: Tables, k: Keys, caller: string, title: string, category: string, now: int)
    : (Result<nat, Failure>, Tables, Keys)
  {
    var title' := Trim(title);
    if |title'| < MinTitleLength then (Err(InvalidBody), t, k)
    else match Where(t.users, UserIdColumn, caller)
      case None => (Err(Thrown("User does not exist")), t, k)
      case Some(i) =>
        var u := t.users[i];
        if u.currentStreamId.Some? then (Err(Failure(400, "User is already streaming", None)), t, k)
        else match ParseCategory(Trim(category))
          case None => (Err(Failure(500, "An error occurred.", None)), t, k)
          case Some(c) =>
            var id := t.nextStreamId;
            (Ok(id),
             t.(users := t.users[i := u.(currentStreamId := Some(id))],
                streams := t.streams[id := StreamRow(u.userId, title', c, 0, now, None)],
                nextStreamId := id + 1),
             k.(channelInfo := k.channelInfo - {u.username}))
  }

  /** A start succeeds exactly when the trimmed title is long enough, the
      caller exists and is not streaming, and the trimmed category is one of
      the enum's labels. Then there is exactly one new row, open, owned by
      the caller, holding the trimmed title, and it is the caller's current
      stream; no other row changed. Otherwise nothing changed. */
  lemma StartOutcome(t: Tables, k: Keys, caller: string, title: string, category: string, now: int)
    requires WellFormed(t)
    ensures var (r, t', k') := StartSpec(t, k, caller, title, category, now);
      r.Ok? <==>
        (|Trim(title)| >= MinTitleLength && Where(t.users, UserIdColumn, caller).Some?
         && CurrentStreamOf(t.users, caller).None? && ParseCategory(Trim(category)).Some?)
    ensures var (r, t', k') := StartSpec(t, k, caller, title, category, now);
      r.Ok? ==>
        && r.value !in t.streams && t'.streams.Keys == t.streams.Keys + {r.value}
        && (forall id :: id in t.streams ==> t'.streams[id] == t.streams[id])
        && IsOpen(t', r.value) && t'.streams[r.value].userId == caller
        && t'.streams[r.value].title == Trim(title)
        && CurrentStreamOf(t'.users, caller) == Some(r.value)
    ensures var (r, t', k') := StartSpec(t, k, caller, title, category, now);
      r.Err? ==> t' == t && k' == k
  {
    var (r, t', k') := StartSpec(t, k, caller, title, category, now);
    if r.Ok? {
      var i := Where(t.users, UserIdColumn, caller).value;
      var u := t.users[i];
      WhereAfterUpdate(t.users, i, u.(currentStreamId := Some(r.value)), UserIdColumn, caller);
    }
  }

  /** Starting a stream keeps every invariant; in particular the caller,
      who had no open stream, now has exactly one. */
  lemma StartKeepsConsistent(t: Tables, k: Keys, caller: string, title: string, category: string, now: int)
    requires Consistent(t, k)
    ensures var (r, t', k') := StartSpec(t, k, caller, title, category, now);
      Consistent(t', k')
  {
    var (r, t', k') := StartSpec(t, k, caller, title, category, now);
    if r.Ok? {
      var i := Where(t.users, UserIdColumn, caller).value;
      var c := ParseCategory(Trim(category)).value;
      StartSpecAdmitsTables(t, k, caller, title, category, now, i, c);
      StartSpecAdmitsKeys(t, k, caller, title, category, now, i, c);
      InsertKeepsConsistent(t, k, i, Trim(title), c, now);
    }
  }

  /** Inserting an open stream for row `i`, which had none, and making it
      that row's current stream keeps every invariant. */
  lemma InsertKeepsConsistent(t: Tables, k: Keys, i: nat, title: string, c: Category, now: int)
    requires Consistent(t, k) && i < |t.users| && t.users[i].currentStreamId.None?
    ensures var id := t.nextStreamId;
      Consistent(t.(users := t.users[i := t.users[i].(currentStreamId := Some(id))],
                    streams := t.streams[id := StreamRow(t.users[i].userId, title, c, 0, now, None)],
                    nextStreamId := id + 1),
                 k.(channelInfo := k.channelInfo - {t.users[i].username}))
  {
    var id := t.nextStreamId;
    var u := t.users[i];
    var u' := u.(currentStreamId := Some(id));
    var t' := t.(users := t.users[i := u'],
                 streams := t.streams[id := StreamRow(u.userId, title, c, 0, now, None)],
                 nextStreamId := id + 1);
    forall v ensures Where(t'.users, UserIdColumn, v) == Where(t.users, UserIdColumn, v) {
      WhereAfterUpdate(t.users, i, u', UserIdColumn, v);
    }
    assert UniqueUsers(t'.users) by {
      forall a, b | 0 <= a < b < |t'.users|
        ensures t'.users[a].userId != t'.users[b].userId && t'.users[a].username != t'.users[b].username
      {
        assert t'.users[a].userId == t.users[a].userId && t'.users[a].username == t.users[a].username;
        assert t'.users[b].userId == t.users[b].userId && t'.users[b].username == t.users[b].username;
      }
    }
    forall j | 0 <= j < |t'.users| && t'.users[j].currentStreamId.Some?
      ensures IsOpen(t', t'.users[j].currentStreamId.value)
      ensures t'.streams[t'.users[j].currentStreamId.value].userId == t'.users[j].userId
    {
      if j != i {
        assert t'.users[j] == t.users[j];
      }
    }
    forall s | IsOpen(t', s)
      ensures CurrentStreamOf(t'.users, t'.streams[s].userId) == Some(s)
    {
      if s != id {
        var o := t.streams[s].userId;
        assert CurrentStreamOf(t.users, o) == Some(s);
        assert o != u.userId;
        var j := Where(t.users, UserIdColumn, o).value;
        assert t'.users[j] == t.users[j];
      }
    }
    forall uid | uid in k.rtmpConnected
      ensures CurrentStreamOf(t'.users, uid).Some?
    {
      var j := Where(t.users, UserIdColumn, uid).value;
      if j != i {
        assert t'.users[j] == t.users[j];
      }
    }
  }

  /** The outcome of `POST /stream/end`, with the tables and keys it
      leaves. A missing caller fails; a caller with no current stream
      succeeds without change; a connected publisher makes it fail without
      change; otherwise the current stream gets its end time, the pointer is
      cleared and the cached channel is dropped. */
  function EndSpec(t: Tables, k: Keys, caller: string, now: int): (Result<(), Failure>, Tables, Keys) {
    match Where(t.users, UserIdColumn, caller)
    case None => (Err(Thrown("User does not exist")), t, k)
    case Some(i) =>
      var u := t.users[i];
      if u.currentStreamId.None? then (Ok(()), t, k)
      else if u.userId in k.rtmpConnected then (Err(Thrown("Stream is connected")), t, k)
      else
        var id := u.currentStreamId.value;
        if id !in t.streams then (Err(Thrown("No stream updated")), t, k)
        else
          (Ok(()),
           t.(users := t.users[i := u.(currentStreamId := None)],
              streams := t.streams[id := t.streams[id].(endedAt := Some(now))]),
           k.(channelInfo := k.channelInfo - {u.username}))
  }

  /** A stream cannot be ended while its publisher is connected: the request
      fails and nothing changes. */
  lemma NoEndWhileConnected(t: Tables, k: Keys, caller: string, now: int)
    requires CurrentStreamOf(t.users, caller).Some? && caller in k.rtmpConnected
    ensures var (r, t', k') := EndSpec(t, k, caller, now);
      r == Err(Thrown("Stream is connected")) && t' == t && k' == k
  {
  }

  /** On well-formed tables an end request by an existing user that is not
      connected succeeds; afterwards the caller has no open stream, and the
      one that was current is closed at `now`. */
  lemma EndOutcome(t: Tables, k: Keys, caller: string, now: int)
    requires WellFormed(t)
    requires Where(t.users, UserIdColumn, caller).Some? && caller !in k.rtmpConnected
    ensures var (r, t', k') := EndSpec(t, k, caller, now);
      && r.Ok? && CurrentStreamOf(t'.users, caller).None?
      && (forall s :: IsOpen(t', s) ==> t'.streams[s].userId != caller)
      && (CurrentStreamOf(t.users, caller).Some? ==>
            t'.streams[CurrentStreamOf(t.users, caller).value].endedAt == Some(now))
  {
    var (r, t', k') := EndSpec(t, k, caller, now);
    var i := Where(t.users, UserIdColumn, caller).value;
    var u := t.users[i];
    if u.currentStreamId.Some? {
      var id := u.currentStreamId.value;
      WhereAfterUpdate(t.users, i, u.(currentStreamId := None), UserIdColumn, caller);
      forall s | IsOpen(t', s)
        ensures t'.streams[s].userId != caller
      {
        if t'.streams[s].userId == caller {
          AtMostOneOpenStream(t, s, id);
        }
      }
    }
  }

  /** Ending twice is ending once: the second request succeeds and changes
      nothing. */
  lemma EndIdempotent(t: Tables, k: Keys, caller: string, now: int, later: int)
    requires WellFormed(t)
    requires EndSpec(t, k, caller, now).0.Ok?
    ensures var (_, t1, k1) := EndSpec(t, k, caller, now);
      EndSpec(t1, k1, caller, later) == (Ok(()), t1, k1)
  {
    var i := Where(t.users, UserIdColumn, caller).value;
    var u := t.users[i];
    WhereAfterUpdate(t.users, i, u.(currentStreamId := None), UserIdColumn, caller);
  }

  /** Ending a stream keeps every invariant. */
  lemma EndKeepsConsistent(t: Tables, k: Keys, caller: string, now: int)
    requires Consistent(t, k)
    ensures var (r, t', k') := EndSpec(t, k, caller, now);
      Consistent(t', k')
  {
    var (r, t', k') := EndSpec(t, k, caller, now);
    var found := Where(t.users, UserIdColumn, caller);
    if r.Ok? && found.Some? && t.users[found.value].currentStreamId.Some? {
      var i := found.value;
      var u := t.users[i];
      var u' := u.(currentStreamId := None);
      var id := u.currentStreamId.value;
      forall v ensures Where(t'.users, UserIdColumn, v) == Where(t.users, UserIdColumn, v) {
        WhereAfterUpdate(t.users, i, u', UserIdColumn, v);
      }
      assert UniqueUsers(t'.users) by {
        forall a, b | 0 <= a < b < |t'.users|
          ensures t'.users[a].userId != t'.users[b].userId && t'.users[a].username != t'.users[b].username
        {
          assert t'.users[a].userId == t.users[a].userId && t'.users[a].username == t.users[a].username;
          assert t'.users[b].userId == t.users[b].userId && t'.users[b].username == t.users[b].username;
        }
      }
      forall j | 0 <= j < |t'.users| && t'.users[j].currentStreamId.Some?
        ensures IsOpen(t', t'.users[j].currentStreamId.value)
        ensures t'.streams[t'.users[j].currentStreamId.value].userId == t'.users[j].userId
      {
        assert j != i;
        assert t'.users[j] == t.users[j];
        var s := t.users[j].currentStreamId.value;
        assert t.streams[s].userId != t.streams[id].userId;
      }
      forall s | IsOpen(t', s)
        ensures CurrentStreamOf(t'.users, t'.streams[s].userId) == Some(s)
      {
        assert s != id;
        var o := t.streams[s].userId;
        var j := Where(t.users, UserIdColumn, o).value;
        assert j != i;
        assert t'.users[j] == t.users[j];
      }
      forall uid | uid in k'.rtmpConnected
        ensures CurrentStreamOf(t'.users, uid).Some?
      {
        var j := Where(t.users, UserIdColumn, uid).value;
        assert j != i;
        assert t'.users[j] == t.users[j];
      }
    }
  }

  /** A publisher is only ever admitted while its user's stream is open. */
  lemma ConnectedMeansOpen(t: Tables, k: Keys, uid: string)
    requires Consistent(t, k) && uid in k.rtmpConnected
    ensures IsOpen(t, CurrentStreamOf(t.users, uid).value)
  {
    var i := Where(t.users, UserIdColumn, uid).value;
    assert t.users[i].currentStreamId.Some?;
  }

  /** The tables the start specification leaves when every check passes. */
  lemma StartSpecAdmitsTables(t: Tables, k: Keys, caller: string, title: string, category: string, now: int,
                              i: nat, c: Category)
    requires |Trim(title)| >= MinTitleLength && Where(t.users, UserIdColumn, caller) == Some(i)
    requires i < |t.users| && t.users[i].currentStreamId.None? && ParseCategory(Trim(category)) == Some(c)
    ensures StartSpec(t, k, caller, title, category, now).1
         == t.(users := t.users[i := t.users[i].(currentStreamId := Some(t.nextStreamId))],
               streams := t.streams[t.nextStreamId := StreamRow(t.users[i].userId, Trim(title), c, 0, now, None)],
               nextStreamId := t.nextStreamId + 1)
  {
  }

  /** The result and keys the start specification gives when every check
      passes. */
  lemma StartSpecAdmitsKeys(t: Tables, k: Keys, caller: string, title: string, category: string, now: int,
                            i: nat, c: Category)
    requires |Trim(title)| >= MinTitleLength && Where(t.users, UserIdColumn, caller) == Some(i)
    requires i < |t.users| && t.users[i].currentStreamId.None? && ParseCategory(Trim(category)) == Some(c)
    ensures StartSpec(t, k, caller, title, category, now).0 == Ok(t.nextStreamId)
    ensures StartSpec(t, k, caller, title, category, now).2
         == k.(channelInfo := k.channelInfo - {t.users[i].username})
  {
  }

  /** The `POST /stream` handler's effect on the stores. */
  method StartStream(db: Database, cache: Cache, caller: string, title: string, category: string, now: int)
    returns (r: Result<nat, Failure>)
    modifies db`users, db`streams, db`nextStreamId, cache`channelInfo
    ensures r == StartSpec(old(db.Snapshot()), old(cache.Snapshot()), caller, title, category, now).0
    ensures db.Snapshot() == StartSpec(old(db.Snapshot()), old(cache.Snapshot()), caller, title, category, now).1
    ensures cache.Snapshot() == StartSpec(old(db.Snapshot()), old(cache.Snapshot()), caller, title, category, now).2
  {
    ghost var t0, k0 := db.Snapshot(), cache.Snapshot();
    var title' := Trim(title);
    if |title'| < MinTitleLength {
      return Err(InvalidBody);
    }
    var found := Where(db.users, UserIdColumn, caller);
    if found.None? {
      return Err(Thrown("User does not exist"));
    }
    var user := db.users[found.value];
    if user.currentStreamId.Some? {
      return Err(Failure(400, "User is already streaming", None));
    }
    var parsed := ParseCategory(Trim(category));
    if parsed.None? {
      return Err(Failure(500, "An error occurred.", None));
    }
    var id := InsertStream(db, found.value, title', parsed.value, now);
    cache.channelInfo := cache.channelInfo - {user.username};
    r := Ok(id);
    StartSpecAdmitsTables(t0, k0, caller, title, category, now, found.value, parsed.value);
    StartSpecAdmitsKeys(t0, k0, caller, title, category, now, found.value, parsed.value);
    assert db.Snapshot() == t0.(users := t0.users[found.value := user.(currentStreamId := Some(id))],
      streams := t0.streams[id := StreamRow(user.userId, title', parsed.value, 0, now, None)],
      nextStreamId := id + 1);
    assert cache.Snapshot() == k0.(channelInfo := k0.channelInfo - {user.username});
  }

  /** The transaction's writes: the stream row is inserted under the next
      serial id and becomes row `i`'s current stream. */
  method InsertStream(db: Database, i: nat, title: string, category: Category, now: int) returns (id: nat)
    requires i < |db.users|
    modifies db`users, db`streams, db`nextStreamId
    ensures id == old(db.nextStreamId) && db.nextStreamId == id + 1
    ensures db.streams == old(db.streams)[id := StreamRow(old(db.users)[i].userId, title, category, 0, now, None)]
    ensures db.users == old(db.users)[i := old(db.users)[i].(currentStreamId := Some(id))]
  {
    var user := db.users[i];
    id := db.nextStreamId;
    db.streams := db.streams[id := StreamRow(user.userId, title, category, 0, now, None)];
    db.nextStreamId := id + 1;
    db.users := db.users[i := user.(currentStreamId := Some(id))];
  }

  /** The `POST /stream/end` handler's effect on the stores. */
  method EndStream(db: Database, cache: Cache, caller: string, now: int) returns (r: Result<(), Failure>)
    modifies db`users, db`streams, cache`channelInfo
    ensures r == EndSpec(old(db.Snapshot()), old(cache.Snapshot()), caller, now).0
    ensures db.Snapshot() == EndSpec(old(db.Snapshot()), old(cache.Snapshot()), caller, now).1
    ensures cache.Snapshot() == EndSpec(old(db.Snapshot()), old(cache.Snapshot()), caller, now).2
  {
    var found := Where(db.users, UserIdColumn, caller);
    if found.None? {
      return Err(Thrown("User does not exist"));
    }
    var user := db.users[found.value];
    if user.currentStreamId.None? {
      return Ok(());
    }
    if user.userId in cache.rtmpConnected {
      return Err(Thrown("Stream is connected"));
    }
    var id := user.currentStreamId.value;
    if id !in db.streams {
      return Err(Thrown("No stream updated"));
    }
    db.streams := db.streams[id := db.streams[id].(endedAt := Some(now))];
    db.users := db.users[found.value := user.(currentStreamId := None)];
    cache.channelInfo := cache.channelInfo - {user.username};
    r := Ok(());
  }
}
