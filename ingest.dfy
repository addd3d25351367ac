/** The stateful half of the RTMP ingest core (server/src/lib/nms.ts): the
    `prePublish` handler that admits or rejects a publisher, the directory
    layout and master playlist that transcoding setup writes, and the
    `donePublish` cleanup. */
module Ingest {
  import opened Wrappers
  import opened Strings
  import opened Ladder
  import opened Store

  /** Seconds an unknown stream key stays in the negative cache. */
  const InvalidKeyTtl := 120

  /** `StreamPath.split("/")[2]`: the key of "/live/<key>". A path with
      fewer than three segments has no key. */
  function StreamKeyOf(path: string): (r: Option<string>)
    ensures r.Some? ==> '/' !in r.value
  {
    var parts := Split(path, '/');
    if |parts| >= 3 then Some(parts[2]) else None
  }

  /** For the paths the media server hands over, "/<app>/<key>", the key is
      the third segment. */
  lemma StreamKeyOfPublishPath(app: string, key: string)
    requires '/' !in app && '/' !in key
    ensures StreamKeyOf("/" + app + "/" + key) == Some(key)
  {
    var parts := ["", app, key];
    SplitJoin(parts, '/');
    assert Join(parts[2..], '/') == key;
    assert Join(parts[1..], '/') == app + ['/'] + key;
    assert Join(parts, '/') == "" + ['/'] + (app + ['/'] + key);
    assert "/" + app + "/" + key == "" + ['/'] + (app + ['/'] + key);
  }

  /** Why `prePublish` rejected a publisher, or that it admitted one. */
  datatype Admission =
    | CachedInvalidKey
    | UnknownKey
    | NotStreaming
    | AlreadyConnected
    | Admitted(userId: string, username: string)

  /** The checks of `prePublish`, in order, and what they leave in Redis:
      a negative-cache hit rejects before any lookup; a key no user has is
      cached as invalid for 120 seconds and rejected; a user without an open
      stream, or one already connected, is rejected; otherwise the user is
      flagged connected and their cached channel is dropped. */
  function AdmitSpec(t: Tables, k: Keys, key: string): (Admission, Keys) {
    if InvalidKeyCached(k, key) then (CachedInvalidKey, k)
    else match Where(t.users, StreamKeyColumn, key)
      case None =>
        (UnknownKey, k.(invalidStreamKey := k.invalidStreamKey[key := k.clock + InvalidKeyTtl]))
      case Some(i) =>
        var u := t.users[i];
        if u.currentStreamId.None? then (NotStreaming, k)
        else if u.userId in k.rtmpConnected then (AlreadyConnected, k)
        else (Admitted(u.userId, u.username),
              k.(rtmpConnected := k.rtmpConnected + {u.userId},
                 channelInfo := k.channelInfo - {u.username}))
  }

  /** `${undefined}`: the text the Redis key of a missing stream key is
      built from. */
  const MissingKeyText := "undefined"

  /** The admission `prePublish` runs for a publish path. A path with fewer
      than three segments has no key: the handler carries on with
      `undefined`, whose negative-cache entry is the one of the text
      "undefined", and whose users query binds SQL NULL, which no row
      equals. */
  function AdmitPathSpec(t: Tables, k: Keys, path: string): (Admission, Keys) {
    match StreamKeyOf(path)
    case Some(key) => AdmitSpec(t, k, key)
    case None => AdmitSpec(t.(users := []), k, MissingKeyText)
  }

  /** A path without a key is never admitted: it is rejected from the
      negative cache, or as an unknown key that is then cached as invalid
      for 120 seconds. */
  lemma MissingKeyRejected(t: Tables, k: Keys, path: string)
    requires StreamKeyOf(path).None?
    ensures var (a, k') := AdmitPathSpec(t, k, path);
      && (a == CachedInvalidKey <==> InvalidKeyCached(k, MissingKeyText))
      && (a == CachedInvalidKey ==> k' == k)
      && (a != CachedInvalidKey ==>
            a == UnknownKey
            && k' == k.(invalidStreamKey := k.invalidStreamKey[MissingKeyText := k.clock + InvalidKeyTtl]))
  {
  }

  /** A publisher is admitted exactly when the key is not cached as invalid,
      belongs to a user, and that user (the first with the key) has an open
      stream and no connected publisher; the admitted user becomes
      connected. */
  lemma AdmittedIff(t: Tables, k: Keys, key: string)
    ensures var (a, k') := AdmitSpec(t, k, key);
      a.Admitted? <==>
        (!InvalidKeyCached(k, key) && Where(t.users, StreamKeyColumn, key).Some?
         && t.users[Where(t.users, StreamKeyColumn, key).value].currentStreamId.Some?
         && t.users[Where(t.users, StreamKeyColumn, key).value].userId !in k.rtmpConnected)
    ensures var (a, k') := AdmitSpec(t, k, key);
      a.Admitted? ==>
        (a.userId !in k.rtmpConnected && k'.rtmpConnected == k.rtmpConnected + {a.userId}
         && a.username !in k'.channelInfo)
  {
  }

  /** Every rejection leaves the connected flags alone; only an unknown key
      writes anything, and that is the negative-cache entry. */
  lemma RejectionLeavesFlags(t: Tables, k: Keys, key: string)
    ensures var (a, k') := AdmitSpec(t, k, key);
      !a.Admitted? ==> k'.rtmpConnected == k.rtmpConnected && k'.channelInfo == k.channelInfo
    ensures var (a, k') := AdmitSpec(t, k, key);
      !a.Admitted? && a != UnknownKey ==> k' == k
  {
  }

  /** Admission keeps "connected implies an open stream". */
  lemma AdmitKeepsConsistent(t: Tables, k: Keys, key: string)
    requires Consistent(t, k)
    ensures Consistent(t, AdmitSpec(t, k, key).1)
  {
    var (a, k') := AdmitSpec(t, k, key);
    if a.Admitted? {
      var i := Where(t.users, StreamKeyColumn, key).value;
      var u := t.users[i];
      var j := Where(t.users, UserIdColumn, u.userId).value;
      assert j == i;
      assert CurrentStreamOf(t.users, u.userId).Some?;
    }
  }

  /** A second publisher with the same key, while the first is still
      connected, is rejected. */
  lemma SecondPublisherRejected(t: Tables, k: Keys, key: string)
    requires AdmitSpec(t, k, key).0.Admitted?
    ensures AdmitSpec(t, AdmitSpec(t, k, key).1, key).0 == AlreadyConnected
  {
  }

  /** Once a key is found unknown, every attempt with it during the next 120
      seconds is rejected from the cache, whatever the table holds by then. */
  lemma NegativeCacheHolds(t: Tables, k: Keys, key: string, t2: Tables, wait: nat)
    requires AdmitSpec(t, k, key).0 == UnknownKey
    requires wait < InvalidKeyTtl
    ensures var k2 := AdmitSpec(t, k, key).1.(clock := k.clock + wait);
      AdmitSpec(t2, k2, key) == (CachedInvalidKey, k2)
  {
  }

  /** The rendition directories `<username>/<name>`, added in ladder order. */
  function AddRenditionDirs(entries: map<seq<string>, MediaEntry>, username: string, ladder: seq<QualityPreset>)
    : map<seq<string>, MediaEntry>
  {
    if ladder == [] then entries
    else AddRenditionDirs(entries, username, ladder[..|ladder| - 1])[[username, ladder[|ladder| - 1].name] := Directory]
  }

  /** What transcoding setup leaves under the media root: the user's
      directory, one directory per rendition, and the master playlist. */
  function SetupSpec(entries: map<seq<string>, MediaEntry>, username: string, ladder: seq<QualityPreset>)
    : map<seq<string>, MediaEntry>
  {
    AddRenditionDirs(entries[[username] := Directory], username, ladder)
      [[username, "index.m3u8"] := File(MasterPlaylist(ladder))]
  }

  lemma {:induction false} RenditionDirsContents(entries: map<seq<string>, MediaEntry>, username: string,
                                                 ladder: seq<QualityPreset>)
    ensures var e := AddRenditionDirs(entries, username, ladder);
      && (forall q :: q in ladder ==> [username, q.name] in e && e[[username, q.name]] == Directory)
      && (forall p :: p in entries ==> p in e)
      && (forall p :: p in e && !(|p| == 2 && p[0] == username) ==> p in entries && e[p] == entries[p])
  {
    if ladder != [] {
      var init := ladder[..|ladder| - 1];
      RenditionDirsContents(entries, username, init);
      assert forall q :: q in ladder ==> q in init || q == ladder[|ladder| - 1];
    }
  }

  /** After setup the user's playlist is on disk with every rendition's
      directory beside it. */
  lemma SetupContents(entries: map<seq<string>, MediaEntry>, username: string, ladder: seq<QualityPreset>)
    requires forall q :: q in ladder ==> q.name != "index.m3u8"
    ensures var e := SetupSpec(entries, username, ladder);
      && e[[username, "index.m3u8"]] == File(MasterPlaylist(ladder))
      && [username] in e && e[[username]] == Directory
      && (forall q :: q in ladder ==> [username, q.name] in e && e[[username, q.name]] == Directory)
  {
    var e0 := entries[[username] := Directory];
    RenditionDirsContents(e0, username, ladder);
    var e1 := AddRenditionDirs(e0, username, ladder);
    assert [username] in e1 && e1[[username]] == Directory;
    forall q | q in ladder
      ensures [username, q.name] != [username, "index.m3u8"]
    {
      assert [username, q.name][1] != [username, "index.m3u8"][1];
    }
  }

  /** Setup changes nothing outside the user's directory. */
  lemma SetupKeepsOthers(entries: map<seq<string>, MediaEntry>, username: string, ladder: seq<QualityPreset>)
    ensures var e := SetupSpec(entries, username, ladder);
      forall p :: p in entries && (|p| == 0 || p[0] != username) ==> p in e && e[p] == entries[p]
  {
    var e0 := entries[[username] := Directory];
    RenditionDirsContents(e0, username, ladder);
    var e1 := AddRenditionDirs(e0, username, ladder);
    forall p | p in entries && (|p| == 0 || p[0] != username)
      ensures p in SetupSpec(entries, username, ladder) && SetupSpec(entries, username, ladder)[p] == entries[p]
    {
      assert p != [username] && p != [username, "index.m3u8"];
      assert p in e0 && e0[p] == entries[p];
      assert p in e1 && e1[p] == e0[p];
    }
  }

  /** The renditions' directory names are neither the playlist's name nor
      hold a line break. */
  lemma PresetNamesArePlain(h: int)
    ensures forall q :: q in ApplicableQualities(h) ==> q.name != "index.m3u8" && '\n' !in q.name
  {
  }

  /** How transcoding setup's file writes end. Creating the user's
      directory can fail, and then nothing is written; writing the master
      playlist can fail, and then the user's directory and the rendition
      directories are already there. Either failure rejects the session. */
  datatype SetupOutcome = SetupSucceeds | RootDirFails | PlaylistWriteFails

  /** What setup leaves under the media root for each outcome. */
  function SetupEffect(entries: map<seq<string>, MediaEntry>, username: string, ladder: seq<QualityPreset>,
                       setup: SetupOutcome): map<seq<string>, MediaEntry>
  {
    match setup
    case SetupSucceeds => SetupSpec(entries, username, ladder)
    case RootDirFails => entries
    case PlaylistWriteFails => AddRenditionDirs(entries[[username] := Directory], username, ladder)
  }

  /** Adding the rendition directories creates no entry under a name that
      is no rendition's. */
  lemma {:induction false} RenditionDirsOnly(entries: map<seq<string>, MediaEntry>, username: string,
                                             ladder: seq<QualityPreset>, name: string)
    requires forall q :: q in ladder ==> q.name != name
    requires [username, name] !in entries
    ensures [username, name] !in AddRenditionDirs(entries, username, ladder)
  {
    if ladder != [] {
      var init := ladder[..|ladder| - 1];
      assert forall q :: q in init ==> q in ladder;
      RenditionDirsOnly(entries, username, init, name);
      var last := ladder[|ladder| - 1];
      assert last in ladder;
      assert [username, last.name][1] != [username, name][1];
    }
  }

  /** A failed playlist write leaves the user's directory and every
      rendition directory behind, but no playlist. */
  lemma PlaylistFailureLeftovers(entries: map<seq<string>, MediaEntry>, username: string, ladder: seq<QualityPreset>)
    requires forall q :: q in ladder ==> q.name != "index.m3u8"
    requires [username, "index.m3u8"] !in entries
    ensures var e := SetupEffect(entries, username, ladder, PlaylistWriteFails);
      && [username] in e && e[[username]] == Directory
      && (forall q :: q in ladder ==> [username, q.name] in e && e[[username, q.name]] == Directory)
      && [username, "index.m3u8"] !in e
  {
    var e0 := entries[[username] := Directory];
    RenditionDirsContents(e0, username, ladder);
    assert [username, "index.m3u8"] != [username];
    RenditionDirsOnly(e0, username, ladder, "index.m3u8");
  }

  /** `startTranscoding`'s file writes: the user's directory, one directory
      per rendition (in ladder order), then the master playlist, stopping at
      the write that fails. */
  method WriteHlsLayout(media: MediaRoot, username: string, ladder: seq<QualityPreset>, setup: SetupOutcome)
    returns (ok: bool)
    modifies media
    ensures ok <==> setup == SetupSucceeds
    ensures media.entries == SetupEffect(old(media.entries), username, ladder, setup)
  {
    if setup == RootDirFails {
      return false;
    }
    media.entries := media.entries[[username] := Directory];
    ghost var start := media.entries;
    var i := 0;
    while i < |ladder|
      invariant 0 <= i <= |ladder|
      invariant media.entries == AddRenditionDirs(start, username, ladder[..i])
    {
      assert ladder[..i + 1][..i] == ladder[..i];
      media.entries := media.entries[[username, ladder[i].name] := Directory];
      i := i + 1;
    }
    assert ladder[..i] == ladder;
    if setup == PlaylistWriteFails {
      return false;
    }
    media.entries := media.entries[[username, "index.m3u8"] := File(MasterPlaylist(ladder))];
    ok := true;
  }

  /** The checks and Redis writes of `prePublish`, in the source's order. */
  method Admit(db: Database, cache: Cache, streamKey: string) returns (a: Admission)
    modifies cache`rtmpConnected, cache`channelInfo, cache`invalidStreamKey
    ensures a == AdmitSpec(db.Snapshot(), old(cache.Snapshot()), streamKey).0
    ensures cache.Snapshot() == AdmitSpec(db.Snapshot(), old(cache.Snapshot()), streamKey).1
  {
    if streamKey in cache.invalidStreamKey && cache.clock < cache.invalidStreamKey[streamKey] {
      return CachedInvalidKey;
    }
    var found := Where(db.users, StreamKeyColumn, streamKey);
    if found.None? {
      cache.invalidStreamKey := cache.invalidStreamKey[streamKey := cache.clock + InvalidKeyTtl];
      return UnknownKey;
    }
    var user := db.users[found.value];
    if user.currentStreamId.None? {
      return NotStreaming;
    }
    if user.userId in cache.rtmpConnected {
      return AlreadyConnected;
    }
    cache.rtmpConnected := cache.rtmpConnected + {user.userId};
    cache.channelInfo := cache.channelInfo - {user.username};
    a := Admitted(user.userId, user.username);
  }

  /** The `prePublish` handler. It answers whether the session keeps
      publishing. The Redis effects are those of the admission; an admitted
      publisher then runs setup, whose failure rejects the session but
      leaves the connected flag set and what was written so far on disk. */
  method PrePublish(db: Database, cache: Cache, media: MediaRoot, streamPath: string,
                    probe: ProbeOutcome, setup: SetupOutcome)
    returns (a: Admission, accepted: bool)
    modifies cache`rtmpConnected, cache`channelInfo, cache`invalidStreamKey, media
    ensures a == AdmitPathSpec(db.Snapshot(), old(cache.Snapshot()), streamPath).0
    ensures cache.Snapshot() == AdmitPathSpec(db.Snapshot(), old(cache.Snapshot()), streamPath).1
    ensures accepted <==> a.Admitted? && setup == SetupSucceeds
    ensures a.Admitted? ==>
      media.entries == SetupEffect(old(media.entries), a.username,
                                   ApplicableQualities(StreamResolution(probe).height), setup)
    ensures !a.Admitted? ==> media.entries == old(media.entries)
  {
    var key := StreamKeyOf(streamPath);
    if key.None? {
      a := RejectMissingKey(cache);
      return a, false;
    }
    a, accepted := PublishWithKey(db, cache, media, key.value, probe, setup);
  }

  /** `prePublish` for a path without a key: the negative-cache check and,
      since no row matches, the negative-cache write. */
  method RejectMissingKey(cache: Cache) returns (a: Admission)
    modifies cache`invalidStreamKey
    ensures forall t: Tables {:trigger AdmitSpec(t.(users := []), old(cache.Snapshot()), MissingKeyText)} ::
      a == AdmitSpec(t.(users := []), old(cache.Snapshot()), MissingKeyText).0
      && cache.Snapshot() == AdmitSpec(t.(users := []), old(cache.Snapshot()), MissingKeyText).1
  {
    if MissingKeyText in cache.invalidStreamKey && cache.clock < cache.invalidStreamKey[MissingKeyText] {
      return CachedInvalidKey;
    }
    cache.invalidStreamKey := cache.invalidStreamKey[MissingKeyText := cache.clock + InvalidKeyTtl];
    a := UnknownKey;
  }

  /** `prePublish` once the stream key has been read from the path. */
  method PublishWithKey(db: Database, cache: Cache, media: MediaRoot, key: string,
                        probe: ProbeOutcome, setup: SetupOutcome)
    returns (a: Admission, accepted: bool)
    modifies cache`rtmpConnected, cache`channelInfo, cache`invalidStreamKey, media
    ensures a == AdmitSpec(db.Snapshot(), old(cache.Snapshot()), key).0
    ensures cache.Snapshot() == AdmitSpec(db.Snapshot(), old(cache.Snapshot()), key).1
    ensures accepted <==> a.Admitted? && setup == SetupSucceeds
    ensures a.Admitted? ==>
      media.entries == SetupEffect(old(media.entries), a.username,
                                   ApplicableQualities(StreamResolution(probe).height), setup)
    ensures !a.Admitted? ==> media.entries == old(media.entries)
  {
    a := Admit(db, cache, key);
    if !a.Admitted? {
      return a, false;
    }
    var resolution := StreamResolution(probe);
    accepted := WriteHlsLayout(media, a.username, ApplicableQualities(resolution.height), setup);
  }

  /** How the two forced removals of `donePublish` end. `force` only
      silences a missing path; any other error jumps to the handler's catch
      and skips what follows. */
  datatype RemovalOutcome = RemovalsSucceed | MediaRemovalFails | ThumbnailRemovalFails

  /** What `donePublish` does for a stream key: for the first user with the
      key, remove their media directory, then their thumbnail, then drop
      their connected flag and cached channel, stopping at a removal that
      fails; for a key no user has, nothing. */
  function DoneSpec(t: Tables, k: Keys, entries: map<seq<string>, MediaEntry>, key: string,
                    removal: RemovalOutcome): (Keys, map<seq<string>, MediaEntry>)
  {
    match Where(t.users, StreamKeyColumn, key)
    case None => (k, entries)
    case Some(i) =>
      var u := t.users[i];
      var e1 := RemoveTree(entries, [u.username]);
      match removal
      case MediaRemovalFails => (k, entries)
      case ThumbnailRemovalFails => (k, e1)
      case RemovalsSucceed =>
        (k.(rtmpConnected := k.rtmpConnected - {u.userId}, channelInfo := k.channelInfo - {u.username}),
         RemoveTree(e1, [u.username + ".jpeg"]))
  }

  /** After cleanup the key's user is not connected and nothing of their
      stream is left on disk; cleaning up twice is cleaning up once. */
  lemma DoneCleansUp(t: Tables, k: Keys, entries: map<seq<string>, MediaEntry>, key: string)
    requires Where(t.users, StreamKeyColumn, key).Some?
    ensures var u := t.users[Where(t.users, StreamKeyColumn, key).value];
      var (k', e') := DoneSpec(t, k, entries, key, RemovalsSucceed);
      && u.userId !in k'.rtmpConnected && u.username !in k'.channelInfo
      && (forall p :: p in e' ==> !(|p| >= 1 && p[0] == u.username) && p != [u.username + ".jpeg"])
  {
  }

  lemma DoneIdempotent(t: Tables, k: Keys, entries: map<seq<string>, MediaEntry>, key: string)
    ensures var (k1, e1) := DoneSpec(t, k, entries, key, RemovalsSucceed);
      DoneSpec(t, k1, e1, key, RemovalsSucceed) == (k1, e1)
  {
    var (k1, e1) := DoneSpec(t, k, entries, key, RemovalsSucceed);
    match Where(t.users, StreamKeyColumn, key)
    case None =>
    case Some(i) =>
      var u := t.users[i];
      RemoveTreeAbsent(e1, [u.username]);
      RemoveTreeAbsent(e1, [u.username + ".jpeg"]);
      assert k1.rtmpConnected - {u.userId} == k1.rtmpConnected;
      assert k1.channelInfo - {u.username} == k1.channelInfo;
  }

  /** A failed removal leaves Redis as it was: the user stays flagged
      connected and their cached channel stays. A failed media removal
      leaves the disk as it was too; a failed thumbnail removal has already
      removed the media directory. */
  lemma FailedRemovalKeepsFlags(t: Tables, k: Keys, entries: map<seq<string>, MediaEntry>, key: string,
                                removal: RemovalOutcome)
    requires removal != RemovalsSucceed
    ensures DoneSpec(t, k, entries, key, removal).0 == k
    ensures removal == MediaRemovalFails ==> DoneSpec(t, k, entries, key, removal).1 == entries
    ensures removal == ThumbnailRemovalFails && Where(t.users, StreamKeyColumn, key).Some? ==>
      var u := t.users[Where(t.users, StreamKeyColumn, key).value];
      forall p :: p in DoneSpec(t, k, entries, key, removal).1 ==> !(|p| >= 1 && p[0] == u.username)
  {
  }

  lemma RemoveTreeAbsent(entries: map<seq<string>, MediaEntry>, path: seq<string>)
    requires forall p :: p in entries ==> !(|path| <= |p| && p[..|path|] == path)
    ensures RemoveTree(entries, path) == entries
  {
  }

  /** Cleanup only removes flags, so it keeps "connected implies an open
      stream". */
  lemma DoneKeepsConsistent(t: Tables, k: Keys, entries: map<seq<string>, MediaEntry>, key: string,
                            removal: RemovalOutcome)
    requires Consistent(t, k)
    ensures Consistent(t, DoneSpec(t, k, entries, key, removal).0)
  {
  }

  /** The `donePublish` handler. A path without a key runs the users query
      with SQL NULL, which matches no row, so nothing changes. */
  method DonePublish(db: Database, cache: Cache, media: MediaRoot, streamPath: string, removal: RemovalOutcome)
    modifies cache`rtmpConnected, cache`channelInfo, media
    ensures StreamKeyOf(streamPath).None? ==>
      cache.Snapshot() == old(cache.Snapshot()) && media.entries == old(media.entries)
    ensures StreamKeyOf(streamPath).Some? ==>
      cache.Snapshot() == DoneSpec(db.Snapshot(), old(cache.Snapshot()), old(media.entries),
                                   StreamKeyOf(streamPath).value, removal).0
    ensures StreamKeyOf(streamPath).Some? ==>
      media.entries == DoneSpec(db.Snapshot(), old(cache.Snapshot()), old(media.entries),
                                StreamKeyOf(streamPath).value, removal).1
  {
    var key := StreamKeyOf(streamPath);
    if key.None? {
      return;
    }
    var found := Where(db.users, StreamKeyColumn, key.value);
    if found.None? {
      return;
    }
    var user := db.users[found.value];
    if removal == MediaRemovalFails {
      return;
    }
    media.entries := RemoveTree(media.entries, [user.username]);
    if removal == ThumbnailRemovalFails {
      return;
    }
    media.entries := RemoveTree(media.entries, [user.username + ".jpeg"]);
    cache.rtmpConnected := cache.rtmpConnected - {user.userId};
    cache.channelInfo := cache.channelInfo - {user.username};
  }
}
