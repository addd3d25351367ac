/** Editing one's own profile (server/src/api/user/profile/username.ts,
    bio.ts and profilePicture.ts): each handler rewrites one column of the
    caller's row and drops the cache entries that showed the old value.
    Image decoding, the upload parser's body handling and hashing are
    foreign code: the image's metadata and the new file's hash are
    parameters. */
module Profile {
  import opened Wrappers
  import opened Strings
  import opened Store
  import Accounts

  // ---------------------------------------------------------------------
  // Username

  /** An `Error` thrown inside the handler: its feedback is
      `JSON.stringify(e)`, which is "{}" for an `Error`, whose message is
      not an own enumerable property. */
  const Thrown := Failure(500, "An error occurred", Some("{}"))
  const RenameWhileStreaming := Failure(400, "Cannot change username while streaming", None)
  const UsernameExists := Failure(400, "Username already exists", None)

  /** The body's rule for a new username: 1 to 69 characters, and left as
      it is by the sanitiser. */
  predicate ValidUsername(name: string) {
    1 <= |name| <= Accounts.MaxUsernameLength && Accounts.Sanitize(name, "_") == name
  }

  /** The rows `findMany` returns: those with the caller's id or the wanted
      name, in table order. */
  function Matching(users: seq<User>, caller: string, name: string): (r: seq<User>)
    ensures forall u :: u in r <==> u in users && (u.userId == caller || u.username == name)
  {
    if users == [] then []
    else (if users[0].userId == caller || users[0].username == name then [users[0]] else [])
         + Matching(users[1..], caller, name)
  }

  /** Filtering rows of distinct users leaves rows of distinct users. */
  lemma {:induction false} MatchingUnique(users: seq<User>, caller: string, name: string)
    requires UniqueUsers(users)
    ensures UniqueUsers(Matching(users, caller, name))
  {
    if users != [] {
      var rest := Matching(users[1..], caller, name);
      MatchingUnique(users[1..], caller, name);
      if users[0].userId == caller || users[0].username == name {
        var r := [users[0]] + rest;
        forall a, b | 0 <= a < b < |r| ensures r[a].userId != r[b].userId && r[a].username != r[b].username {
          assert r[b] == rest[b - 1] && rest[b - 1] in rest;
          var m :| 0 <= m < |users[1..]| && users[1..][m] == r[b];
          assert users[m + 1] == r[b];
          if a > 0 {
            assert r[a] == rest[a - 1];
          }
        }
      }
    }
  }

  /** `POST /user/profile/username` by `caller`; `name` is None when the
      body has no string `username`. */
  function RenameSpec(t: Tables, k: Keys, caller: string, name: Option<string>)
    : (Result<string, Failure>, Tables, Keys)
  {
    if name.None? || !ValidUsername(name.value) then (Err(InvalidBody), t, k)
    else
      var rows := Matching(t.users, caller, name.value);
      match RenameRefusal(rows, caller)
      case Some(e) => (Err(e), t, k)
      case None =>
        match Where(t.users, UserIdColumn, caller)
        case None => (Err(Thrown), t, k)
        case Some(i) =>
          (Ok(name.value),
           t.(users := t.users[i := t.users[i].(username := name.value)]),
           k.(channelInfo := k.channelInfo - {rows[0].username}))
  }

  /** The handler's checks on the returned rows, in its order: no row of
      the caller, the first row streaming, a second row. */
  function RenameRefusal(rows: seq<User>, caller: string): (r: Option<Failure>)
    ensures r.None? <==> |rows| == 1 && rows[0].userId == caller && rows[0].currentStreamId.None?
  {
    if |rows| == 0 || (|rows| == 1 && rows[0].userId != caller) then Some(Thrown)
    else if rows[0].currentStreamId.Some? then Some(RenameWhileStreaming)
    else if |rows| >= 2 then Some(UsernameExists)
    else None
  }

  /** With ids and names unique, `findMany` returns just the caller's row
      exactly when the caller exists and nobody else holds the name. */
  lemma MatchingJustCaller(users: seq<User>, caller: string, name: string)
    requires UniqueUsers(users)
    ensures var rows := Matching(users, caller, name);
      var w := Where(users, UserIdColumn, caller);
      (|rows| == 1 && rows[0].userId == caller) <==>
        (w.Some? && forall j :: 0 <= j < |users| && users[j].username == name ==> users[j].userId == caller)
    ensures var rows := Matching(users, caller, name);
      var w := Where(users, UserIdColumn, caller);
      |rows| == 1 && rows[0].userId == caller ==> rows[0] == users[w.value]
  {
    var rows := Matching(users, caller, name);
    var w := Where(users, UserIdColumn, caller);
    MatchingUnique(users, caller, name);
    if w.Some? {
      var i := w.value;
      assert users[i] in rows;
      if |rows| == 1 {
        assert rows[0] == users[i];
        forall j | 0 <= j < |users| && users[j].username == name ensures users[j].userId == caller {
          assert users[j] in rows;
        }
      } else {
        assert rows[0] in users && rows[1] in users;
        assert rows[0].userId != rows[1].userId;
        var h := if rows[0].userId != caller then rows[0] else rows[1];
        var j :| 0 <= j < |users| && users[j] == h;
        assert users[j].username == name && users[j].userId != caller;
      }
    } else if |rows| >= 1 {
      assert rows[0] in users;
      var j :| 0 <= j < |users| && users[j] == rows[0];
      assert rows[0].userId != caller;
    }
  }

  /** With ids and names unique, a rename succeeds exactly when the name is
      valid, the caller exists and is not streaming, and nobody else holds
      the name. */
  lemma RenameSucceedsIff(t: Tables, k: Keys, caller: string, name: string)
    requires UniqueUsers(t.users)
    ensures var w := Where(t.users, UserIdColumn, caller);
      RenameSpec(t, k, caller, Some(name)).0.Ok? <==>
        ValidUsername(name) && w.Some? && t.users[w.value].currentStreamId.None?
        && forall j :: 0 <= j < |t.users| && t.users[j].username == name ==> t.users[j].userId == caller
  {
    if ValidUsername(name) {
      MatchingJustCaller(t.users, caller, name);
    }
  }

  /** A successful rename changes only the caller's username and drops the
      cached channel under the old name; a refused one changes nothing. */
  lemma RenameEffect(t: Tables, k: Keys, caller: string, name: string)
    requires UniqueUsers(t.users)
    ensures var (r, t', k') := RenameSpec(t, k, caller, Some(name));
      var w := Where(t.users, UserIdColumn, caller);
      r.Ok? ==>
        && r.value == name
        && t' == t.(users := t.users[w.value := t.users[w.value].(username := name)])
        && k' == k.(channelInfo := k.channelInfo - {t.users[w.value].username})
    ensures var (r, t', k') := RenameSpec(t, k, caller, Some(name));
      r.Err? ==> t' == t && k' == k
  {
    if ValidUsername(name) {
      MatchingJustCaller(t.users, caller, name);
    }
  }

  /** A rename keeps ids and names unique and the rest of the tables
      well-formed. */
  lemma RenameKeepsWellFormed(t: Tables, k: Keys, caller: string, name: Option<string>)
    requires WellFormed(t)
    ensures WellFormed(RenameSpec(t, k, caller, name).1)
  {
    if name.Some? {
      RenameSucceedsIff(t, k, caller, name.value);
      RenameEffect(t, k, caller, name.value);
      var (r, t', k') := RenameSpec(t, k, caller, name);
      if r.Ok? {
        var i := Where(t.users, UserIdColumn, caller).value;
        forall j | 0 <= j < |t.users| && j != i ensures t.users[j].username != name.value {
          assert t.users[j].userId != caller;
        }
        RowUpdateKeepsWellFormed(t, i, t.users[i].(username := name.value));
      }
    }
  }

  /** Asking for one's own current name is allowed when not streaming. */
  lemma RenameToOwnName(t: Tables, k: Keys, i: nat)
    requires UniqueUsers(t.users) && i < |t.users|
    requires ValidUsername(t.users[i].username) && t.users[i].currentStreamId.None?
    ensures var (r, t', k') := RenameSpec(t, k, t.users[i].userId, Some(t.users[i].username));
      r == Ok(t.users[i].username) && t' == t
  {
    WhereUnique(t.users, UserIdColumn, i);
    RenameSucceedsIff(t, k, t.users[i].userId, t.users[i].username);
    RenameEffect(t, k, t.users[i].userId, t.users[i].username);
    forall j | 0 <= j < |t.users| && t.users[j].username == t.users[i].username
      ensures t.users[j].userId == t.users[i].userId
    {
      assert j == i;
    }
    assert t.users[i := t.users[i].(username := t.users[i].username)] == t.users;
  }

  /** Row order decides which refusal a taken name gets: when the holder of
      the name comes first and is streaming, the caller is told they may
      not rename while streaming, although they are not. */
  lemma TakenNameRefusalDependsOnOrder(holder: User, caller: User, name: string)
    requires holder.username == name && holder.userId != caller.userId && caller.username != name
    requires holder.currentStreamId.Some? && caller.currentStreamId.None?
    requires ValidUsername(name)
    ensures RenameSpec(Tables([holder, caller], map[], 1, {}, [], 1), Keys(0, {}, map[], {}, map[], map[], map[]),
                       caller.userId, Some(name)).0 == Err(RenameWhileStreaming)
    ensures RenameSpec(Tables([caller, holder], map[], 1, {}, [], 1), Keys(0, {}, map[], {}, map[], map[], map[]),
                       caller.userId, Some(name)).0 == Err(UsernameExists)
  {
    assert [caller][1..] == [] && [holder][1..] == [];
    assert Matching([caller], caller.userId, name) == [caller];
    assert Matching([holder], caller.userId, name) == [holder];
    var first := [holder, caller];
    assert first[1..] == [caller];
    assert Matching(first, caller.userId, name) == [holder, caller];
    var second := [caller, holder];
    assert second[1..] == [holder];
    assert Matching(second, caller.userId, name) == [caller, holder];
  }

  method Rename(db: Database, cache: Cache, caller: string, name: Option<string>)
    returns (r: Result<string, Failure>)
    modifies db`users, cache`channelInfo
    ensures r == RenameSpec(old(db.Snapshot()), old(cache.Snapshot()), caller, name).0
    ensures db.Snapshot() == RenameSpec(old(db.Snapshot()), old(cache.Snapshot()), caller, name).1
    ensures cache.Snapshot() == RenameSpec(old(db.Snapshot()), old(cache.Snapshot()), caller, name).2
  {
    if name.None? || !ValidUsername(name.value) {
      return Err(InvalidBody);
    }
    var rows := Matching(db.users, caller, name.value);
    var refusal := RenameRefusal(rows, caller);
    if refusal.Some? {
      return Err(refusal.value);
    }
    var found := Where(db.users, UserIdColumn, caller);
    if found.None? {
      return Err(Thrown);
    }
    db.users := db.users[found.value := db.users[found.value].(username := name.value)];
    cache.channelInfo := cache.channelInfo - {rows[0].username};
    r := Ok(name.value);
  }

  // ---------------------------------------------------------------------
  // Bio

  const MaxBioLength := 500
  const NoUser := Failure(400, "User does not exist", None)

  /** `POST /user/profile/bio` by `caller`: the bio is trimmed, then may be
      at most 500 characters. */
  function BioSpec(t: Tables, k: Keys, caller: string, bio: Option<string>)
    : (Result<string, Failure>, Tables, Keys)
  {
    if bio.None? || |Trim(bio.value)| > MaxBioLength then (Err(InvalidBody), t, k)
    else match Where(t.users, UserIdColumn, caller)
      case None => (Err(NoUser), t, k)
      case Some(i) =>
        (Ok(Trim(bio.value)),
         t.(users := t.users[i := t.users[i].(bio := Trim(bio.value))]),
         k.(channelInfo := k.channelInfo - {t.users[i].username}))
  }

  /** A bio update succeeds exactly when the trimmed bio fits and the
      caller exists; then the trimmed bio is stored and returned, no other
      column or row changes, and the caller's cached channel is dropped.
      The tables stay well-formed either way. */
  lemma BioOutcome(t: Tables, k: Keys, caller: string, bio: string)
    requires WellFormed(t)
    ensures var (r, t', k') := BioSpec(t, k, caller, Some(bio));
      var w := Where(t.users, UserIdColumn, caller);
      && (r.Ok? <==> |Trim(bio)| <= MaxBioLength && w.Some?)
      && (r.Ok? ==>
            && r.value == Trim(bio) && |r.value| <= MaxBioLength
            && |t'.users| == |t.users|
            && t'.users[w.value] == t.users[w.value].(bio := Trim(bio))
            && (forall j :: 0 <= j < |t.users| && j != w.value ==> t'.users[j] == t.users[j])
            && t' == t.(users := t'.users)
            && k' == k.(channelInfo := k.channelInfo - {t.users[w.value].username}))
      && (r.Err? ==> t' == t && k' == k)
      && WellFormed(t')
  {
    var w := Where(t.users, UserIdColumn, caller);
    if w.Some? && |Trim(bio)| <= MaxBioLength {
      var i := w.value;
      forall j | 0 <= j < |t.users| && j != i ensures t.users[j].username != t.users[i].username {
      }
      RowUpdateKeepsWellFormed(t, i, t.users[i].(bio := Trim(bio)));
    }
  }

  method UpdateBio(db: Database, cache: Cache, caller: string, bio: Option<string>)
    returns (r: Result<string, Failure>)
    modifies db`users, cache`channelInfo
    ensures r == BioSpec(old(db.Snapshot()), old(cache.Snapshot()), caller, bio).0
    ensures db.Snapshot() == BioSpec(old(db.Snapshot()), old(cache.Snapshot()), caller, bio).1
    ensures cache.Snapshot() == BioSpec(old(db.Snapshot()), old(cache.Snapshot()), caller, bio).2
  {
    if bio.None? || |Trim(bio.value)| > MaxBioLength {
      return Err(InvalidBody);
    }
    var found := Where(db.users, UserIdColumn, caller);
    if found.None? {
      return Err(NoUser);
    }
    var i := found.value;
    var trimmed := Trim(bio.value);
    cache.channelInfo := cache.channelInfo - {db.users[i].username};
    db.users := db.users[i := db.users[i].(bio := trimmed)];
    r := Ok(trimmed);
  }

  // ---------------------------------------------------------------------
  // Profile picture

  const MaxUploadSize := 2 * 1024 * 1024
  const MinImageDim := 128
  const MaxImageDim := 1024

  /** What the image library reads from an upload: its format and
      dimensions, or the error it throws on a file it cannot read. */
  datatype Metadata = Unreadable(error: string) | Metadata(format: string, width: int, height: int)

  /** An uploaded file as the upload parser hands it over. */
  datatype Upload = Upload(mimetype: string, size: nat, metadata: Metadata)

  /** The picture that will be written: its dimensions. */
  datatype Image = Image(width: int, height: int)

  const InvalidFileType := Failure(400, "Invalid file type", None)
  const BadDimensions := Failure(400, "Image dimensions should be a minimum of 128x128 and a maximum of 1024x1024", None)
  const NoFile := Failure(400, "No file uploaded", None)
  /** The parser's own error for a file over the size limit is not an
      `AppError`, so the error handler answers it as a critical error. */
  const TooLarge := Failure(500, "Internal server error", None)
  const NoUploader := Failure(500, "Error uploading file", Some("Error: User doesn't exist"))

  /** The upload filter: only JPEG and PNG by declared type. */
  predicate AcceptedMimetype(mimetype: string) {
    mimetype == "image/jpeg" || mimetype == "image/png"
  }

  predicate DimensionsAccepted(width: int, height: int) {
    MinImageDim <= width <= MaxImageDim && MinImageDim <= height <= MaxImageDim
  }

  function Max(a: int, b: int): int { if a >= b then a else b }

  /** `validateImage`: a readable JPEG or PNG within the size bounds, made
      square by padding a non-square one to its larger side. */
  function ValidateImage(m: Metadata): Result<Image, Failure> {
    match m
    case Unreadable(e) => Err(Failure(400, "Corrupted file", Some(e)))
    case Metadata(format, width, height) =>
      if format != "jpeg" && format != "png" then Err(InvalidFileType)
      else if !DimensionsAccepted(width, height) then Err(BadDimensions)
      else if width == height then Ok(Image(width, height))
      else Ok(Image(Max(width, height), Max(width, height)))
  }

  /** An image is accepted exactly when it is a readable JPEG or PNG whose
      sides both lie in [128, 1024]; the accepted image is square, keeps
      a square one's size, and is never smaller than the original in
      either direction. */
  lemma ValidateImageIff(m: Metadata)
    ensures ValidateImage(m).Ok? <==>
      m.Metadata? && (m.format == "jpeg" || m.format == "png") && DimensionsAccepted(m.width, m.height)
    ensures ValidateImage(m).Ok? ==>
      var img := ValidateImage(m).value;
      && img.width == img.height
      && m.width <= img.width && m.height <= img.height
      && (img.width == m.width || img.width == m.height)
      && DimensionsAccepted(img.width, img.height)
      && (m.width == m.height ==> img == Image(m.width, m.height))
  {
  }

  /** `deleteFile`: the unlink's error code, if any, decides; a missing
      file is no error. */
  function DeleteOutcome(unlinkError: Option<string>): Result<(), string> {
    if unlinkError.None? || unlinkError.value == "ENOENT" then Ok(()) else Err(unlinkError.value)
  }

  lemma DeleteOutcomeIff(unlinkError: Option<string>)
    ensures DeleteOutcome(unlinkError).Ok? <==> unlinkError == None || unlinkError == Some("ENOENT")
  {
  }

  /** The name of the file a picture URL points at: its last '/' piece. */
  function PictureFile(url: Option<string>): (r: string)
    ensures '/' !in r
  {
    var pieces := Split(if url.Some? then url.value else "", '/');
    pieces[|pieces| - 1]
  }

  /** The URL an uploaded file is served under. */
  function FileUrl(hostname: string, filename: string): string {
    hostname + "file/" + filename
  }

  /** `POST /user/profile/profilePicture` by `caller`. `hash` is the hex
      digest naming the new file, `hostname` the configured HOSTNAME. The
      old picture's file goes first if it is a `.webp`, then the new one is
      written, the row points at it, and the caller's cached channel and
      profile are dropped. */
  function PictureSpec(t: Tables, k: Keys, files: set<string>, caller: string, upload: Option<Upload>, hash: string, hostname: string)
    : (Result<string, Failure>, Tables, Keys, set<string>)
  {
    if upload.Some? && !AcceptedMimetype(upload.value.mimetype) then (Err(InvalidFileType), t, k, files)
    else if upload.Some? && upload.value.size > MaxUploadSize then (Err(TooLarge), t, k, files)
    else if upload.None? then (Err(NoFile), t, k, files)
    else match ValidateImage(upload.value.metadata)
      case Err(e) => (Err(e), t, k, files)
      case Ok(_) =>
        match Where(t.users, UserIdColumn, caller)
        case None => (Err(NoUploader), t, k, files)
        case Some(i) =>
          var filename := hash + ".webp";
          var previous := PictureFile(t.users[i].profilePicture);
          var kept := if EndsWith(previous, ".webp") then files - {previous} else files;
          var url := FileUrl(hostname, filename);
          (Ok(url),
           t.(users := t.users[i := t.users[i].(profilePicture := Some(url))]),
           k.(channelInfo := k.channelInfo - {t.users[i].username}, userProfile := k.userProfile - {caller}),
           kept + {filename})
  }

  /** An upload succeeds exactly when a JPEG or PNG within the size limit
      and the image rules comes from an existing user. Then the row points
      at the new file, which is in the static directory, and a refused
      upload changes nothing. */
  lemma PictureOutcome(t: Tables, k: Keys, files: set<string>, caller: string, upload: Option<Upload>, hash: string, hostname: string)
    requires WellFormed(t)
    ensures var (r, t', k', files') := PictureSpec(t, k, files, caller, upload, hash, hostname);
      var w := Where(t.users, UserIdColumn, caller);
      && (r.Ok? <==>
            upload.Some? && AcceptedMimetype(upload.value.mimetype) && upload.value.size <= MaxUploadSize
            && ValidateImage(upload.value.metadata).Ok? && w.Some?)
      && (r.Ok? ==>
            && r.value == FileUrl(hostname, hash + ".webp")
            && t'.users == t.users[w.value := t.users[w.value].(profilePicture := Some(r.value))]
            && hash + ".webp" in files'
            && files' <= files + {hash + ".webp"}
            && caller !in k'.userProfile && t.users[w.value].username !in k'.channelInfo)
      && (r.Err? ==> t' == t && k' == k && files' == files)
      && WellFormed(t')
  {
    var w := Where(t.users, UserIdColumn, caller);
    if w.Some? {
      var i := w.value;
      forall j | 0 <= j < |t.users| && j != i ensures t.users[j].username != t.users[i].username {
      }
      RowUpdateKeepsWellFormed(t, i, t.users[i].(profilePicture := Some(FileUrl(hostname, hash + ".webp"))));
    }
  }

  /** Replacing a picture uploaded earlier removes the earlier file, unless
      the new file happens to have the same name. */
  lemma ReplacedPictureRemoved(t: Tables, k: Keys, files: set<string>, caller: string, upload: Upload, hash: string, hostname: string, earlier: string)
    requires WellFormed(t)
    requires '/' !in earlier
    requires Where(t.users, UserIdColumn, caller).Some?
    requires t.users[Where(t.users, UserIdColumn, caller).value].profilePicture == Some(FileUrl(hostname, earlier + ".webp"))
    ensures var (r, t', k', files') := PictureSpec(t, k, files, caller, Some(upload), hash, hostname);
      r.Ok? && earlier != hash ==> earlier + ".webp" !in files'
  {
    assert FileUrl(hostname, earlier + ".webp") == (hostname + "file") + ['/'] + (earlier + ".webp");
    SplitLastPiece(hostname + "file", '/', earlier + ".webp");
    assert EndsWith(earlier + ".webp", ".webp") by {
      var s := earlier + ".webp";
      assert s[|s| - 5..] == ".webp";
    }
    var a, b := earlier + ".webp", hash + ".webp";
    assert a[..|earlier|] == earlier && b[..|hash|] == hash;
    assert a == b ==> earlier == hash;
  }

  method ReplacePicture(db: Database, cache: Cache, dir: StaticDir, caller: string, upload: Option<Upload>, hash: string, hostname: string)
    returns (r: Result<string, Failure>)
    modifies db`users, cache`channelInfo, cache`userProfile, dir
    ensures r == PictureSpec(old(db.Snapshot()), old(cache.Snapshot()), old(dir.files), caller, upload, hash, hostname).0
    ensures db.Snapshot() == PictureSpec(old(db.Snapshot()), old(cache.Snapshot()), old(dir.files), caller, upload, hash, hostname).1
    ensures cache.Snapshot() == PictureSpec(old(db.Snapshot()), old(cache.Snapshot()), old(dir.files), caller, upload, hash, hostname).2
    ensures dir.files == PictureSpec(old(db.Snapshot()), old(cache.Snapshot()), old(dir.files), caller, upload, hash, hostname).3
  {
    if upload.Some? && !AcceptedMimetype(upload.value.mimetype) {
      return Err(InvalidFileType);
    }
    if upload.Some? && upload.value.size > MaxUploadSize {
      return Err(TooLarge);
    }
    if upload.None? {
      return Err(NoFile);
    }
    var validated := ValidateImage(upload.value.metadata);
    if validated.Err? {
      return Err(validated.error);
    }
    var filename := hash + ".webp";
    var found := Where(db.users, UserIdColumn, caller);
    if found.None? {
      return Err(NoUploader);
    }
    var i := found.value;
    var previous := PictureFile(db.users[i].profilePicture);
    if EndsWith(previous, ".webp") {
      dir.files := dir.files - {previous};
    }
    dir.files := dir.files + {filename};
    var url := FileUrl(hostname, filename);
    var username := db.users[i].username;
    db.users := db.users[i := db.users[i].(profilePicture := Some(url))];
    cache.channelInfo := cache.channelInfo - {username};
    cache.userProfile := cache.userProfile - {caller};
    r := Ok(url);
  }
}
