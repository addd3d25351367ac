/** Following and unfollowing a streamer (server/src/api/user/follow.ts
    and unfollow.ts). A follower pair is (follower's id, followed user's
    id); changing the caller's follows drops the caller's cached profile. */
module Social {
  import opened Wrappers
  import opened Strings
  import opened Store

  const InvalidUser := Failure(400, "Invalid user", None)
  const SelfFollow := Failure(400, "Cannot follow yourself lol", None)
  const AlreadyFollowing := Failure(400, "Already following", None)
  const SelfUnfollow := Failure(400, "??? what", None)
  const NotFollowing := Failure(400, "Already not following", None)
  /** The insert broke the follower's foreign key: the caller's account is
      gone. The driver's message, which becomes the feedback, is not
      modelled. */
  const ForeignKeyViolation := Failure(500, "An error occurred", None)

  /** What a successful follow returns about the followed user. */
  datatype Following = Following(username: string, profilePicture: Option<string>, isLive: bool)

  /** The user a request names, after trimming. */
  function Named(t: Tables, username: string): Option<User> {
    match Where(t.users, UsernameColumn, Trim(username))
    case Some(i) => Some(t.users[i])
    case None => None
  }

  /** `POST /user/follow` by `caller` with body field `username` (None when
      the body has no string `username`). */
  function FollowSpec(t: Tables, k: Keys, caller: string, username: Option<string>)
    : (Result<Following, Failure>, Tables, Keys)
  {
    if username.None? then (Err(InvalidBody), t, k)
    else match Named(t, username.value)
      case None => (Err(InvalidUser), t, k)
      case Some(target) =>
        if target.userId == caller then (Err(SelfFollow), t, k)
        else if (caller, target.userId) in t.followers then (Err(AlreadyFollowing), t, k)
        else if Where(t.users, UserIdColumn, caller).None? then (Err(ForeignKeyViolation), t, k)
        else
          (Ok(Following(target.username, target.profilePicture, target.currentStreamId.Some?)),
           t.(followers := t.followers + {(caller, target.userId)}),
           k.(userProfile := k.userProfile - {caller}))
  }

  /** `POST /user/unfollow` by `caller`. */
  function UnfollowSpec(t: Tables, k: Keys, caller: string, username: Option<string>)
    : (Result<(), Failure>, Tables, Keys)
  {
    if username.None? then (Err(InvalidBody), t, k)
    else match Named(t, username.value)
      case None => (Err(InvalidUser), t, k)
      case Some(target) =>
        if target.userId == caller then (Err(SelfUnfollow), t, k)
        else if (caller, target.userId) !in t.followers then (Err(NotFollowing), t, k)
        else
          (Ok(()), t.(followers := t.followers - {(caller, target.userId)}),
           k.(userProfile := k.userProfile - {caller}))
  }

  /** A follow succeeds exactly when the named user exists, is someone
      else, is not yet followed and the caller exists; then exactly that
      pair is added, the caller's profile is dropped from the cache, and
      the reply describes the followed user. A failed follow changes
      nothing. */
  lemma FollowOutcome(t: Tables, k: Keys, caller: string, username: string)
    ensures var (r, t', k') := FollowSpec(t, k, caller, Some(username));
      var target := Named(t, username);
      && (r.Ok? <==>
            target.Some? && target.value.userId != caller
            && (caller, target.value.userId) !in t.followers
            && Where(t.users, UserIdColumn, caller).Some?)
      && (r.Ok? ==>
            && t'.followers == t.followers + {(caller, target.value.userId)}
            && t' == t.(followers := t'.followers)
            && k'.userProfile == k.userProfile - {caller} && k' == k.(userProfile := k'.userProfile)
            && r.value.username == Trim(username)
            && r.value.isLive == target.value.currentStreamId.Some?)
      && (r.Err? ==> t' == t && k' == k)
  {
  }

  /** An unfollow succeeds exactly when the named user exists, is someone
      else and is followed; then exactly that pair is removed. */
  lemma UnfollowOutcome(t: Tables, k: Keys, caller: string, username: string)
    ensures var (r, t', k') := UnfollowSpec(t, k, caller, Some(username));
      var target := Named(t, username);
      && (r.Ok? <==>
            target.Some? && target.value.userId != caller
            && (caller, target.value.userId) in t.followers)
      && (r.Ok? ==>
            && t' == t.(followers := t.followers - {(caller, target.value.userId)})
            && k' == k.(userProfile := k.userProfile - {caller}))
      && (r.Err? ==> t' == t && k' == k)
  {
  }

  /** Nobody ever follows themselves through these handlers. */
  lemma NeverSelfFollows(t: Tables, k: Keys, caller: string, username: Option<string>)
    requires forall p :: p in t.followers ==> p.0 != p.1
    ensures forall p :: p in FollowSpec(t, k, caller, username).1.followers ==> p.0 != p.1
    ensures forall p :: p in UnfollowSpec(t, k, caller, username).1.followers ==> p.0 != p.1
  {
  }

  /** Following and then unfollowing the same user gives back the follower
      table as it was. */
  lemma FollowThenUnfollow(t: Tables, k: Keys, caller: string, username: string)
    requires FollowSpec(t, k, caller, Some(username)).0.Ok?
    ensures var (_, t1, k1) := FollowSpec(t, k, caller, Some(username));
      var (r2, t2, k2) := UnfollowSpec(t1, k1, caller, Some(username));
      r2.Ok? && t2 == t && k2 == k.(userProfile := k.userProfile - {caller})
  {
    var target := Named(t, username).value;
    var pair := (caller, target.userId);
    var t1 := t.(followers := t.followers + {pair});
    var k1 := k.(userProfile := k.userProfile - {caller});
    assert FollowSpec(t, k, caller, Some(username)).1 == t1;
    assert FollowSpec(t, k, caller, Some(username)).2 == k1;
    assert Named(t1, username) == Some(target);
    assert UnfollowSpec(t1, k1, caller, Some(username)).0.Ok?;
    assert UnfollowSpec(t1, k1, caller, Some(username)).1 == t1.(followers := t1.followers - {pair});
    assert t1.followers - {pair} == t.followers;
  }

  /** Unfollowing and then following again gives back the follower table
      as it was, as long as the caller's account exists. */
  lemma UnfollowThenFollow(t: Tables, k: Keys, caller: string, username: string)
    requires UnfollowSpec(t, k, caller, Some(username)).0.Ok?
    requires Where(t.users, UserIdColumn, caller).Some?
    ensures var (_, t1, k1) := UnfollowSpec(t, k, caller, Some(username));
      var (r2, t2, k2) := FollowSpec(t1, k1, caller, Some(username));
      r2.Ok? && t2 == t && k2 == k.(userProfile := k.userProfile - {caller})
  {
    var target := Named(t, username).value;
    var pair := (caller, target.userId);
    var t1 := t.(followers := t.followers - {pair});
    var k1 := k.(userProfile := k.userProfile - {caller});
    assert UnfollowSpec(t, k, caller, Some(username)).1 == t1;
    assert UnfollowSpec(t, k, caller, Some(username)).2 == k1;
    assert Named(t1, username) == Some(target);
    assert FollowSpec(t1, k1, caller, Some(username)).0.Ok?;
    assert FollowSpec(t1, k1, caller, Some(username)).1 == t1.(followers := t1.followers + {pair});
    assert t1.followers + {pair} == t.followers;
  }

  /** Replacing the follower pairs by pairs between existing users keeps
      the tables well-formed. */
  lemma FollowersKeepWellFormed(t: Tables, f: set<(string, string)>)
    requires WellFormed(t)
    requires forall p :: p in f ==> Where(t.users, UserIdColumn, p.0).Some? && Where(t.users, UserIdColumn, p.1).Some?
    ensures WellFormed(t.(followers := f))
  {
    var t' := t.(followers := f);
    assert forall id :: IsOpen(t', id) <==> IsOpen(t, id);
  }

  /** A successful follow adds one pair between two existing users and
      changes no other table. */
  lemma FollowAddsKnownPair(t: Tables, k: Keys, caller: string, username: string)
    requires FollowSpec(t, k, caller, Some(username)).0.Ok?
    ensures var target := Named(t, username).value;
      && FollowSpec(t, k, caller, Some(username)).1 == t.(followers := t.followers + {(caller, target.userId)})
      && Where(t.users, UserIdColumn, target.userId).Some?
      && Where(t.users, UserIdColumn, caller).Some?
  {
    var i := Where(t.users, UsernameColumn, Trim(username)).value;
    assert Where(t.users, UserIdColumn, t.users[i].userId).Some?;
  }

  /** Following and unfollowing keep the tables well-formed. */
  lemma FollowKeepsWellFormed(t: Tables, k: Keys, caller: string, username: Option<string>)
    requires WellFormed(t)
    ensures WellFormed(FollowSpec(t, k, caller, username).1)
  {
    if FollowSpec(t, k, caller, username).0.Ok? {
      FollowAddsKnownPair(t, k, caller, username.value);
      var target := Named(t, username.value).value;
      FollowersKeepWellFormed(t, t.followers + {(caller, target.userId)});
    } else {
      assert FollowSpec(t, k, caller, username).1 == t;
    }
  }

  /** An unfollow only ever removes follower pairs and changes no other
      table. */
  lemma UnfollowShrinksFollowers(t: Tables, k: Keys, caller: string, username: Option<string>)
    ensures var t' := UnfollowSpec(t, k, caller, username).1;
      t' == t.(followers := t'.followers) && t'.followers <= t.followers
  {
  }

  lemma UnfollowKeepsWellFormed(t: Tables, k: Keys, caller: string, username: Option<string>)
    requires WellFormed(t)
    ensures WellFormed(UnfollowSpec(t, k, caller, username).1)
  {
    var t' := UnfollowSpec(t, k, caller, username).1;
    UnfollowShrinksFollowers(t, k, caller, username);
    FollowersKeepWellFormed(t, t'.followers);
    assert t' == t.(followers := t'.followers);
  }

  method Follow(db: Database, cache: Cache, caller: string, username: Option<string>)
    returns (r: Result<Following, Failure>)
    modifies db`followers, cache`userProfile
    ensures r == FollowSpec(old(db.Snapshot()), old(cache.Snapshot()), caller, username).0
    ensures db.Snapshot() == FollowSpec(old(db.Snapshot()), old(cache.Snapshot()), caller, username).1
    ensures cache.Snapshot() == FollowSpec(old(db.Snapshot()), old(cache.Snapshot()), caller, username).2
  {
    if username.None? {
      return Err(InvalidBody);
    }
    var found := Named(db.Snapshot(), username.value);
    if found.None? {
      return Err(InvalidUser);
    }
    var target := found.value;
    if target.userId == caller {
      return Err(SelfFollow);
    }
    if (caller, target.userId) in db.followers {
      return Err(AlreadyFollowing);
    }
    if Where(db.users, UserIdColumn, caller).None? {
      return Err(ForeignKeyViolation);
    }
    db.followers := db.followers + {(caller, target.userId)};
    cache.userProfile := cache.userProfile - {caller};
    r := Ok(Following(target.username, target.profilePicture, target.currentStreamId.Some?));
    assert db.Snapshot() == old(db.Snapshot()).(followers := db.followers);
    assert cache.Snapshot() == old(cache.Snapshot()).(userProfile := cache.userProfile);
  }

  method Unfollow(db: Database, cache: Cache, caller: string, username: Option<string>)
    returns (r: Result<(), Failure>)
    modifies db`followers, cache`userProfile
    ensures r == UnfollowSpec(old(db.Snapshot()), old(cache.Snapshot()), caller, username).0
    ensures db.Snapshot() == UnfollowSpec(old(db.Snapshot()), old(cache.Snapshot()), caller, username).1
    ensures cache.Snapshot() == UnfollowSpec(old(db.Snapshot()), old(cache.Snapshot()), caller, username).2
  {
    if username.None? {
      return Err(InvalidBody);
    }
    var found := Named(db.Snapshot(), username.value);
    if found.None? {
      return Err(InvalidUser);
    }
    var target := found.value;
    if target.userId == caller {
      return Err(SelfUnfollow);
    }
    if (caller, target.userId) !in db.followers {
      return Err(NotFollowing);
    }
    db.followers := db.followers - {(caller, target.userId)};
    cache.userProfile := cache.userProfile - {caller};
    r := Ok(());
  }
}
