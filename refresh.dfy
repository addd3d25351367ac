/** The refresh-token exchange (server/src/api/auth/refresh.ts): a refresh
    token is swapped, once, for a new refresh token and an access token;
    presenting a token that was already swapped is taken as theft, and
    every refresh token of its user is deleted. Verifying the token's
    signature is foreign code: its outcome is a parameter, as are the new
    token and its expiry. */
module Refresh {
  import opened Wrappers
  import opened Store
  import opened Accounts

  /** What `jwt.verify` and the payload schema make of the cookie: an
      expired token, any other verification error, or a payload that has a
      string `userId` or not. */
  datatype Verification = Expired | Rejected | Verified(userId: Option<string>)

  /** A successful exchange: the access token's claims and the new cookie. */
  datatype Grant = Grant(userId: string, sessionExpiry: int, cookie: string)

  const NoCookie := Failure(401, "Refresh token not found", None)
  const TokenExpired := Failure(401, "Refresh token expired", None)
  const InvalidToken := Failure(401, "Invalid refresh token", None)
  const MalformedPayload := Failure(500, "Invalid refresh token", None)
  const UnknownToken := Failure(403, "Invalid refresh token", None)
  const ReuseDetected := Failure(401, "Refresh token reuse detected", None)

  /** The first row holding the token. */
  function FindToken(rows: seq<TokenRow>, token: string): (r: Option<nat>)
    ensures r.Some? ==> r.value < |rows| && rows[r.value].token == token
    ensures r.Some? ==> forall j :: 0 <= j < r.value ==> rows[j].token != token
    ensures r.None? ==> forall j :: 0 <= j < |rows| ==> rows[j].token != token
  {
    if rows == [] then None
    else if rows[0].token == token then Some(0)
    else match FindToken(rows[1..], token)
      case Some(i) => Some(i + 1)
      case None => None
  }

  /** Where the same token is first found again when the rows up to its
      first occurrence keep their tokens. */
  lemma {:induction false} FindTokenStable(rows: seq<TokenRow>, rows': seq<TokenRow>, token: string, i: nat)
    requires FindToken(rows, token) == Some(i) && i < |rows'|
    requires forall j :: 0 <= j <= i ==> rows'[j].token == rows[j].token
    ensures FindToken(rows', token) == Some(i)
    decreases i
  {
    assert rows'[0].token == rows[0].token;
    if i > 0 {
      assert rows[0].token != token;
      assert FindToken(rows[1..], token) == Some(i - 1);
      forall j | 0 <= j <= i - 1 ensures rows'[1..][j].token == rows[1..][j].token {
        assert rows'[1..][j] == rows'[j + 1] && rows[1..][j] == rows[j + 1];
      }
      FindTokenStable(rows[1..], rows'[1..], token, i - 1);
    }
  }

  /** The `DELETE ... WHERE user_id = userId`. */
  function Revoke(rows: seq<TokenRow>, userId: string): (r: seq<TokenRow>)
    ensures forall x :: x in r <==> x in rows && x.userId != userId
  {
    if rows == [] then []
    else (if rows[0].userId == userId then [] else [rows[0]]) + Revoke(rows[1..], userId)
  }

  /** Refresh-token ids increase in row order. */
  predicate IdsIncreasing(rows: seq<TokenRow>) {
    forall j, k :: 0 <= j < k < |rows| ==> rows[j].id < rows[k].id
  }

  lemma ConsIncreasing(x: TokenRow, rest: seq<TokenRow>)
    requires IdsIncreasing(rest) && forall y :: y in rest ==> x.id < y.id
    ensures IdsIncreasing([x] + rest)
  {
    var r := [x] + rest;
    forall j, k | 0 <= j < k < |r| ensures r[j].id < r[k].id {
      assert r[k] == rest[k - 1];
      if j > 0 {
        assert r[j] == rest[j - 1];
      }
    }
  }

  /** Deleting rows keeps the remaining ids increasing. */
  lemma {:induction false} RevokeKeepsOrder(rows: seq<TokenRow>, userId: string)
    requires IdsIncreasing(rows)
    ensures IdsIncreasing(Revoke(rows, userId))
  {
    if rows != [] {
      var rest := Revoke(rows[1..], userId);
      assert IdsIncreasing(rows[1..]);
      RevokeKeepsOrder(rows[1..], userId);
      if rows[0].userId != userId {
        forall y | y in rest ensures rows[0].id < y.id {
          var m :| 0 <= m < |rows[1..]| && rows[1..][m] == y;
          assert rows[m + 1] == y;
        }
        ConsIncreasing(rows[0], rest);
      } else {
        assert Revoke(rows, userId) == rest;
      }
    }
  }

  /** `POST /auth/refresh`. The cookie must be there and verify; the
      payload must carry a user id; the token must be in the table. A row
      already used revokes all of the payload user's tokens; an unused one
      is exchanged through `generateRefreshToken`, which marks it used and
      inserts the new token. */
  function RefreshSpec(t: Tables, cookie: Option<string>, verification: Verification, newToken: string, exp: int)
    : (Result<Grant, Failure>, Tables)
  {
    if cookie.None? || cookie.value == "" then (Err(NoCookie), t)
    else match verification
      case Expired => (Err(TokenExpired), t)
      case Rejected => (Err(InvalidToken), t)
      case Verified(None) => (Err(MalformedPayload), t)
      case Verified(Some(userId)) =>
        match FindToken(t.refreshTokens, cookie.value)
        case None => (Err(UnknownToken), t)
        case Some(i) =>
          if t.refreshTokens[i].used then (Err(ReuseDetected), t.(refreshTokens := Revoke(t.refreshTokens, userId)))
          else
            var (issued, t') := IssueSpec(t, userId, Some(t.refreshTokens[i].id), newToken, exp);
            if issued.Err? then (Err(issued.error), t')
            else (Ok(Grant(userId, issued.value.sessionExpiry, issued.value.refreshToken)), t')
  }

  /** An exchange succeeds exactly when the cookie is present, verifies to a
      user id, names a stored unused token, and the user exists; then the
      grant carries the new token and expiry. Apart from a success or a
      detected reuse, the tables are untouched. */
  lemma RefreshSucceedsIff(t: Tables, cookie: Option<string>, verification: Verification, newToken: string, exp: int)
    ensures var (r, t') := RefreshSpec(t, cookie, verification, newToken, exp);
      r.Ok? <==>
        && cookie.Some? && cookie.value != ""
        && verification.Verified? && verification.userId.Some?
        && FindToken(t.refreshTokens, cookie.value).Some?
        && !t.refreshTokens[FindToken(t.refreshTokens, cookie.value).value].used
        && Where(t.users, UserIdColumn, verification.userId.value).Some?
    ensures var (r, t') := RefreshSpec(t, cookie, verification, newToken, exp);
      r.Ok? ==> r.value == Grant(verification.userId.value, exp, newToken)
    ensures var (r, t') := RefreshSpec(t, cookie, verification, newToken, exp);
      r.Err? && r.error != ReuseDetected ==> t' == t
  {
  }

  /** A token is exchanged at most once: presenting it again, with the same
      payload, is reuse, and afterwards its user has no refresh token left. */
  lemma ExchangedAtMostOnce(t: Tables, cookie: string, userId: string, newToken: string, exp: int, newToken2: string, exp2: int)
    requires WellFormed(t)
    requires RefreshSpec(t, Some(cookie), Verified(Some(userId)), newToken, exp).0.Ok?
    ensures var t1 := RefreshSpec(t, Some(cookie), Verified(Some(userId)), newToken, exp).1;
      var (r2, t2) := RefreshSpec(t1, Some(cookie), Verified(Some(userId)), newToken2, exp2);
      r2 == Err(ReuseDetected) && forall x :: x in t2.refreshTokens ==> x.userId != userId
  {
    var i := FindToken(t.refreshTokens, cookie).value;
    var t1 := RefreshSpec(t, Some(cookie), Verified(Some(userId)), newToken, exp).1;
    IssueOutcome(t, userId, Some(t.refreshTokens[i].id), newToken, exp);
    FindTokenStable(t.refreshTokens, t1.refreshTokens, cookie, i);
  }

  /** Presenting a used token deletes exactly the payload user's tokens. */
  lemma ReuseRevokesAll(t: Tables, cookie: string, userId: string, newToken: string, exp: int)
    requires cookie != ""
    requires FindToken(t.refreshTokens, cookie).Some?
    requires t.refreshTokens[FindToken(t.refreshTokens, cookie).value].used
    ensures var (r, t') := RefreshSpec(t, Some(cookie), Verified(Some(userId)), newToken, exp);
      && r == Err(ReuseDetected)
      && (forall x :: x in t'.refreshTokens <==> x in t.refreshTokens && x.userId != userId)
      && t'.users == t.users && t'.nextTokenId == t.nextTokenId
  {
  }

  /** Every exchange, successful or not, keeps the tables well-formed. */
  lemma RefreshKeepsWellFormed(t: Tables, cookie: Option<string>, verification: Verification, newToken: string, exp: int)
    requires WellFormed(t)
    ensures WellFormed(RefreshSpec(t, cookie, verification, newToken, exp).1)
  {
    var (r, t') := RefreshSpec(t, cookie, verification, newToken, exp);
    if r == Err(ReuseDetected) {
      var userId := verification.userId.value;
      RevokeKeepsOrder(t.refreshTokens, userId);
      assert t'.refreshTokens == Revoke(t.refreshTokens, userId);
      forall k | 0 <= k < |t'.refreshTokens| ensures 1 <= t'.refreshTokens[k].id < t'.nextTokenId {
        assert t'.refreshTokens[k] in t.refreshTokens;
      }
    } else if r.Ok? {
      var i := FindToken(t.refreshTokens, cookie.value).value;
      IssueKeepsWellFormed(t, verification.userId.value, Some(t.refreshTokens[i].id), newToken, exp);
    }
  }

  /** The handler against the tables. */
  method RefreshSession(db: Database, cookie: Option<string>, verification: Verification, newToken: string, exp: int)
    returns (r: Result<Grant, Failure>)
    modifies db`refreshTokens, db`nextTokenId
    ensures r == RefreshSpec(old(db.Snapshot()), cookie, verification, newToken, exp).0
    ensures db.Snapshot() == RefreshSpec(old(db.Snapshot()), cookie, verification, newToken, exp).1
  {
    if cookie.None? || cookie.value == "" {
      return Err(NoCookie);
    }
    match verification {
      case Expired => return Err(TokenExpired);
      case Rejected => return Err(InvalidToken);
      case Verified(None) => return Err(MalformedPayload);
      case Verified(Some(userId)) =>
        var found := FindToken(db.refreshTokens, cookie.value);
        if found.None? {
          return Err(UnknownToken);
        }
        var stored := db.refreshTokens[found.value];
        if stored.used {
          db.refreshTokens := Revoke(db.refreshTokens, userId);
          return Err(ReuseDetected);
        }
        var issued := IssueRefreshToken(db, userId, Some(stored.id), newToken, exp);
        if issued.Err? {
          return Err(issued.error);
        }
        r := Ok(Grant(userId, issued.value.sessionExpiry, issued.value.refreshToken));
    }
  }
}
