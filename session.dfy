/** The access-token middleware (server/src/middleware/auth.ts): an
    `Authorization: Bearer <token>` header whose token verifies to a
    well-shaped payload, issued after the user's last session
    invalidation, authenticates the request. Verification itself is
    foreign code; what it yields is a parameter. */
module Session {
  import opened Wrappers
  import opened Strings
  import opened Store

  const MissingHeader := Failure(401, "Token not found in auth header", None)
  const InvalidAccessToken := Failure(401, "Invalid access token", None)
  const AccessTokenExpired := Failure(401, "Access token expired", None)

  /** A decoded payload, with the fields the schema wants when they have
      the right type. */
  datatype Payload = Payload(userId: Option<string>, sessionExpiry: Option<int>, iat: Option<int>)

  /** What `req.user` is set to. */
  datatype Claims = Claims(userId: string, sessionExpiry: int, iat: int)

  /** The token of a header that splits on ' ' into exactly "Bearer" and
      one more piece. */
  function BearerToken(header: Option<string>): Option<string> {
    if header.None? || header.value == [] then None
    else
      var parts := Split(header.value, ' ');
      if |parts| != 2 || parts[0] != "Bearer" then None else Some(parts[1])
  }

  /** The header carries a token exactly when it is "Bearer ", then the
      token, which has no space. */
  lemma BearerTokenIff(header: string, token: string)
    ensures BearerToken(Some(header)) == Some(token) <==> header == "Bearer " + token && ' ' !in token
  {
    if header == "Bearer " + token && ' ' !in token {
      assert header == "Bearer" + [' '] + token;
      SplitAtSeparator("Bearer", ' ', token);
      SplitWithoutSeparator(token, ' ');
    }
    if BearerToken(Some(header)) == Some(token) {
      var parts := Split(header, ' ');
      JoinSplit(header, ' ');
      assert parts == ["Bearer", token];
      assert Join(parts, ' ') == "Bearer" + [' '] + token;
    }
  }

  /** The middleware: `verified` is the payload `jwt.verify` decodes from
      the bearer token, or None when it fails. A token issued at or before
      the user's last session invalidation is expired. */
  function Authenticate(k: Keys, header: Option<string>, verified: Option<Payload>): Result<Claims, Failure> {
    if BearerToken(header).None? then Err(MissingHeader)
    else if verified.None? then Err(InvalidAccessToken)
    else
      var p := verified.value;
      if p.userId.None? || p.sessionExpiry.None? || p.iat.None? then Err(InvalidAccessToken)
      else if p.userId.value in k.lastSessionInvalidation && p.iat.value <= k.lastSessionInvalidation[p.userId.value]
      then Err(AccessTokenExpired)
      else Ok(Claims(p.userId.value, p.sessionExpiry.value, p.iat.value))
  }

  /** A request is authenticated exactly when its header carries a bearer
      token that verifies to a complete payload issued after the user's
      last invalidation, and then as the payload says. */
  lemma AuthenticatedIff(k: Keys, header: Option<string>, verified: Option<Payload>)
    ensures var r := Authenticate(k, header, verified);
      r.Ok? <==>
        && BearerToken(header).Some? && verified.Some?
        && verified.value.userId.Some? && verified.value.sessionExpiry.Some? && verified.value.iat.Some?
        && (verified.value.userId.value in k.lastSessionInvalidation ==>
              verified.value.iat.value > k.lastSessionInvalidation[verified.value.userId.value])
    ensures var r := Authenticate(k, header, verified);
      r.Ok? ==> r.value == Claims(verified.value.userId.value, verified.value.sessionExpiry.value, verified.value.iat.value)
  {
  }

  /** Invalidating a user's sessions at `at` rejects every access token of
      theirs issued at or before `at` as expired, and no other. */
  lemma InvalidationCutsOff(k: Keys, token: string, userId: string, sessionExpiry: int, iat: int, at: int)
    ensures var k' := k.(lastSessionInvalidation := k.lastSessionInvalidation[userId := at]);
      var r := Authenticate(k', Some("Bearer " + token), Some(Payload(Some(userId), Some(sessionExpiry), Some(iat))));
      ' ' !in token ==> (r == Err(AccessTokenExpired) <==> iat <= at)
  {
    BearerTokenIff("Bearer " + token, token);
  }
}
