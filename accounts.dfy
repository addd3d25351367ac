/** Account helpers (server/src/lib/auth/index.ts): the username sanitiser
    and the unique-username generator used at sign-up, issuing a refresh
    token, and regenerating a stream key. Signing tokens and hashing keys
    are foreign code; their outputs are parameters. */
module Accounts {
  import opened Wrappers
  import opened Strings
  import opened Store

  const MaxUsernameLength := 69

  /** The characters `[a-zA-Z0-9_-]`. */
  predicate IsUsernameChar(c: char) {
    'a' <= c <= 'z' || 'A' <= c <= 'Z' || IsDigit(c) || c == '_' || c == '-'
  }

  /** What a sanitised username is made of: lower-case letters, digits,
      '_' and '-'. */
  predicate IsSanitizedChar(c: char) {
    'a' <= c <= 'z' || IsDigit(c) || c == '_' || c == '-'
  }

  predicate IsSanitized(s: string) {
    |s| <= MaxUsernameLength && forall i :: 0 <= i < |s| ==> IsSanitizedChar(s[i])
  }

  /** `s.replace(/[^a-zA-Z0-9_-]/g, replacement)`. */
  function ReplaceDisallowed(s: string, replacement: string): string {
    if s == [] then []
    else (if IsUsernameChar(s[0]) then [s[0]] else replacement) + ReplaceDisallowed(s[1..], replacement)
  }

  /** `sanitizeUsername(input, replacement)`: trim, lower-case, replace the
      disallowed characters, keep the first 69. */
  function Sanitize(input: string, replacement: string): string {
    var replaced := ReplaceDisallowed(ToLower(Trim(input)), replacement);
    if |replaced| <= MaxUsernameLength then replaced else replaced[..MaxUsernameLength]
  }

  lemma {:induction false} ReplaceLowered(s: string)
    requires forall i :: 0 <= i < |s| ==> !IsAsciiUpper(s[i])
    ensures forall i :: 0 <= i < |ReplaceDisallowed(s, "_")| ==> IsSanitizedChar(ReplaceDisallowed(s, "_")[i])
  {
    if s != [] {
      ReplaceLowered(s[1..]);
    }
  }

  lemma {:induction false} ReplaceAllowed(s: string, replacement: string)
    requires forall i :: 0 <= i < |s| ==> IsUsernameChar(s[i])
    ensures ReplaceDisallowed(s, replacement) == s
  {
    if s != [] {
      ReplaceAllowed(s[1..], replacement);
    }
  }

  /** With the default replacement the result is a sanitised username. */
  lemma SanitizeShape(input: string)
    ensures IsSanitized(Sanitize(input, "_"))
  {
    ReplaceLowered(ToLower(Trim(input)));
  }

  /** A sanitised username is left as it is. */
  lemma SanitizeFixes(s: string, replacement: string)
    requires IsSanitized(s)
    ensures Sanitize(s, replacement) == s
  {
    if s != [] {
      assert !IsWhitespace(s[0]) && !IsWhitespace(s[|s| - 1]);
    }
    TrimFixpoint(s);
    assert ToLower(s) == s;
    ReplaceAllowed(s, replacement);
  }

  /** Sanitising twice is sanitising once. */
  lemma SanitizeIdempotent(input: string)
    ensures Sanitize(Sanitize(input, "_"), "_") == Sanitize(input, "_")
  {
    SanitizeShape(input);
    SanitizeFixes(Sanitize(input, "_"), "_");
  }

  /** The profile form's fixpoint check, `s == sanitizeUsername(s)`, accepts
      exactly the sanitised usernames. */
  lemma SanitizeFixpointIff(s: string)
    ensures Sanitize(s, "_") == s <==> IsSanitized(s)
  {
    SanitizeShape(s);
    if IsSanitized(s) {
      SanitizeFixes(s, "_");
    }
  }

  // ---------------------------------------------------------------------
  // Unique usernames

  /** `name LIKE base || '%'`, case-sensitive: the name starts with the base,
      where each '_' of the base stands for any one character. */
  predicate LikePrefix(name: string, base: string) {
    |base| <= |name| && forall i :: 0 <= i < |base| ==> base[i] == '_' || name[i] == base[i]
  }

  /** How many users' names match `base%`. */
  function CountLike(users: seq<User>, base: string): (n: nat)
    ensures n <= |users|
    ensures n == 0 <==> forall i :: 0 <= i < |users| ==> !LikePrefix(users[i].username, base)
  {
    if users == [] then 0
    else (if LikePrefix(users[0].username, base) then 1 else 0) + CountLike(users[1..], base)
  }

  const UsernameTaken := Failure(500, "Error", Some("Couldn't generate unique username"))

  /** `generateUniqueUsername`: the sanitised base when no name starts
      with it, else the base followed by the number of names that do,
      unless that name is itself taken. */
  function UniqueUsernameSpec(t: Tables, input: string): Result<string, Failure> {
    var base := Sanitize(input, "_");
    var matches := CountLike(t.users, base);
    if matches == 0 then Ok(base)
    else
      var candidate := base + NatToDecimal(matches);
      if Where(t.users, UsernameColumn, candidate).Some? then Err(UsernameTaken) else Ok(candidate)
  }

  /** A generated username is free, starts with the sanitised base, and is
      the base itself exactly when no existing name starts with it; it
      fails only when the numbered name is taken. */
  lemma UniqueUsernameIsFree(t: Tables, input: string)
    ensures var r := UniqueUsernameSpec(t, input);
      r.Ok? ==>
        && Where(t.users, UsernameColumn, r.value).None?
        && StartsWith(r.value, Sanitize(input, "_"))
        && (r.value == Sanitize(input, "_") <==> CountLike(t.users, Sanitize(input, "_")) == 0)
    ensures var r := UniqueUsernameSpec(t, input);
      r.Err? ==> r.error == UsernameTaken && CountLike(t.users, Sanitize(input, "_")) > 0
  {
    var base := Sanitize(input, "_");
    var r := UniqueUsernameSpec(t, input);
    if CountLike(t.users, base) == 0 {
      forall i | 0 <= i < |t.users| ensures t.users[i].username != base {
        if t.users[i].username == base {
          assert LikePrefix(t.users[i].username, base);
        }
      }
    } else if r.Ok? {
      var candidate := base + NatToDecimal(CountLike(t.users, base));
      assert candidate[..|base|] == base;
    }
  }

  // ---------------------------------------------------------------------
  // Refresh tokens

  const TokenInsertFailed := Failure(500, "Database error", Some("Couldn't insert into refreshTokens"))

  /** The `UPDATE ... SET used = true WHERE id = id`. */
  function MarkUsed(rows: seq<TokenRow>, id: nat): (r: seq<TokenRow>)
    ensures |r| == |rows|
  {
    seq(|rows|, i requires 0 <= i < |rows| => if rows[i].id == id then rows[i].(used := true) else rows[i])
  }

  datatype Issued = Issued(refreshToken: string, sessionExpiry: int)

  /** `generateRefreshToken(userId, tx, oldTokenId)` for a freshly signed
      `token` whose expiry, in seconds, is `exp`: a truthy `oldTokenId`
      marks that row used, and one unused row expiring at `exp` seconds is
      inserted. The insert needs an existing user (foreign key); when it
      fails the transaction keeps nothing. */
  function IssueSpec(t: Tables, userId: string, oldTokenId: Option<nat>, token: string, exp: int)
    : (Result<Issued, Failure>, Tables)
  {
    if Where(t.users, UserIdColumn, userId).None? then (Err(TokenInsertFailed), t)
    else
      var rows := if oldTokenId.Some? && oldTokenId.value != 0 then MarkUsed(t.refreshTokens, oldTokenId.value)
                  else t.refreshTokens;
      (Ok(Issued(token, exp)),
       t.(refreshTokens := rows + [TokenRow(t.nextTokenId, userId, token, false, exp * 1000)],
          nextTokenId := t.nextTokenId + 1))
  }

  /** Issuing succeeds exactly for an existing user. It then adds one unused
      row, for that user and token, with a fresh id; the row with the old id
      is now used, and every other row is as it was. */
  lemma IssueOutcome(t: Tables, userId: string, oldTokenId: Option<nat>, token: string, exp: int)
    requires WellFormed(t)
    ensures var (r, t') := IssueSpec(t, userId, oldTokenId, token, exp);
      r.Ok? <==> Where(t.users, UserIdColumn, userId).Some?
    ensures var (r, t') := IssueSpec(t, userId, oldTokenId, token, exp);
      r.Ok? ==>
        && |t'.refreshTokens| == |t.refreshTokens| + 1
        && (var row := t'.refreshTokens[|t.refreshTokens|];
            row.userId == userId && row.token == token && !row.used
            && (forall j :: 0 <= j < |t.refreshTokens| ==> t.refreshTokens[j].id != row.id))
        && (forall j :: 0 <= j < |t.refreshTokens| ==>
              if oldTokenId.Some? && t.refreshTokens[j].id == oldTokenId.value
              then t'.refreshTokens[j] == t.refreshTokens[j].(used := true)
              else t'.refreshTokens[j] == t.refreshTokens[j])
    ensures var (r, t') := IssueSpec(t, userId, oldTokenId, token, exp);
      r.Err? ==> t' == t
  {
  }

  /** Issuing keeps the tables well-formed: the new id is above every other,
      so ids still increase in row order. */
  lemma IssueKeepsWellFormed(t: Tables, userId: string, oldTokenId: Option<nat>, token: string, exp: int)
    requires WellFormed(t)
    ensures WellFormed(IssueSpec(t, userId, oldTokenId, token, exp).1)
  {
    var (r, t') := IssueSpec(t, userId, oldTokenId, token, exp);
    if r.Ok? {
      var rows := t'.refreshTokens;
      assert forall j :: 0 <= j < |t.refreshTokens| ==> rows[j].id == t.refreshTokens[j].id;
    }
  }

  /** `generateRefreshToken` against the tables. */
  method IssueRefreshToken(db: Database, userId: string, oldTokenId: Option<nat>, token: string, exp: int)
    returns (r: Result<Issued, Failure>)
    modifies db`refreshTokens, db`nextTokenId
    ensures r == IssueSpec(old(db.Snapshot()), userId, oldTokenId, token, exp).0
    ensures db.Snapshot() == IssueSpec(old(db.Snapshot()), userId, oldTokenId, token, exp).1
  {
    if Where(db.users, UserIdColumn, userId).None? {
      return Err(TokenInsertFailed);
    }
    if oldTokenId.Some? && oldTokenId.value != 0 {
      db.refreshTokens := MarkUsed(db.refreshTokens, oldTokenId.value);
    }
    db.refreshTokens := db.refreshTokens + [TokenRow(db.nextTokenId, userId, token, false, exp * 1000)];
    db.nextTokenId := db.nextTokenId + 1;
    r := Ok(Issued(token, exp));
  }

  // ---------------------------------------------------------------------
  // Stream keys

  const NoSuchUser := Failure(500, "User does not exist", None)

  /** `generateStreamKey(userId, updateUserTable)` for the freshly hashed
      `key`: with the flag the user's row takes the key, failing when there
      is no row; on success the key's negative-cache entry is dropped. */
  function StreamKeySpec(t: Tables, k: Keys, userId: string, updateUserTable: bool, key: string)
    : (Result<string, Failure>, Tables, Keys)
  {
    if updateUserTable && Where(t.users, UserIdColumn, userId).None? then (Err(NoSuchUser), t, k)
    else
      var t' := if updateUserTable then
                  var i := Where(t.users, UserIdColumn, userId).value;
                  t.(users := t.users[i := t.users[i].(streamKey := key)])
                else t;
      (Ok(key), t', k.(invalidStreamKey := k.invalidStreamKey - {key}))
  }

  /** A regenerated key (one no other user holds) is the user's key, is not
      cached as invalid, and lookups by id are where they were. */
  lemma NewStreamKeyRegistered(t: Tables, k: Keys, userId: string, key: string)
    requires WellFormed(t) && Where(t.users, UserIdColumn, userId).Some?
    requires forall j :: 0 <= j < |t.users| && t.users[j].userId != userId ==> t.users[j].streamKey != key
    ensures var (r, t', k') := StreamKeySpec(t, k, userId, true, key);
      var i := Where(t.users, UserIdColumn, userId).value;
      && r == Ok(key)
      && Where(t'.users, StreamKeyColumn, key) == Some(i)
      && t'.users[i] == t.users[i].(streamKey := key)
      && !InvalidKeyCached(k', key)
      && (forall v :: Where(t'.users, UserIdColumn, v) == Where(t.users, UserIdColumn, v))
  {
    var i := Where(t.users, UserIdColumn, userId).value;
    var (r, t', k') := StreamKeySpec(t, k, userId, true, key);
    forall v ensures Where(t'.users, UserIdColumn, v) == Where(t.users, UserIdColumn, v) {
      WhereAfterUpdate(t.users, i, t.users[i].(streamKey := key), UserIdColumn, v);
    }
    forall j | 0 <= j < |t'.users| && j != i ensures t'.users[j].streamKey != key {
      assert t.users[j].userId != t.users[i].userId;
    }
  }

  /** `generateStreamKey` against the stores. */
  method GenerateStreamKey(db: Database, cache: Cache, userId: string, updateUserTable: bool, key: string)
    returns (r: Result<string, Failure>)
    modifies db`users, cache`invalidStreamKey
    ensures r == StreamKeySpec(old(db.Snapshot()), old(cache.Snapshot()), userId, updateUserTable, key).0
    ensures db.Snapshot() == StreamKeySpec(old(db.Snapshot()), old(cache.Snapshot()), userId, updateUserTable, key).1
    ensures cache.Snapshot() == StreamKeySpec(old(db.Snapshot()), old(cache.Snapshot()), userId, updateUserTable, key).2
  {
    if updateUserTable {
      var found := Where(db.users, UserIdColumn, userId);
      if found.None? {
        return Err(NoSuchUser);
      }
      db.users := db.users[found.value := db.users[found.value].(streamKey := key)];
    }
    cache.invalidStreamKey := cache.invalidStreamKey - {key};
    r := Ok(key);
  }
}
