/** Configuration helpers: the database port read from the environment
    (server/src/config/environment.ts), the HTTP server's port or pipe
    (server/src/bin/index.ts), and the CORS origin allow-list
    (server/src/config/cors.ts). */
module Config {
  import opened Wrappers
  import opened Strings

  const DefaultDbPort := 5432

  /** `normalizePort` of environment.ts: a missing or empty value, text
      that does not start with a number, or a negative number gives 5432;
      otherwise the number `parseInt(val, 10)` reads. */
  function DbPort(val: Option<string>): int {
    if val.None? || val.value == "" then DefaultDbPort
    else match ParseInt(val.value)
      case None => DefaultDbPort
      case Some(p) => if p >= 0 then p else DefaultDbPort
  }

  /** The database port is never negative, and it is the parsed number
      exactly when that number exists and is not negative. */
  lemma DbPortCases(val: Option<string>)
    ensures DbPort(val) >= 0
    ensures var p := if val.Some? then ParseInt(val.value) else None;
      (p.Some? && p.value >= 0 ==> DbPort(val) == p.value)
      && (p.None? || p.value < 0 ==> DbPort(val) == DefaultDbPort)
  {
  }

  /** Only the leading digits count: "8080x" is port 8080. */
  lemma DbPortReadsPrefix(n: nat, rest: string)
    requires rest == [] || !IsDigit(rest[0])
    ensures DbPort(Some(NatToDecimal(n) + rest)) == n
  {
    ParseDecimalPrefix(n, rest);
  }

  /** What the server listens on: a port number, a named pipe, or `false`. */
  datatype Listen = PortNumber(n: nat) | Pipe(name: string) | Refused

  /** `normalizePort` of bin/index.ts: a value that is not a number is
      kept as a pipe name, a negative number gives `false`. */
  function ServerPort(val: string): Listen {
    match ParseInt(val)
    case None => Pipe(val)
    case Some(p) => if p >= 0 then PortNumber(p) else Refused
  }

  /** The three outcomes, each exactly when the parsed number says so. */
  lemma ServerPortCases(val: string)
    ensures ServerPort(val).Pipe? <==> ParseInt(val).None?
    ensures ServerPort(val).Pipe? ==> ServerPort(val).name == val
    ensures ServerPort(val).PortNumber? <==> ParseInt(val).Some? && ParseInt(val).value >= 0
    ensures ServerPort(val).PortNumber? ==> ServerPort(val).n == ParseInt(val).value
    ensures ServerPort(val).Refused? <==> ParseInt(val).Some? && ParseInt(val).value < 0
  {
  }

  /** A port written in decimal, whatever follows it, is listened on. */
  lemma ServerPortReadsPrefix(n: nat, rest: string)
    requires rest == [] || !IsDigit(rest[0])
    ensures ServerPort(NatToDecimal(n) + rest) == PortNumber(n)
  {
    ParseDecimalPrefix(n, rest);
  }

  /** The default "9000" is port 9000. */
  lemma DefaultServerPort()
    ensures ServerPort("9000") == PortNumber(9000)
  {
    assert NatToDecimal(9) == "9";
    assert NatToDecimal(90) == "9" + "0";
    assert NatToDecimal(900) == "90" + "0";
    assert NatToDecimal(9000) == "900" + "0";
    ServerPortReadsPrefix(9000, []);
    assert NatToDecimal(9000) + [] == "9000";
  }

  /** The two deployments' origins and, outside production, the local
      development server's. */
  function AllowedOrigins(prod: bool): (r: seq<string>)
    ensures "http://streamora-bphc.vercel.app" in r && "https://streamora-bphc.vercel.app" in r
    ensures "http://localhost:5173" in r <==> !prod
    ensures forall o :: o in r ==> o in ["http://streamora-bphc.vercel.app", "https://streamora-bphc.vercel.app", "http://localhost:5173"]
  {
    var deployed := ["http://streamora-bphc.vercel.app", "https://streamora-bphc.vercel.app"];
    if prod then deployed else deployed + ["http://localhost:5173"]
  }

  const CorsMessage := "The CORS policy for this site does not allow access from the specified origin."

  /** The arguments the origin callback passes on: an error, if any, and
      the allow flag. */
  datatype CorsReply = CorsReply(error: Option<string>, allow: bool)

  function CheckOrigin(prod: bool, origin: Option<string>): CorsReply {
    if origin.None? || origin.value == "" then CorsReply(Some(CorsMessage), true)
    else if origin.value !in AllowedOrigins(prod) then CorsReply(Some(CorsMessage), false)
    else CorsReply(None, true)
  }

  /** An origin passes without error exactly when it is on the list; a
      request with no origin is answered with the error. */
  lemma CheckOriginIff(prod: bool, origin: Option<string>)
    ensures CheckOrigin(prod, origin).error.None? <==> origin.Some? && origin.value in AllowedOrigins(prod)
    ensures CheckOrigin(prod, origin).error.None? ==> CheckOrigin(prod, origin).allow
    ensures origin.Some? && origin.value != "" && origin.value !in AllowedOrigins(prod) ==>
      CheckOrigin(prod, origin) == CorsReply(Some(CorsMessage), false)
    ensures CheckOrigin(true, Some("http://localhost:5173")).error.Some?
    ensures CheckOrigin(false, Some("http://localhost:5173")) == CorsReply(None, true)
  {
    assert "" !in AllowedOrigins(prod);
  }
}
