/** The "base64url" encoding of section 5 of RFC 4648, as Node's `Buffer`
    implements it: encoding writes no `=` padding; decoding is lenient, it
    accepts both the URL-safe and the standard alphabet, skips any other
    character, stops at the first `=`, and drops a lone trailing symbol. */
module Base64Url {
  import opened Wrappers

  type Byte = b: int | 0 <= b < 256
  type Sextet = v: int | 0 <= v < 64

  /** The URL-safe alphabet: A-Z, a-z, 0-9, '-', '_'. */
  function Symbol(v: Sextet): (c: char)
    ensures c != '='
  {
    if v < 26 then ('A' as int + v) as char
    else if v < 52 then ('a' as int + (v - 26)) as char
    else if v < 62 then ('0' as int + (v - 52)) as char
    else if v == 62 then '-'
    else '_'
  }

  /** The value of a symbol of either alphabet; None for every other character. */
  function SymbolValue(c: char): Option<Sextet> {
    if 'A' <= c <= 'Z' then Some(c as int - 'A' as int)
    else if 'a' <= c <= 'z' then Some(c as int - 'a' as int + 26)
    else if '0' <= c <= '9' then Some(c as int - '0' as int + 52)
    else if c == '-' || c == '+' then Some(62)
    else if c == '_' || c == '/' then Some(63)
    else None
  }

  lemma SymbolRoundTrip(v: Sextet)
    ensures SymbolValue(Symbol(v)) == Some(v)
  {
  }

  /** Three bytes become four sextets; a tail of one or two bytes becomes two or
      three sextets, the unused low bits zero. */
  function Sextets(b: seq<Byte>): (r: seq<Sextet>)
    ensures |r| == (|b| / 3) * 4 + (if |b| % 3 == 0 then 0 else |b| % 3 + 1)
  {
    if |b| >= 3 then
      [b[0] / 4, (b[0] % 4) * 16 + b[1] / 16, (b[1] % 16) * 4 + b[2] / 64, b[2] % 64]
      + Sextets(b[3..])
    else if |b| == 2 then [b[0] / 4, (b[0] % 4) * 16 + b[1] / 16, (b[1] % 16) * 4]
    else if |b| == 1 then [b[0] / 4, (b[0] % 4) * 16]
    else []
  }

  /** `Buffer.from(bytes).toString("base64url")`. */
  function Encode(b: seq<Byte>): (r: string)
    ensures '=' !in r
  {
    var sx := Sextets(b);
    seq(|sx|, i requires 0 <= i < |sx| => Symbol(sx[i]))
  }

  /** The symbol values the decoder keeps: everything before the first '=',
      with characters outside both alphabets skipped. */
  function Values(s: string): seq<Sextet> {
    if s == [] || s[0] == '=' then []
    else match SymbolValue(s[0])
      case Some(v) => [v] + Values(s[1..])
      case None => Values(s[1..])
  }

  function DecodeSextets(v: seq<Sextet>): seq<Byte> {
    if |v| < 2 then []
    else
      var b0: Byte := v[0] as int * 4 + v[1] as int / 16;
      if |v| == 2 then [b0]
      else
        var b1: Byte := (v[1] as int % 16) * 16 + v[2] as int / 4;
        if |v| == 3 then [b0, b1]
        else
          var b2: Byte := (v[2] as int % 4) * 64 + v[3] as int;
          [b0, b1, b2] + DecodeSextets(v[4..])
  }

  /** `Buffer.from(s, "base64url")`. */
  function Decode(s: string): seq<Byte> {
    DecodeSextets(Values(s))
  }

  lemma {:induction false} ValuesOfSymbols(sx: seq<Sextet>)
    ensures Values(seq(|sx|, i requires 0 <= i < |sx| => Symbol(sx[i]))) == sx
  {
    var s := seq(|sx|, i requires 0 <= i < |sx| => Symbol(sx[i]));
    if sx != [] {
      SymbolRoundTrip(sx[0]);
      assert s[1..] == seq(|sx[1..]|, i requires 0 <= i < |sx[1..]| => Symbol(sx[1..][i]));
      ValuesOfSymbols(sx[1..]);
    }
  }

  /** The first byte comes back from its six high bits and the two bits
      that open the second sextet. */
  lemma FirstByteBack(x: Byte, y: Byte)
    ensures (x / 4) * 4 + ((x % 4) * 16 + y / 16) / 16 == x
  {
    assert ((x % 4) * 16 + y / 16) / 16 == x % 4;
  }

  /** The second byte comes back from the low nibble of the second sextet and
      the high nibble of the third. */
  lemma SecondByteBack(x: Byte, y: Byte, z: Byte)
    ensures (((x % 4) * 16 + y / 16) % 16) * 16 + ((y % 16) * 4 + z / 64) / 4 == y
  {
    assert ((x % 4) * 16 + y / 16) % 16 == y / 16;
    assert ((y % 16) * 4 + z / 64) / 4 == y % 16;
  }

  /** The third byte comes back from the two low bits of the third sextet and
      the whole of the fourth. */
  lemma ThirdByteBack(y: Byte, z: Byte)
    ensures (((y % 16) * 4 + z / 64) % 4) * 64 + z % 64 == z
  {
    assert ((y % 16) * 4 + z / 64) % 4 == z / 64;
  }

  lemma {:induction false} DecodeSextetsOfBytes(b: seq<Byte>)
    ensures DecodeSextets(Sextets(b)) == b
  {
    if |b| >= 3 {
      var sx := Sextets(b);
      assert sx[4..] == Sextets(b[3..]);
      DecodeSextetsOfBytes(b[3..]);
      FirstByteBack(b[0], b[1]);
      SecondByteBack(b[0], b[1], b[2]);
      ThirdByteBack(b[1], b[2]);
      assert DecodeSextets(sx) == [b[0], b[1], b[2]] + DecodeSextets(sx[4..]);
      assert b == [b[0], b[1], b[2]] + b[3..];
    } else if |b| == 2 {
      FirstByteBack(b[0], b[1]);
      SecondByteBack(b[0], b[1], 0);
      assert b == [b[0], b[1]];
    } else if |b| == 1 {
      FirstByteBack(b[0], 0);
      assert b == [b[0]];
    }
  }

  /** Decoding undoes encoding, for every byte string. */
  lemma RoundTrip(b: seq<Byte>)
    ensures Decode(Encode(b)) == b
  {
    ValuesOfSymbols(Sextets(b));
    DecodeSextetsOfBytes(b);
  }
}
