/** The escaping applied to a post URN before it becomes a URL path segment:
    Python's `quote(s, safe='')`. The string is encoded as UTF-8 and every
    byte outside the unreserved set of section 2.3 of RFC 3986 is written as
    a percent-encoded octet (section 2.1 of RFC 3986) with upper-case hex
    digits; with an empty `safe` set, `/` and `:` are escaped too.

    The partner definitions (`DecodeUtf8`, `UnquoteBytes`, `Unquote`) are a
    strict reference decoder; the lemmas at the end show that decoding undoes
    the escaping, so no two URNs share a URL. */
module PercentEncoding {
  import opened Wrappers

  newtype byte = x: int | 0 <= x < 256

  /** Code points a `char` can hold: the Unicode scalar values. */
  predicate IsScalar(n: int) {
    (0 <= n < 0xD800) || (0xE000 <= n < 0x11_0000)
  }

  predicate IsContinuation(b: byte) {
    0x80 <= b < 0xC0
  }

  // ---------------------------------------------------------------------
  // UTF-8
  // ---------------------------------------------------------------------

  /** The UTF-8 encoding of one scalar value. */
  function EncodeChar(c: char): (bs: seq<byte>)
    ensures 1 <= |bs| <= 4
    ensures |bs| == 1 <==> (c as int) < 0x80
    ensures |bs| == 1 ==> bs[0] as int == c as int
    ensures forall i :: 1 <= i < |bs| ==> IsContinuation(bs[i])
  {
    var n := c as int;
    if n < 0x80 then
      [n as byte]
    else if n < 0x800 then
      [(0xC0 + n / 64) as byte, (0x80 + n % 64) as byte]
    else if n < 0x1_0000 then
      [(0xE0 + n / 4096) as byte, (0x80 + (n / 64) % 64) as byte, (0x80 + n % 64) as byte]
    else
      [(0xF0 + n / 262144) as byte, (0x80 + (n / 4096) % 64) as byte,
       (0x80 + (n / 64) % 64) as byte, (0x80 + n % 64) as byte]
  }

  /** The UTF-8 encoding of a string, character by character. */
  function EncodeUtf8(s: string): (bs: seq<byte>)
    ensures |bs| >= |s|
  {
    if |s| == 0 then [] else EncodeChar(s[0]) + EncodeUtf8(s[1..])
  }

  /** Decodes the first scalar value of `bs`, returning it with the number of
      bytes it occupied; rejects truncated sequences, stray continuation bytes,
      overlong forms, surrogates and values past U+10FFFF. */
  function DecodeFirst(bs: seq<byte>): (r: Option<(char, nat)>)
    requires |bs| > 0
    ensures r.Some? ==> 1 <= r.value.1 <= |bs|
  {
    var b0 := bs[0] as int;
    if b0 < 0x80 then
      Some((b0 as char, 1))
    else if 0xC0 <= b0 < 0xE0 && |bs| >= 2 && IsContinuation(bs[1]) then
      var n := (b0 - 0xC0) * 64 + (bs[1] as int - 0x80);
      if 0x80 <= n then Some((n as char, 2)) else None
    else if 0xE0 <= b0 < 0xF0 && |bs| >= 3 && IsContinuation(bs[1]) && IsContinuation(bs[2]) then
      var n := (b0 - 0xE0) * 4096 + (bs[1] as int - 0x80) * 64 + (bs[2] as int - 0x80);
      if 0x800 <= n && IsScalar(n) then Some((n as char, 3)) else None
    else if 0xF0 <= b0 < 0xF8 && |bs| >= 4 && IsContinuation(bs[1]) && IsContinuation(bs[2])
            && IsContinuation(bs[3]) then
      var n := (b0 - 0xF0) * 262144 + (bs[1] as int - 0x80) * 4096
               + (bs[2] as int - 0x80) * 64 + (bs[3] as int - 0x80);
      if 0x1_0000 <= n < 0x11_0000 then Some((n as char, 4)) else None
    else
      None
  }

  /** Strict UTF-8 decoding: `None` for any ill-formed byte sequence. */
  function DecodeUtf8(bs: seq<byte>): (r: Option<string>)
    decreases |bs|
  {
    if |bs| == 0 then Some([])
    else
      match DecodeFirst(bs)
      case None => None
      case Some((c, k)) =>
        match DecodeUtf8(bs[k..])
        case None => None
        case Some(rest) => Some([c] + rest)
  }

  // ---------------------------------------------------------------------
  // Percent-encoding
  // ---------------------------------------------------------------------

  /** The unreserved characters of section 2.3 of RFC 3986, which Python's
      `quote` never escapes: ASCII letters, digits, `-`, `.`, `_` and `~`. */
  predicate IsUnreserved(c: char) {
    ('A' <= c <= 'Z') || ('a' <= c <= 'z') || ('0' <= c <= '9')
    || c == '-' || c == '.' || c == '_' || c == '~'
  }

  predicate IsUpperHexDigit(c: char) {
    ('0' <= c <= '9') || ('A' <= c <= 'F')
  }

  /** A character that may appear in the output of `Quote`. */
  predicate IsEscapedChar(c: char) {
    IsUnreserved(c) || c == '%'
  }

  /** The upper-case hex digit for a value below 16, as `%02X` writes it. */
  function HexDigit(d: int): (c: char)
    requires 0 <= d < 16
    ensures IsUpperHexDigit(c)
  {
    if d < 10 then ('0' as int + d) as char else ('A' as int + d - 10) as char
  }

  /** The value of a hex digit of either case; `None` for any other character. */
  function HexValue(c: char): (r: Option<int>)
    ensures r.Some? ==> 0 <= r.value < 16
  {
    if '0' <= c <= '9' then Some(c as int - '0' as int)
    else if 'A' <= c <= 'F' then Some(c as int - 'A' as int + 10)
    else if 'a' <= c <= 'f' then Some(c as int - 'a' as int + 10)
    else None
  }

  /** One byte as it appears in the quoted string. */
  function EscapeByte(b: byte): string {
    if IsUnreserved((b as int) as char) then [(b as int) as char]
    else ['%', HexDigit(b as int / 16), HexDigit(b as int % 16)]
  }

  /** Percent-encodes a byte sequence. The output holds only unreserved
      characters and `%`, and every `%` starts a three-character escape. */
  function QuoteBytes(bs: seq<byte>): (t: string)
    ensures |bs| <= |t| <= 3 * |bs|
    ensures forall i :: 0 <= i < |t| ==> IsEscapedChar(t[i])
  {
    if |bs| == 0 then "" else EscapeByte(bs[0]) + QuoteBytes(bs[1..])
  }

  /** Python's `quote(s, safe='')`. */
  function Quote(s: string): (t: string)
    ensures |t| >= |s|
    ensures forall i :: 0 <= i < |t| ==> IsEscapedChar(t[i])
  {
    QuoteBytes(EncodeUtf8(s))
  }

  /** Reference percent-decoding to bytes (section 2.1 of RFC 3986): `%XY`
      becomes one octet, any other ASCII character stands for itself; a
      malformed escape or a non-ASCII character is rejected. */
  function UnquoteBytes(t: string): (r: Option<seq<byte>>)
    decreases |t|
  {
    if |t| == 0 then Some([])
    else if t[0] == '%' then
      if |t| >= 3 && HexValue(t[1]).Some? && HexValue(t[2]).Some? then
        match UnquoteBytes(t[3..])
        case None => None
        case Some(rest) => Some([(HexValue(t[1]).value * 16 + HexValue(t[2]).value) as byte] + rest)
      else None
    else if (t[0] as int) < 0x80 then
      match UnquoteBytes(t[1..])
      case None => None
      case Some(rest) => Some([(t[0] as int) as byte] + rest)
    else None
  }

  /** Reference inverse of `Quote`. */
  function Unquote(t: string): Option<string> {
    match UnquoteBytes(t)
    case None => None
    case Some(bs) => DecodeUtf8(bs)
  }

  // ---------------------------------------------------------------------
  // Properties
  // ---------------------------------------------------------------------

  /** Decoding the encoding of one character recovers it and its length. */
  lemma DecodeFirstEncodeChar(c: char, rest: seq<byte>)
    ensures DecodeFirst(EncodeChar(c) + rest) == Some((c, |EncodeChar(c)|))
  {
    var n := c as int;
    if n < 0x80 {
    } else if n < 0x800 {
      DecodeTwo(c, rest);
    } else if n < 0x1_0000 {
      DecodeThree(c, rest);
    } else {
      DecodeFour(c, rest);
    }
  }

  lemma DecodeTwo(c: char, rest: seq<byte>)
    requires 0x80 <= c as int < 0x800
    ensures DecodeFirst(EncodeChar(c) + rest) == Some((c, 2))
  {
    var n := c as int;
    var hi, lo := n / 64, n % 64;
    assert n == hi * 64 + lo;
    var bs := EncodeChar(c) + rest;
    assert bs[0] as int == 0xC0 + hi && bs[1] as int == 0x80 + lo;
  }

  lemma DecodeThree(c: char, rest: seq<byte>)
    requires 0x800 <= c as int < 0x1_0000
    ensures DecodeFirst(EncodeChar(c) + rest) == Some((c, 3))
  {
    var n := c as int;
    var q := n / 64;
    var b0, b1, b2 := q / 64, q % 64, n % 64;
    assert n == q * 64 + b2;
    assert q == b0 * 64 + b1;
    assert n / 4096 == b0;
    var bs := EncodeChar(c) + rest;
    assert bs[0] as int == 0xE0 + b0 && bs[1] as int == 0x80 + b1 && bs[2] as int == 0x80 + b2;
  }

  lemma DecodeFour(c: char, rest: seq<byte>)
    requires 0x1_0000 <= c as int
    ensures DecodeFirst(EncodeChar(c) + rest) == Some((c, 4))
  {
    var n := c as int;
    var q := n / 64;
    var p := q / 64;
    var b0, b1, b2, b3 := p / 64, p % 64, q % 64, n % 64;
    assert n == q * 64 + b3;
    assert q == p * 64 + b2;
    assert p == b0 * 64 + b1;
    assert n / 4096 == p;
    assert n / 262144 == b0;
    var bs := EncodeChar(c) + rest;
    assert bs[0] as int == 0xF0 + b0 && bs[1] as int == 0x80 + b1;
    assert bs[2] as int == 0x80 + b2 && bs[3] as int == 0x80 + b3;
  }

  /** Strict UTF-8 decoding undoes UTF-8 encoding. */
  lemma {:induction false} DecodeEncodeUtf8(s: string)
    ensures DecodeUtf8(EncodeUtf8(s)) == Some(s)
  {
    if |s| > 0 {
      var head := EncodeChar(s[0]);
      var bs := head + EncodeUtf8(s[1..]);
      DecodeFirstEncodeChar(s[0], EncodeUtf8(s[1..]));
      assert bs[|head|..] == EncodeUtf8(s[1..]);
      DecodeEncodeUtf8(s[1..]);
      assert [s[0]] + s[1..] == s;
    }
  }

  /** Percent-decoding the escape of one byte, followed by any text, yields
      that byte in front of whatever the text decodes to. */
  lemma UnquoteEscapeByte(b: byte, t: string)
    ensures UnquoteBytes(EscapeByte(b) + t) ==
      match UnquoteBytes(t)
      case None => None
      case Some(rest) => Some([b] + rest)
  {
    var e := EscapeByte(b);
    if IsUnreserved((b as int) as char) {
      assert (e + t)[1..] == t;
    } else {
      assert (e + t)[3..] == t;
      assert (b as int / 16) * 16 + b as int % 16 == b as int;
    }
  }

  /** Percent-decoding undoes `QuoteBytes`. */
  lemma {:induction false} UnquoteQuoteBytes(bs: seq<byte>)
    ensures UnquoteBytes(QuoteBytes(bs)) == Some(bs)
  {
    if |bs| > 0 {
      UnquoteEscapeByte(bs[0], QuoteBytes(bs[1..]));
      UnquoteQuoteBytes(bs[1..]);
      assert [bs[0]] + bs[1..] == bs;
    }
  }

  /** `Unquote` undoes `Quote` for every string. */
  lemma UnquoteQuote(s: string)
    ensures Unquote(Quote(s)) == Some(s)
  {
    UnquoteQuoteBytes(EncodeUtf8(s));
    DecodeEncodeUtf8(s);
  }

  /** Distinct strings quote to distinct path segments. */
  lemma QuoteInjective(s1: string, s2: string)
    requires Quote(s1) == Quote(s2)
    ensures s1 == s2
  {
    UnquoteQuote(s1);
    UnquoteQuote(s2);
  }

  /** A string made only of unreserved characters is left unchanged. */
  lemma {:induction false} QuoteUnreservedIdentity(s: string)
    requires forall i :: 0 <= i < |s| ==> IsUnreserved(s[i])
    ensures Quote(s) == s
  {
    if |s| > 0 {
      QuoteUnreservedIdentity(s[1..]);
      assert EncodeUtf8(s) == EncodeChar(s[0]) + EncodeUtf8(s[1..]);
      assert QuoteBytes(EncodeUtf8(s)) == EscapeByte(EncodeChar(s[0])[0]) + QuoteBytes(EncodeUtf8(s[1..]));
      assert [s[0]] + s[1..] == s;
    }
  }

  /** UTF-8 encoding distributes over concatenation. */
  lemma {:induction false} EncodeUtf8Append(s1: string, s2: string)
    ensures EncodeUtf8(s1 + s2) == EncodeUtf8(s1) + EncodeUtf8(s2)
  {
    if |s1| > 0 {
      assert (s1 + s2)[1..] == s1[1..] + s2;
      EncodeUtf8Append(s1[1..], s2);
    } else {
      assert s1 + s2 == s2;
    }
  }

  /** Percent-encoding of bytes distributes over concatenation. */
  lemma {:induction false} QuoteBytesAppend(b1: seq<byte>, b2: seq<byte>)
    ensures QuoteBytes(b1 + b2) == QuoteBytes(b1) + QuoteBytes(b2)
  {
    if |b1| > 0 {
      assert (b1 + b2)[1..] == b1[1..] + b2;
      QuoteBytesAppend(b1[1..], b2);
    } else {
      assert b1 + b2 == b2;
    }
  }

  /** Quoting works character by character: the quote of a concatenation is
      the concatenation of the quotes. */
  lemma QuoteAppend(s1: string, s2: string)
    ensures Quote(s1 + s2) == Quote(s1) + Quote(s2)
  {
    EncodeUtf8Append(s1, s2);
    QuoteBytesAppend(EncodeUtf8(s1), EncodeUtf8(s2));
  }

  /** A reserved ASCII character becomes a single upper-case escape. */
  lemma QuoteReservedAscii(c: char)
    requires (c as int) < 0x80 && !IsUnreserved(c)
    ensures Quote([c]) == ['%', HexDigit(c as int / 16), HexDigit(c as int % 16)]
  {
    assert EncodeUtf8([c]) == EncodeChar(c) + EncodeUtf8([]);
    assert QuoteBytes(EncodeChar(c)) == EscapeByte(EncodeChar(c)[0]) + QuoteBytes([]);
  }
}
