/**
 * `encodeURIComponent` and `decodeURIComponent` of ECMA-262 5.1 (section
 * 15.1.3): percent-encoding (section 2.1 of RFC 3986) over UTF-8 (RFC 3629).
 * Strings here are sequences of Unicode scalar values, so every character
 * has a code point and the lone-surrogate error of the encoder cannot arise.
 */
module Uri {
  import opened Wrappers
  import Hex

  type byte = x: int | 0 <= x < 256

  datatype UriError = URIError

  /** The characters `encodeURIComponent` copies unchanged (uriUnescaped). */
  predicate Unreserved(c: char) {
    || ('A' <= c <= 'Z') || ('a' <= c <= 'z') || ('0' <= c <= '9')
    || c == '-' || c == '_' || c == '.' || c == '!' || c == '~'
    || c == '*' || c == '\'' || c == '(' || c == ')'
  }

  /** The escape `%XY` of one octet. */
  function PercentOctet(b: byte): string {
    ['%', Hex.UpperDigit(b / 16), Hex.UpperDigit(b % 16)]
  }

  function PercentOctets(bs: seq<byte>): (r: string)
    ensures |r| == 3 * |bs|
    ensures forall i :: 0 <= i < |r| ==> Unreserved(r[i]) || r[i] == '%'
  {
    if bs == [] then [] else PercentOctet(bs[0]) + PercentOctets(bs[1..])
  }

  /** The UTF-8 octets of one code point (section 3 of RFC 3629). */
  function Utf8(c: char): (r: seq<byte>)
    ensures 1 <= |r| <= 4
  {
    var cp := c as int;
    if cp < 0x80 then [cp]
    else if cp < 0x800 then [0xC0 + cp / 64, 0x80 + cp % 64]
    else if cp < 0x10000 then [0xE0 + cp / 4096, 0x80 + (cp / 64) % 64, 0x80 + cp % 64]
    else [0xF0 + cp / 0x40000, 0x80 + (cp / 4096) % 64, 0x80 + (cp / 64) % 64, 0x80 + cp % 64]
  }

  function EncodeChar(c: char): (r: string)
    ensures forall i :: 0 <= i < |r| ==> Unreserved(r[i]) || r[i] == '%'
  {
    if Unreserved(c) then [c] else PercentOctets(Utf8(c))
  }

  /** `encodeURIComponent(s)`. Its output uses only unreserved characters and `%`. */
  function EncodeURIComponent(s: string): (r: string)
    ensures forall i :: 0 <= i < |r| ==> Unreserved(r[i]) || r[i] == '%'
    ensures |r| >= |s|
  {
    if s == [] then [] else EncodeChar(s[0]) + EncodeURIComponent(s[1..])
  }

  /** One `%XY` escape at the head of `s`, if there is one. */
  function ReadOctet(s: string): (r: Option<(byte, string)>)
    ensures r.Some? ==> |s| >= 3 && r.value.1 == s[3..]
  {
    if |s| >= 3 && s[0] == '%' && Hex.DigitValue(s[1]).Some? && Hex.DigitValue(s[2]).Some? then
      Some((16 * Hex.DigitValue(s[1]).value + Hex.DigitValue(s[2]).value, s[3..]))
    else
      None
  }

  /** `k` continuation octets (10xxxxxx), each written as an escape. */
  function ReadContinuations(s: string, k: nat): (r: Option<(seq<byte>, string)>)
    ensures r.Some? ==> |r.value.0| == k && |r.value.1| == |s| - 3 * k
    ensures r.Some? ==> forall i :: 0 <= i < k ==> 0x80 <= r.value.0[i] < 0xC0
  {
    if k == 0 then Some(([], s))
    else
      match ReadOctet(s)
      case None => None
      case Some((b, rest)) =>
        if 0x80 <= b < 0xC0 then
          match ReadContinuations(rest, k - 1)
          case None => None
          case Some((bs, rest')) => Some(([b] + bs, rest'))
        else None
  }

  /** The octet count announced by a leading octet, or 0 when it cannot lead a sequence. */
  function SequenceLength(b: byte): nat {
    if b < 0x80 then 1
    else if 0xC0 <= b < 0xE0 then 2
    else if 0xE0 <= b < 0xF0 then 3
    else if 0xF0 <= b < 0xF8 then 4
    else 0
  }

  /**
   * The code point of a multi-octet sequence, if it is a well-formed UTF-8
   * encoding of a Unicode scalar value (no overlong form, no surrogate, at
   * most U+10FFFF).
   */
  function Utf8Value(b0: byte, cs: seq<byte>): (r: Option<char>)
    requires 2 <= SequenceLength(b0) && |cs| == SequenceLength(b0) - 1
    requires forall i :: 0 <= i < |cs| ==> 0x80 <= cs[i] < 0xC0
  {
    if |cs| == 1 then
      var cp: int := (b0 as int - 0xC0) * 64 + (cs[0] as int - 0x80);
      if cp < 0x80 then None else Some(cp as char)
    else if |cs| == 2 then
      var cp: int := (b0 as int - 0xE0) * 4096 + (cs[0] as int - 0x80) * 64 + (cs[1] as int - 0x80);
      if cp < 0x800 || (0xD800 <= cp < 0xE000) then None else Some(cp as char)
    else
      var cp: int := (b0 as int - 0xF0) * 0x40000 + (cs[0] as int - 0x80) * 4096 + (cs[1] as int - 0x80) * 64 + (cs[2] as int - 0x80);
      if cp < 0x10000 || cp > 0x10FFFF then None else Some(cp as char)
  }

  /** The character denoted by the escapes at the head of `s`, and what follows them. */
  function DecodeEscape(s: string): (r: Result<(char, string), UriError>)
    ensures r.Success? ==> |r.value.1| < |s|
  {
    match ReadOctet(s)
    case None => Failure(URIError)
    case Some((b0, rest)) =>
      if b0 < 0x80 then Success((b0 as char, rest))
      else if SequenceLength(b0) == 0 then Failure(URIError)
      else
        match ReadContinuations(rest, SequenceLength(b0) - 1)
        case None => Failure(URIError)
        case Some((cs, rest')) =>
          match Utf8Value(b0, cs)
          case None => Failure(URIError)
          case Some(c) => Success((c, rest'))
  }

  /** `decodeURIComponent(s)`: every escape is decoded, a malformed one is a `URIError`. */
  function DecodeURIComponent(s: string): (r: Result<string, UriError>)
    decreases |s|
  {
    if s == [] then Success([])
    else if s[0] != '%' then
      match DecodeURIComponent(s[1..])
      case Success(t) => Success([s[0]] + t)
      case Failure(e) => Failure(e)
    else
      match DecodeEscape(s)
      case Failure(e) => Failure(e)
      case Success((c, rest)) =>
        match DecodeURIComponent(rest)
        case Success(t) => Success([c] + t)
        case Failure(e) => Failure(e)
  }

  lemma ReadPercentOctet(b: byte, rest: string)
    ensures ReadOctet(PercentOctet(b) + rest) == Some((b, rest))
  {
    var s := PercentOctet(b) + rest;
    Hex.DigitRoundTrip(b / 16);
    Hex.DigitRoundTrip(b % 16);
    assert s[3..] == rest;
  }

  lemma {:induction false} ReadEscapedContinuations(cs: seq<byte>, rest: string)
    requires forall i :: 0 <= i < |cs| ==> 0x80 <= cs[i] < 0xC0
    ensures ReadContinuations(PercentOctets(cs) + rest, |cs|) == Some((cs, rest))
  {
    if cs != [] {
      var tail := PercentOctets(cs[1..]) + rest;
      assert PercentOctets(cs) + rest == PercentOctet(cs[0]) + tail;
      ReadPercentOctet(cs[0], tail);
      assert ReadOctet(PercentOctets(cs) + rest) == Some((cs[0], tail));
      ReadEscapedContinuations(cs[1..], rest);
      assert ReadContinuations(tail, |cs| - 1) == Some((cs[1..], rest));
      assert [cs[0]] + cs[1..] == cs;
    } else {
      assert PercentOctets(cs) + rest == rest;
    }
  }

  /** The leading octet of `Utf8(c)` announces the length of the sequence. */
  lemma Utf8Lead(c: char)
    ensures SequenceLength(Utf8(c)[0]) == |Utf8(c)|
    ensures forall i :: 1 <= i < |Utf8(c)| ==> 0x80 <= Utf8(c)[i] < 0xC0
  {
  }

  lemma Utf8Decodes2(c: char)
    requires 0x80 <= c as int < 0x800
    ensures Utf8Value(Utf8(c)[0], Utf8(c)[1..]) == Some(c)
  {
    var cp := c as int;
    var b0, b1 := 0xC0 + cp / 64, 0x80 + cp % 64;
    assert Utf8(c) == [b0, b1];
    assert (b0 - 0xC0) * 64 + (b1 - 0x80) == cp;
  }

  lemma Utf8Decodes3(c: char)
    requires 0x800 <= c as int < 0x10000
    ensures Utf8Value(Utf8(c)[0], Utf8(c)[1..]) == Some(c)
  {
    var cp := c as int;
    var hi, mid, lo := cp / 4096, (cp / 64) % 64, cp % 64;
    assert cp / 64 == hi * 64 + mid;
    assert Utf8(c) == [0xE0 + hi, 0x80 + mid, 0x80 + lo];
    assert hi * 4096 + mid * 64 + lo == cp;
  }

  lemma Utf8Decodes4(c: char)
    requires 0x10000 <= c as int
    ensures Utf8Value(Utf8(c)[0], Utf8(c)[1..]) == Some(c)
  {
    var cp := c as int;
    var top, hi, mid, lo := cp / 0x40000, (cp / 4096) % 64, (cp / 64) % 64, cp % 64;
    FourDigits(cp);
    assert Utf8(c) == [0xF0 + top, 0x80 + hi, 0x80 + mid, 0x80 + lo];
  }

  /** A code point as its four base-64 digits. */
  lemma FourDigits(cp: int)
    requires 0 <= cp
    ensures (cp / 0x40000) * 0x40000 + ((cp / 4096) % 64) * 4096 + ((cp / 64) % 64) * 64 + cp % 64 == cp
  {
    var mid, lo := (cp / 64) % 64, cp % 64;
    assert cp == (cp / 64) * 64 + lo;
    assert cp / 64 == (cp / 4096) * 64 + mid;
    assert cp / 4096 == (cp / 0x40000) * 64 + (cp / 4096) % 64;
  }

  /** Decoding the escapes of one encoded character gives that character back. */
  lemma DecodeEscapedChar(c: char, rest: string)
    ensures DecodeEscape(PercentOctets(Utf8(c)) + rest) == Success((c, rest))
  {
    var bs := Utf8(c);
    var tail := PercentOctets(bs[1..]) + rest;
    assert PercentOctets(bs) + rest == PercentOctet(bs[0]) + tail;
    ReadPercentOctet(bs[0], tail);
    Utf8Lead(c);
    if |bs| > 1 {
      if c as int < 0x800 { Utf8Decodes2(c); }
      else if c as int < 0x10000 { Utf8Decodes3(c); }
      else { Utf8Decodes4(c); }
      ReadEscapedContinuations(bs[1..], rest);
    }
  }

  /** The round-trip law: `decodeURIComponent(encodeURIComponent(s)) == s`. */
  lemma {:induction false} DecodeEncode(s: string)
    ensures DecodeURIComponent(EncodeURIComponent(s)) == Success(s)
  {
    if s != [] {
      var tail := EncodeURIComponent(s[1..]);
      DecodeEncode(s[1..]);
      assert EncodeURIComponent(s) == EncodeChar(s[0]) + tail;
      DecodeCharStep(s[0], tail, s[1..]);
      assert [s[0]] + s[1..] == s;
    }
  }

  /** Decoding passes over one encoded character and goes on with what follows. */
  lemma DecodeCharStep(c: char, tail: string, t: string)
    requires DecodeURIComponent(tail) == Success(t)
    ensures DecodeURIComponent(EncodeChar(c) + tail) == Success([c] + t)
  {
    var e := EncodeChar(c) + tail;
    if Unreserved(c) {
      assert e == [c] + tail;
      assert e[1..] == tail;
    } else {
      DecodeEscapedChar(c, tail);
      assert e == PercentOctets(Utf8(c)) + tail;
      assert e[0] == '%';
    }
  }

  /** Distinct strings have distinct encodings. */
  lemma EncodeInjective(s: string, t: string)
    requires EncodeURIComponent(s) == EncodeURIComponent(t)
    ensures s == t
  {
    DecodeEncode(s);
    DecodeEncode(t);
  }
}
