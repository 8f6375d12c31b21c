/** Base 64 as in section 4 of RFC 4648, with the acceptance rules of the
    basic (non-MIME) decoder `java.util.Base64.getDecoder()` that the plugin
    calls, and the URL-safe alphabet of section 5 for encoding. */
module Base64 {
  import opened Wrappers
  import opened Hex

  /** The 64 characters of the standard alphabet (Table 1 of RFC 4648). */
  predicate InAlphabet(c: char) {
    ('A' <= c <= 'Z') || ('a' <= c <= 'z') || ('0' <= c <= '9') || c == '+' || c == '/'
  }

  function SextetValue(c: char): (v: nat)
    requires InAlphabet(c)
    ensures v < 64
  {
    if 'A' <= c <= 'Z' then c as int - 'A' as int
    else if 'a' <= c <= 'z' then c as int - 'a' as int + 26
    else if '0' <= c <= '9' then c as int - '0' as int + 52
    else if c == '+' then 62
    else 63
  }

  /** The standard-alphabet character for a 6-bit value. */
  function StdChar(v: nat): (c: char)
    requires v < 64
    ensures InAlphabet(c) && SextetValue(c) == v
  {
    if v < 26 then ('A' as int + v) as char
    else if v < 52 then ('a' as int + v - 26) as char
    else if v < 62 then ('0' as int + v - 52) as char
    else if v == 62 then '+'
    else '/'
  }

  /** The URL- and filename-safe character (Table 2 of RFC 4648). */
  function UrlChar(v: nat): (c: char)
    requires v < 64
    ensures v < 62 ==> c == StdChar(v)
    ensures v == 62 ==> c == '-'
    ensures v == 63 ==> c == '_'
  {
    if v == 62 then '-' else if v == 63 then '_' else StdChar(v)
  }

  /** First byte of a unit: 6 bits of the first character, 2 of the second. */
  function Byte0(c0: char, c1: char): byte
    requires InAlphabet(c0) && InAlphabet(c1)
  {
    SextetValue(c0) * 4 + SextetValue(c1) / 16
  }

  function Byte1(c1: char, c2: char): byte
    requires InAlphabet(c1) && InAlphabet(c2)
  {
    (SextetValue(c1) % 16) * 16 + SextetValue(c2) / 4
  }

  function Byte2(c2: char, c3: char): byte
    requires InAlphabet(c2) && InAlphabet(c3)
  {
    (SextetValue(c2) % 4) * 64 + SextetValue(c3)
  }

  /** The basic decoder. Whole 4-character units of alphabet characters give
      three bytes each. Only the very last unit may be padded, as `xx==` (one
      byte) or `xxx=` (two bytes), or left unpadded as `xx` or `xxx`. Any other
      character, a `=` anywhere else, or one dangling character is an error.
      Like the Java decoder, unused low bits of the last character are not checked. */
  function Decode(s: string): (r: Option<seq<byte>>)
    decreases |s|
  {
    if |s| == 0 then Some([])
    else if |s| == 1 then None
    else if |s| == 2 then
      if InAlphabet(s[0]) && InAlphabet(s[1]) then Some([Byte0(s[0], s[1])]) else None
    else if |s| == 3 then
      if InAlphabet(s[0]) && InAlphabet(s[1]) && InAlphabet(s[2])
      then Some([Byte0(s[0], s[1]), Byte1(s[1], s[2])]) else None
    else if InAlphabet(s[0]) && InAlphabet(s[1]) && InAlphabet(s[2]) && InAlphabet(s[3]) then
      match Decode(s[4..])
      case Some(rest) => Some([Byte0(s[0], s[1]), Byte1(s[1], s[2]), Byte2(s[2], s[3])] + rest)
      case None => None
    else if |s| == 4 && InAlphabet(s[0]) && InAlphabet(s[1]) && s[2] == '=' && s[3] == '=' then
      Some([Byte0(s[0], s[1])])
    else if |s| == 4 && InAlphabet(s[0]) && InAlphabet(s[1]) && InAlphabet(s[2]) && s[3] == '=' then
      Some([Byte0(s[0], s[1]), Byte1(s[1], s[2])])
    else None
  }

  /** Canonical standard encoding with `=` padding (section 4 of RFC 4648). */
  function Encode(b: seq<byte>): (r: string)
    decreases |b|
  {
    if |b| == 0 then []
    else if |b| == 1 then [StdChar(b[0] / 4), StdChar((b[0] % 4) * 16), '=', '=']
    else if |b| == 2 then
      [StdChar(b[0] / 4), StdChar((b[0] % 4) * 16 + b[1] / 16), StdChar((b[1] % 16) * 4), '=']
    else
      [StdChar(b[0] / 4), StdChar((b[0] % 4) * 16 + b[1] / 16),
       StdChar((b[1] % 16) * 4 + b[2] / 64), StdChar(b[2] % 64)] + Encode(b[3..])
  }

  /** URL-safe encoding without padding, as base64url tokens are usually written. */
  function UrlEncode(b: seq<byte>): (r: string)
    decreases |b|
  {
    if |b| == 0 then []
    else if |b| == 1 then [UrlChar(b[0] / 4), UrlChar((b[0] % 4) * 16)]
    else if |b| == 2 then
      [UrlChar(b[0] / 4), UrlChar((b[0] % 4) * 16 + b[1] / 16), UrlChar((b[1] % 16) * 4)]
    else
      [UrlChar(b[0] / 4), UrlChar((b[0] % 4) * 16 + b[1] / 16),
       UrlChar((b[1] % 16) * 4 + b[2] / 64), UrlChar(b[2] % 64)] + UrlEncode(b[3..])
  }

  /** Every accepted text is of length 0, 2 or 3 modulo 4: a length of 1
      modulo 4 is always rejected. */
  lemma {:induction false} DecodeRejectsOneModFour(s: string)
    requires |s| % 4 == 1
    ensures Decode(s) == None
  {
    if |s| > 4 {
      DecodeRejectsOneModFour(s[4..]);
    }
  }

  /** Three bytes survive the encode/decode arithmetic of one unit. */
  lemma ThreeBytes(b0: byte, b1: byte, b2: byte)
    ensures (b0 / 4) * 4 + ((b0 % 4) * 16 + b1 / 16) / 16 == b0
    ensures (((b0 % 4) * 16 + b1 / 16) % 16) * 16 + ((b1 % 16) * 4 + b2 / 64) / 4 == b1
    ensures (((b1 % 16) * 4 + b2 / 64) % 4) * 64 + b2 % 64 == b2
  {
    var p, q := b0 % 4, b1 / 16;
    assert ((p * 16 + q) / 16) == p && (p * 16 + q) % 16 == q;
    var r, t := b1 % 16, b2 / 64;
    assert ((r * 4 + t) / 4) == r && (r * 4 + t) % 4 == t;
  }

  lemma DecodeEncodeOne(b: seq<byte>)
    requires |b| == 1
    ensures Decode(Encode(b)) == Some(b)
  {
    ThreeBytes(b[0], 0, 0);
    assert b == [b[0]];
  }

  lemma DecodeEncodeTwo(b: seq<byte>)
    requires |b| == 2
    ensures Decode(Encode(b)) == Some(b)
  {
    ThreeBytes(b[0], b[1], 0);
    var e := Encode(b);
    assert SextetValue(e[2]) == (b[1] % 16) * 4 + 0 / 64;
    assert Byte1(e[1], e[2]) == b[1];
    assert Byte0(e[0], e[1]) == b[0];
    assert Decode(e) == Some([Byte0(e[0], e[1]), Byte1(e[1], e[2])]);
    assert b == [b[0], b[1]];
  }

  /** Decoding the canonical encoding gives the bytes back. */
  lemma {:induction false} DecodeEncode(b: seq<byte>)
    ensures Decode(Encode(b)) == Some(b)
    decreases |b|, 1
  {
    if |b| == 1 {
      DecodeEncodeOne(b);
    } else if |b| == 2 {
      DecodeEncodeTwo(b);
    } else if |b| >= 3 {
      DecodeEncodeLong(b);
    }
  }

  /** A leading group of three bytes, then the rest by the round trip. */
  lemma {:induction false} DecodeEncodeLong(b: seq<byte>)
    requires |b| >= 3
    ensures Decode(Encode(b)) == Some(b)
    decreases |b|, 0
  {
    var e := Encode(b);
    ThreeBytes(b[0], b[1], b[2]);
    assert [Byte0(e[0], e[1]), Byte1(e[1], e[2]), Byte2(e[2], e[3])] == b[..3];
    assert e[4..] == Encode(b[3..]);
    DecodeEncode(b[3..]);
    assert b == b[..3] + b[3..];
  }
}
