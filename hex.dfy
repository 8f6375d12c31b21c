/** Bytes and their hexadecimal text: the `hexToBytes` and `bytesToHexLower`
    helpers of the Android plugin, each as a loop proved against a function. */
module Hex {

  /** An octet. Kotlin's `Byte` is signed, but every use here (`toInt(16)`
      followed by `toByte()`, and `%02x`) reads it as its unsigned value. */
  type byte = x: int | 0 <= x < 256

  /** The characters of the class `[0-9a-fA-F]`. */
  predicate IsHexDigit(c: char) {
    ('0' <= c <= '9') || ('a' <= c <= 'f') || ('A' <= c <= 'F')
  }

  predicate IsHexString(s: string) {
    forall i :: 0 <= i < |s| ==> IsHexDigit(s[i])
  }

  predicate IsLowerHexDigit(c: char) {
    ('0' <= c <= '9') || ('a' <= c <= 'f')
  }

  /** Radix-16 value of one hex digit, either case. */
  function DigitValue(c: char): (v: nat)
    requires IsHexDigit(c)
    ensures v < 16
  {
    if '0' <= c <= '9' then c as int - '0' as int
    else if 'a' <= c <= 'f' then c as int - 'a' as int + 10
    else c as int - 'A' as int + 10
  }

  /** The lowercase digit for a value below 16 (one half of `%02x`). */
  function LowerDigit(v: nat): (c: char)
    requires v < 16
    ensures IsLowerHexDigit(c) && DigitValue(c) == v
  {
    if v < 10 then ('0' as int + v) as char else ('a' as int + v - 10) as char
  }

  /** `lowercase(Locale.US)` restricted to what it does to hex digits and ASCII letters. */
  function LowerAscii(c: char): char {
    if 'A' <= c <= 'Z' then (c as int - 'A' as int + 'a' as int) as char else c
  }

  function ToLowerAscii(s: string): (r: string)
    ensures |r| == |s|
  {
    if s == [] then [] else [LowerAscii(s[0])] + ToLowerAscii(s[1..])
  }

  /** Lower-casing maps each character on its own. */
  lemma {:induction false} ToLowerAsciiAt(s: string)
    ensures forall i :: 0 <= i < |s| ==> ToLowerAscii(s)[i] == LowerAscii(s[i])
  {
    if s != [] {
      ToLowerAsciiAt(s[1..]);
      assert forall i :: 1 <= i < |s| ==> ToLowerAscii(s)[i] == ToLowerAscii(s[1..])[i - 1];
    }
  }

  /** The bytes denoted by an even-length string of hex digits, two digits per
      byte, high nibble first. */
  function HexDecode(s: string): (r: seq<byte>)
    requires IsHexString(s) && |s| % 2 == 0
    ensures |r| == |s| / 2
  {
    if s == [] then []
    else [16 * DigitValue(s[0]) + DigitValue(s[1])] + HexDecode(s[2..])
  }

  /** Canonical lowercase hex: two lowercase digits per byte, no separator. */
  function HexLower(b: seq<byte>): (r: string)
    ensures |r| == 2 * |b|
    ensures forall i :: 0 <= i < |r| ==> IsLowerHexDigit(r[i])
  {
    if b == [] then [] else [LowerDigit(b[0] / 16), LowerDigit(b[0] % 16)] + HexLower(b[1..])
  }

  /** Twice a number is even (kept apart so that no larger context sees the modulus). */
  lemma Even(n: nat, half: nat)
    requires n == 2 * half
    ensures n % 2 == 0
  {
  }

  /** Byte k of a decoded string is read from characters 2k and 2k+1. */
  lemma {:induction false} HexDecodeAt(s: string, k: nat)
    requires IsHexString(s) && |s| % 2 == 0 && k < |s| / 2
    ensures HexDecode(s)[k] == 16 * DigitValue(s[2 * k]) + DigitValue(s[2 * k + 1])
  {
    if k > 0 {
      HexDecodeAt(s[2..], k - 1);
    }
  }

  /** Digits of a lowercase encoding: characters 2k and 2k+1 hold byte k. */
  lemma {:induction false} HexLowerAt(b: seq<byte>, k: nat)
    requires k < |b|
    ensures HexLower(b)[2 * k] == LowerDigit(b[k] / 16)
    ensures HexLower(b)[2 * k + 1] == LowerDigit(b[k] % 16)
  {
    if k > 0 {
      HexLowerAt(b[1..], k - 1);
    }
  }

  /** Upper and lower case digits denote the same bytes. */
  lemma {:induction false} HexDecodeIgnoresCase(s: string)
    requires IsHexString(s) && |s| % 2 == 0
    ensures IsHexString(ToLowerAscii(s))
    ensures HexDecode(ToLowerAscii(s)) == HexDecode(s)
  {
    var t := ToLowerAscii(s);
    ToLowerAsciiAt(s);
    assert IsHexString(t) by {
      forall i | 0 <= i < |t| ensures IsHexDigit(t[i]) {
        assert t[i] == LowerAscii(s[i]);
      }
    }
    forall k | 0 <= k < |s| / 2 ensures HexDecode(t)[k] == HexDecode(s)[k] {
      HexDecodeAt(s, k);
      HexDecodeAt(t, k);
    }
  }

  /** Decoding the canonical encoding gives the bytes back. */
  lemma {:induction false} HexRoundTrip(b: seq<byte>)
    ensures IsHexString(HexLower(b))
    ensures HexDecode(HexLower(b)) == b
  {
    var s := HexLower(b);
    forall k | 0 <= k < |b| ensures HexDecode(s)[k] == b[k] {
      HexDecodeAt(s, k);
      HexLowerAt(b, k);
    }
  }

  /** Re-encoding decoded hex gives the same text in lower case. */
  lemma {:induction false} HexReencode(s: string)
    requires IsHexString(s) && |s| % 2 == 0
    ensures HexLower(HexDecode(s)) == ToLowerAscii(s)
  {
    var b := HexDecode(s);
    var t := ToLowerAscii(s);
    ToLowerAsciiAt(s);
    forall k | 0 <= k < |b|
      ensures HexLower(b)[2 * k] == t[2 * k] && HexLower(b)[2 * k + 1] == t[2 * k + 1]
    {
      HexDecodeAt(s, k);
      HexLowerAt(b, k);
      Nibbles(DigitValue(s[2 * k]), DigitValue(s[2 * k + 1]));
      DigitLowerRoundTrip(s[2 * k]);
      DigitLowerRoundTrip(s[2 * k + 1]);
    }
    forall i | 0 <= i < |s| ensures HexLower(b)[i] == t[i] {
      assert i == 2 * (i / 2) || i == 2 * (i / 2) + 1;
    }
  }

  lemma Nibbles(hi: nat, lo: nat)
    requires hi < 16 && lo < 16
    ensures (16 * hi + lo) / 16 == hi && (16 * hi + lo) % 16 == lo
  {
  }

  lemma DigitLowerRoundTrip(c: char)
    requires IsHexDigit(c)
    ensures LowerDigit(DigitValue(c)) == LowerAscii(c)
  {
  }

  lemma {:induction false} HexLowerAppend(a: seq<byte>, x: byte)
    ensures HexLower(a + [x]) == HexLower(a) + [LowerDigit(x / 16), LowerDigit(x % 16)]
  {
    if a != [] {
      assert (a + [x])[1..] == a[1..] + [x];
      HexLowerAppend(a[1..], x);
    }
  }

  /** `hexToBytes`: lower-cases the text, then fills a byte array two digits at a time. */
  method HexToBytes(hex: string) returns (out: array<byte>)
    requires IsHexString(hex) && |hex| % 2 == 0
    ensures out[..] == HexDecode(hex)
  {
    var clean := ToLowerAscii(hex);
    HexDecodeIgnoresCase(hex);
    var len := |clean|;
    out := new byte[len / 2];
    var i := 0;
    ghost var k := 0;
    while i < len
      invariant 0 <= i <= len && i == 2 * k && len == 2 * out.Length
      invariant forall j :: 0 <= j < k ==> out[j] == HexDecode(clean)[j]
    {
      HexDecodeAt(clean, k);
      var v: byte := 16 * DigitValue(clean[i]) + DigitValue(clean[i + 1]);
      assert i / 2 == k && v == HexDecode(clean)[k];
      out[i / 2] := v;
      i, k := i + 2, k + 1;
    }
    assert out[..] == HexDecode(clean);
  }

  /** `bytesToHexLower`: appends `%02x` of each byte to a string builder. */
  method BytesToHexLower(bytes: array<byte>) returns (s: string)
    ensures s == HexLower(bytes[..])
  {
    s := [];
    for i := 0 to bytes.Length
      invariant s == HexLower(bytes[..i])
    {
      assert bytes[..i + 1] == bytes[..i] + [bytes[i]];
      HexLowerAppend(bytes[..i], bytes[i]);
      s := s + [LowerDigit(bytes[i] / 16), LowerDigit(bytes[i] % 16)];
    }
    assert bytes[..bytes.Length] == bytes[..];
  }
}
