/** The token codec of the Android plugin: `decodeTokenToBytes` and
    `normalizeTokenToHex`. Hex is tried first on the trimmed text; otherwise the
    UNTRIMMED text is rewritten from base64url to base64, padded, and decoded. */
module TokenCodec {
  import opened Wrappers
  import opened Hex
  import Base64

  /** The only way a token can fail: "Invalid token format (expected hex or base64url/base64)". */
  datatype TokenError = InvalidTokenFormat

  /** Kotlin's `Char.isWhitespace()`: Java whitespace or a Unicode space separator. */
  predicate IsWhitespace(c: char) {
    var n := c as int;
    (9 <= n <= 13) || (0x1C <= n <= 0x20) || n == 0xA0 || n == 0x1680
    || (0x2000 <= n <= 0x200A) || n == 0x2028 || n == 0x2029 || n == 0x202F
    || n == 0x205F || n == 0x3000
  }

  predicate AllWhitespace(s: string) {
    forall i :: 0 <= i < |s| ==> IsWhitespace(s[i])
  }

  predicate NoWhitespace(s: string) {
    forall i :: 0 <= i < |s| ==> !IsWhitespace(s[i])
  }

  function TrimStart(s: string): string {
    if s == [] || !IsWhitespace(s[0]) then s else TrimStart(s[1..])
  }

  function TrimEnd(s: string): string {
    if s == [] || !IsWhitespace(s[|s| - 1]) then s else TrimEnd(s[..|s| - 1])
  }

  /** `trimStart` drops exactly the leading whitespace. */
  lemma {:induction false} TrimStartSpec(s: string)
    ensures |TrimStart(s)| <= |s| && TrimStart(s) == s[|s| - |TrimStart(s)|..]
    ensures AllWhitespace(s[..|s| - |TrimStart(s)|])
    ensures TrimStart(s) == [] || !IsWhitespace(TrimStart(s)[0])
  {
    if s != [] && IsWhitespace(s[0]) {
      TrimStartSpec(s[1..]);
      var k := |s| - |TrimStart(s)|;
      assert s[1..][..k - 1] == s[1..k];
      assert forall i :: 1 <= i < k ==> s[i] == s[1..][..k - 1][i - 1];
    }
  }

  /** `trimEnd` drops exactly the trailing whitespace. */
  lemma {:induction false} TrimEndSpec(s: string)
    ensures |TrimEnd(s)| <= |s| && TrimEnd(s) == s[..|TrimEnd(s)|]
    ensures AllWhitespace(s[|TrimEnd(s)|..])
    ensures TrimEnd(s) == [] || !IsWhitespace(TrimEnd(s)[|TrimEnd(s)| - 1])
  {
    if s != [] && IsWhitespace(s[|s| - 1]) {
      var t := s[..|s| - 1];
      TrimEndSpec(t);
      var k := |TrimEnd(t)|;
      assert forall i :: k <= i < |s| - 1 ==> s[i] == t[k..][i - k];
    }
  }

  /** Kotlin's `trim()`: the text between leading and trailing whitespace. */
  function Trim(s: string): string {
    TrimEnd(TrimStart(s))
  }

  /** The regex `^[0-9a-fA-F]+$` together with the even-length test. */
  predicate IsHexToken(t: string) {
    |t| > 0 && IsHexString(t) && |t| % 2 == 0
  }

  /** `replace('-', '+').replace('_', '/')`. */
  function UrlToStd(s: string): (r: string)
    ensures |r| == |s|
  {
    if s == [] then []
    else [if s[0] == '-' then '+' else if s[0] == '_' then '/' else s[0]] + UrlToStd(s[1..])
  }

  /** The `when (normalized.length % 4)` padding step. */
  function Pad(s: string): string {
    if |s| % 4 == 2 then s + "==" else if |s| % 4 == 3 then s + "=" else s
  }

  function DecodeTokenToBytes(token: string): Result<seq<byte>, TokenError> {
    var hex := Trim(token);
    if IsHexToken(hex) then Success(HexDecode(hex))
    else
      match Base64.Decode(Pad(UrlToStd(token)))
      case Some(b) => Success(b)
      case None => Failure(InvalidTokenFormat)
  }

  function NormalizeTokenToHex(token: string): Result<string, TokenError> {
    match DecodeTokenToBytes(token)
    case Success(b) => Success(HexLower(b))
    case Failure(e) => Failure(e)
  }

  // ---- trimming ----

  /** Trimming removes exactly the surrounding whitespace. */
  lemma {:induction false} TrimSplits(s: string)
    ensures exists i, j :: (0 <= i <= j <= |s| && Trim(s) == s[i..j]
                            && AllWhitespace(s[..i]) && AllWhitespace(s[j..]))
    ensures Trim(s) == [] || (!IsWhitespace(Trim(s)[0]) && !IsWhitespace(Trim(s)[|Trim(s)| - 1]))
  {
    var a := TrimStart(s);
    TrimStartSpec(s);
    var i := |s| - |a|;
    var r := TrimEnd(a);
    TrimEndSpec(a);
    assert r == s[i..i + |r|];
    assert s[i + |r|..] == a[|r|..];
  }

  lemma {:induction false} TrimNoWhitespace(s: string)
    requires NoWhitespace(s)
    ensures Trim(s) == s
  {
  }

  // ---- hex path ----

  /** A token whose trimmed text is a non-empty, even-length string of hex
      digits decodes on the hex path, to half as many bytes as digits. */
  lemma HexPath(token: string)
    requires IsHexToken(Trim(token))
    ensures DecodeTokenToBytes(token) == Success(HexDecode(Trim(token)))
    ensures |DecodeTokenToBytes(token).value| == |Trim(token)| / 2
  {
  }

  /** Upper-case and lower-case hex tokens decode to the same bytes. */
  lemma HexPathIgnoresCase(token: string)
    requires IsHexToken(Trim(token))
    ensures IsHexToken(ToLowerAscii(Trim(token)))
    ensures DecodeTokenToBytes(ToLowerAscii(Trim(token))) == DecodeTokenToBytes(token)
  {
    var h := Trim(token);
    var l := ToLowerAscii(h);
    ToLowerAsciiAt(h);
    HexDecodeIgnoresCase(h);
    assert NoWhitespace(l) by {
      forall i | 0 <= i < |l| ensures !IsWhitespace(l[i]) {
        assert l[i] == LowerAscii(h[i]);
      }
    }
    TrimNoWhitespace(l);
  }

  /** The canonical hex of some bytes decodes back to those bytes. */
  lemma HexLowerDecodes(b: seq<byte>)
    ensures DecodeTokenToBytes(HexLower(b)) == Success(b)
  {
    var h := HexLower(b);
    if b == [] {
      assert h == [];
      EmptyToken();
    } else {
      HexRoundTrip(b);
      assert NoWhitespace(h) by {
        forall i | 0 <= i < |h| ensures !IsWhitespace(h[i]) {
          assert IsLowerHexDigit(h[i]);
        }
      }
      TrimNoWhitespace(h);
      assert IsHexToken(Trim(h));
      HexPath(h);
    }
  }

  /** Canonical hex is a fixed point of the normalisation. */
  lemma NormalizeHexLower(b: seq<byte>)
    ensures NormalizeTokenToHex(HexLower(b)) == Success(HexLower(b))
  {
    HexLowerDecodes(b);
  }

  /** Normalising twice is normalising once. */
  lemma NormalizeIdempotent(token: string)
    requires NormalizeTokenToHex(token).Success?
    ensures NormalizeTokenToHex(NormalizeTokenToHex(token).value) == NormalizeTokenToHex(token)
  {
    NormalizeHexLower(DecodeTokenToBytes(token).value);
  }

  /** A normalised token is even-length lower-case hex and normalises to itself. */
  lemma NormalizedIsCanonical(token: string)
    requires NormalizeTokenToHex(token).Success?
    ensures |NormalizeTokenToHex(token).value| % 2 == 0
    ensures forall k :: 0 <= k < |NormalizeTokenToHex(token).value| ==>
              IsLowerHexDigit(NormalizeTokenToHex(token).value[k])
    ensures NormalizeTokenToHex(NormalizeTokenToHex(token).value) == NormalizeTokenToHex(token)
  {
    NormalizedValue(token);
    CanonicalHex(DecodeTokenToBytes(token).value);
  }

  lemma CanonicalHex(b: seq<byte>)
    ensures |HexLower(b)| % 2 == 0
    ensures NormalizeTokenToHex(HexLower(b)) == Success(HexLower(b))
  {
    NormalizeHexLower(b);
    Even(|HexLower(b)|, |b|);
  }

  lemma NormalizedValue(token: string)
    requires NormalizeTokenToHex(token).Success?
    ensures DecodeTokenToBytes(token).Success?
    ensures NormalizeTokenToHex(token) == Success(HexLower(DecodeTokenToBytes(token).value))
  {
  }

  // ---- base64 path ----

  /** Padding brings lengths 2 and 3 modulo 4 to a multiple of 4 and leaves
      other lengths alone. */
  lemma PadLength(s: string)
    ensures |s| % 4 == 1 ==> Pad(s) == s
    ensures |s| % 4 != 1 ==> |Pad(s)| % 4 == 0 && Pad(s)[..|s|] == s
    ensures |s| % 4 == 0 ==> Pad(s) == s
    ensures |s| % 4 == 2 ==> Pad(s) == s + "=="
    ensures |s| % 4 == 3 ==> Pad(s) == s + "="
  {
  }

  /** A token that is not hex and whose length is 1 modulo 4 fails. */
  lemma OneModFourFails(token: string)
    requires !IsHexToken(Trim(token)) && |token| % 4 == 1
    ensures DecodeTokenToBytes(token) == Failure(InvalidTokenFormat)
  {
    Base64.DecodeRejectsOneModFour(Pad(UrlToStd(token)));
  }

  lemma {:induction false} UrlToStdAppend(a: string, b: string)
    ensures UrlToStd(a + b) == UrlToStd(a) + UrlToStd(b)
  {
    if a != [] {
      var c := a[0];
      var m := if c == '-' then '+' else if c == '_' then '/' else c;
      assert (a + b)[0] == c && (a + b)[1..] == a[1..] + b;
      assert UrlToStd(a + b) == [m] + UrlToStd(a[1..] + b);
      UrlToStdAppend(a[1..], b);
      assert UrlToStd(a) == [m] + UrlToStd(a[1..]);
    } else {
      assert a + b == b;
    }
  }

  lemma UrlToStdChar(v: nat)
    requires v < 64
    ensures UrlToStd([Base64.UrlChar(v)]) == [Base64.StdChar(v)]
  {
  }

  lemma PadAfterUnit(x: string, y: string)
    requires |x| % 4 == 0
    ensures Pad(x + y) == x + Pad(y)
  {
  }

  /** The rewrite maps each URL-safe character to the standard one of the same value. */
  lemma UrlToStdChars2(v0: nat, v1: nat)
    requires v0 < 64 && v1 < 64
    ensures UrlToStd([Base64.UrlChar(v0), Base64.UrlChar(v1)]) == [Base64.StdChar(v0), Base64.StdChar(v1)]
  {
    UrlToStdChar(v0);
    UrlToStdChar(v1);
    UrlToStdAppend([Base64.UrlChar(v0)], [Base64.UrlChar(v1)]);
    assert [Base64.UrlChar(v0), Base64.UrlChar(v1)] == [Base64.UrlChar(v0)] + [Base64.UrlChar(v1)];
  }

  lemma UrlToStdChars3(v0: nat, v1: nat, v2: nat)
    requires v0 < 64 && v1 < 64 && v2 < 64
    ensures UrlToStd([Base64.UrlChar(v0), Base64.UrlChar(v1), Base64.UrlChar(v2)])
         == [Base64.StdChar(v0), Base64.StdChar(v1), Base64.StdChar(v2)]
  {
    UrlToStdChars2(v0, v1);
    UrlToStdChar(v2);
    var a := [Base64.UrlChar(v0), Base64.UrlChar(v1)];
    UrlToStdAppend(a, [Base64.UrlChar(v2)]);
    assert [Base64.UrlChar(v0), Base64.UrlChar(v1), Base64.UrlChar(v2)] == a + [Base64.UrlChar(v2)];
  }

  lemma UrlToStdChars4(v0: nat, v1: nat, v2: nat, v3: nat)
    requires v0 < 64 && v1 < 64 && v2 < 64 && v3 < 64
    ensures UrlToStd([Base64.UrlChar(v0), Base64.UrlChar(v1), Base64.UrlChar(v2), Base64.UrlChar(v3)])
         == [Base64.StdChar(v0), Base64.StdChar(v1), Base64.StdChar(v2), Base64.StdChar(v3)]
  {
    UrlToStdChars2(v0, v1);
    UrlToStdChars2(v2, v3);
    var a := [Base64.UrlChar(v0), Base64.UrlChar(v1)];
    var c := [Base64.UrlChar(v2), Base64.UrlChar(v3)];
    UrlToStdAppend(a, c);
    assert [Base64.UrlChar(v0), Base64.UrlChar(v1), Base64.UrlChar(v2), Base64.UrlChar(v3)] == a + c;
  }

  /** Rewriting an unpadded base64url text and padding it gives the standard encoding. */
  lemma {:induction false} UrlToStdPadded(b: seq<byte>)
    ensures Pad(UrlToStd(Base64.UrlEncode(b))) == Base64.Encode(b)
    decreases |b|
  {
    if |b| == 1 {
      UrlToStdChars2(b[0] / 4, (b[0] % 4) * 16);
    } else if |b| == 2 {
      UrlToStdChars3(b[0] / 4, (b[0] % 4) * 16 + b[1] / 16, (b[1] % 16) * 4);
    } else if |b| >= 3 {
      var v0, v1, v2, v3 := b[0] / 4, (b[0] % 4) * 16 + b[1] / 16, (b[1] % 16) * 4 + b[2] / 64, b[2] % 64;
      var h := [Base64.UrlChar(v0), Base64.UrlChar(v1), Base64.UrlChar(v2), Base64.UrlChar(v3)];
      var rest := Base64.UrlEncode(b[3..]);
      assert Base64.UrlEncode(b) == h + rest;
      assert Base64.Encode(b)
          == [Base64.StdChar(v0), Base64.StdChar(v1), Base64.StdChar(v2), Base64.StdChar(v3)]
             + Base64.Encode(b[3..]);
      UrlToStdChars4(v0, v1, v2, v3);
      UrlToStdAppend(h, rest);
      PadAfterUnit(UrlToStd(h), UrlToStd(rest));
      UrlToStdPadded(b[3..]);
    }
  }

  lemma {:induction false} UnpaddedLength(b: seq<byte>)
    ensures |Base64.UrlEncode(b)| % 4 == [0, 2, 3][|b| % 3]
    decreases |b|
  {
    if |b| >= 3 {
      UnpaddedLength(b[3..]);
      UrlEncodeLengthStep(b);
      UnitLengths(|Base64.UrlEncode(b)|, |Base64.UrlEncode(b[3..])|, |b|, |b[3..]|);
    }
  }

  lemma UrlEncodeLengthStep(b: seq<byte>)
    requires |b| >= 3
    ensures |Base64.UrlEncode(b)| == |Base64.UrlEncode(b[3..])| + 4
  {
  }

  /** One more unit adds four characters and three bytes, which changes neither residue. */
  lemma UnitLengths(chars: nat, restChars: nat, bytes: nat, restBytes: nat)
    requires chars == restChars + 4 && bytes == restBytes + 3
    requires restChars % 4 == [0, 2, 3][restBytes % 3]
    ensures chars % 4 == [0, 2, 3][bytes % 3]
  {
  }

  lemma UrlCharNotWhitespace(v: nat)
    requires v < 64
    ensures !IsWhitespace(Base64.UrlChar(v))
  {
  }

  lemma NoWhitespaceAppend(a: string, b: string)
    requires NoWhitespace(a) && NoWhitespace(b)
    ensures NoWhitespace(a + b)
  {
    forall i | 0 <= i < |a + b| ensures !IsWhitespace((a + b)[i]) {
      if i >= |a| {
        assert (a + b)[i] == b[i - |a|];
      } else {
        assert (a + b)[i] == a[i];
      }
    }
  }

  lemma {:induction false} UrlEncodeNoWhitespace(b: seq<byte>)
    ensures NoWhitespace(Base64.UrlEncode(b))
    decreases |b|
  {
    if |b| == 1 {
      UrlCharNotWhitespace(b[0] / 4);
      UrlCharNotWhitespace((b[0] % 4) * 16);
    } else if |b| == 2 {
      UrlCharNotWhitespace(b[0] / 4);
      UrlCharNotWhitespace((b[0] % 4) * 16 + b[1] / 16);
      UrlCharNotWhitespace((b[1] % 16) * 4);
    } else if |b| >= 3 {
      var v0, v1, v2, v3 := b[0] / 4, (b[0] % 4) * 16 + b[1] / 16, (b[1] % 16) * 4 + b[2] / 64, b[2] % 64;
      var h := [Base64.UrlChar(v0), Base64.UrlChar(v1), Base64.UrlChar(v2), Base64.UrlChar(v3)];
      assert Base64.UrlEncode(b) == h + Base64.UrlEncode(b[3..]);
      UrlCharsNotWhitespace(v0, v1, v2, v3);
      UrlEncodeNoWhitespace(b[3..]);
      NoWhitespaceAppend(h, Base64.UrlEncode(b[3..]));
    }
  }

  lemma UrlCharsNotWhitespace(v0: nat, v1: nat, v2: nat, v3: nat)
    requires v0 < 64 && v1 < 64 && v2 < 64 && v3 < 64
    ensures NoWhitespace([Base64.UrlChar(v0), Base64.UrlChar(v1), Base64.UrlChar(v2), Base64.UrlChar(v3)])
  {
    UrlCharNotWhitespace(v0);
    UrlCharNotWhitespace(v1);
    UrlCharNotWhitespace(v2);
    UrlCharNotWhitespace(v3);
  }

  /** A base64url token (padding omitted) normalises to the canonical hex of the
      bytes it encodes, unless its text also reads as a hex token. */
  lemma UrlTokenNormalizes(b: seq<byte>)
    requires !IsHexToken(Base64.UrlEncode(b))
    ensures DecodeTokenToBytes(Base64.UrlEncode(b)) == Success(b)
    ensures NormalizeTokenToHex(Base64.UrlEncode(b)) == NormalizeTokenToHex(HexLower(b))
  {
    UrlEncodeNoWhitespace(b);
    TrimNoWhitespace(Base64.UrlEncode(b));
    UrlToStdPadded(b);
    Base64.DecodeEncode(b);
    NormalizeHexLower(b);
  }

  /** The exception to the previous lemma: three zero bytes are `AAAA` in
      base64url, which is read as the hex of two bytes 0xaa. */
  lemma HexShapedUrlToken()
    ensures Base64.UrlEncode([0, 0, 0]) == "AAAA"
    ensures DecodeTokenToBytes("AAAA") == Success([0xaa, 0xaa])
  {
    ZeroUnitUrlEncodes();
    AAAAIsHex();
  }

  lemma ZeroUnitUrlEncodes()
    ensures Base64.UrlEncode([0, 0, 0]) == "AAAA"
  {
    var b: seq<byte> := [0, 0, 0];
    var a := Base64.UrlChar(0);
    assert a == 'A';
    assert b[3..] == [];
    assert b[0] / 4 == 0 && (b[0] % 4) * 16 + b[1] / 16 == 0 && (b[1] % 16) * 4 + b[2] / 64 == 0 && b[2] % 64 == 0;
  }

  lemma AAAAIsHex()
    ensures DecodeTokenToBytes("AAAA") == Success([0xaa, 0xaa])
  {
    var t := "AAAA";
    assert NoWhitespace(t) by {
      forall i | 0 <= i < |t| ensures !IsWhitespace(t[i]) { assert t[i] == 'A'; }
    }
    TrimNoWhitespace(t);
    assert IsHexToken(t) by {
      forall i | 0 <= i < |t| ensures IsHexDigit(t[i]) { assert t[i] == 'A'; }
    }
    var d := HexDecode(t);
    HexDecodeAt(t, 0);
    HexDecodeAt(t, 1);
    assert DigitValue('A') == 10;
    assert |d| == 2 && d[0] == 0xaa && d[1] == 0xaa;
    assert d == [0xaa, 0xaa];
  }

  /** An unpadded base64 token: `AQ` is padded to `AQ==`. */
  lemma UnpaddedBase64Token()
    ensures DecodeTokenToBytes("AQ") == Success([1])
  {
    var t: string := "AQ";
    assert TrimStart(t) == t;
    assert Trim(t) == t;
    assert !IsHexToken(t) by { assert !IsHexDigit(t[1]); }
    assert UrlToStd(t) == t;
    assert Pad(t) == "AQ==";
    assert Base64.Decode("AQ==") == Some([1]);
  }

  /** The base64 branch decodes the untrimmed text: a leading space is fatal
      there, although the hex branch ignores it. */
  lemma UntrimmedBase64()
    ensures DecodeTokenToBytes(" AQ") == Failure(InvalidTokenFormat)
  {
    var u: string := " AQ";
    var t: string := "AQ";
    assert IsWhitespace(u[0]) && u[1..] == t;
    assert !IsWhitespace(t[0]);
    assert TrimStart(t) == t;
    assert TrimStart(u) == t;
    assert TrimEnd(t) == t;
    assert Trim(u) == "AQ";
    assert !IsHexToken(Trim(u)) by { assert !IsHexDigit(Trim(u)[1]); }
    var p := Pad(UrlToStd(u));
    assert |p| == 4 && p[0] == ' ';
    assert Base64.Decode(p) == None;
  }

  lemma TrimmedHexToken()
    ensures DecodeTokenToBytes(" 0a ") == Success([10])
  {
    var w: string := " 0a ";
    var v: string := "0a ";
    var h: string := "0a";
    assert IsWhitespace(w[0]) && w[1..] == v;
    assert !IsWhitespace(v[0]);
    assert TrimStart(v) == v;
    assert TrimStart(w) == v;
    assert IsWhitespace(v[2]) && v[..2] == h;
    assert !IsWhitespace(h[1]);
    assert TrimEnd(h) == h;
    assert TrimEnd(v) == h;
    assert IsHexToken("0a");
    assert HexDecode("0a") == [10];
  }

  /** The empty token fails the hex pattern (it needs one digit) and decodes as
      empty base64, so it normalises to the empty string. */
  lemma EmptyToken()
    ensures DecodeTokenToBytes("") == Success([])
    ensures NormalizeTokenToHex("") == Success("")
  {
    var e: string := [];
    assert TrimStart(e) == e;
    assert Trim(e) == e;
    assert !IsHexToken(Trim(e));
    assert UrlToStd(e) == e;
    assert Pad(e) == e;
    assert Base64.Decode(e) == Some([]);
    assert DecodeTokenToBytes(e) == Success([]);
  }
}
