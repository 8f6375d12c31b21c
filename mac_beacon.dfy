/** The macOS beacon demo: the strict hex initializer `Data(hex:)` and the
    delegate step that (re)starts advertising once the peripheral manager is
    powered on. */
module MacBeacon {
  import opened Wrappers
  import opened Hex

  const SERVICE_UUID := "6E400001-B5A3-F393-E0A9-E50E24DCCA9E"
  const TOKEN_HEX := "a1b2c3d4"

  /** Foundation's `whitespacesAndNewlines`: tab, the line breaks U+000A to
      U+000D and U+0085, and the Unicode space, line and paragraph separators. */
  predicate IsSwiftWhitespace(c: char) {
    var n := c as int;
    (9 <= n <= 13) || n == 0x20 || n == 0x85 || n == 0xA0 || n == 0x1680
    || (0x2000 <= n <= 0x200A) || n == 0x2028 || n == 0x2029 || n == 0x202F
    || n == 0x205F || n == 0x3000
  }

  function TrimLeading(s: string): string {
    if s == [] || !IsSwiftWhitespace(s[0]) then s else TrimLeading(s[1..])
  }

  function TrimTrailing(s: string): string {
    if s == [] || !IsSwiftWhitespace(s[|s| - 1]) then s else TrimTrailing(s[..|s| - 1])
  }

  /** `trimmingCharacters(in: .whitespacesAndNewlines)`. */
  function SwiftTrim(s: string): string {
    TrimTrailing(TrimLeading(s))
  }

  /** `UInt8(chunk, radix: 16)` on a two-character chunk: two hex digits of
      either case, or a sign and one digit. A `+` may precede any digit; a
      `-` is only representable before `0`. */
  function ParseUInt8Radix16(chunk: string): (r: Option<byte>)
    requires |chunk| == 2
    ensures IsHexDigit(chunk[0]) && IsHexDigit(chunk[1]) ==> r == Some(16 * DigitValue(chunk[0]) + DigitValue(chunk[1]))
    ensures r.Some? ==> IsHexDigit(chunk[1])
    ensures r.Some? && !IsHexDigit(chunk[0]) ==> (chunk[0] == '+' || chunk == "-0") && r == Some(DigitValue(chunk[1]))
    ensures chunk[0] == '+' && IsHexDigit(chunk[1]) ==> r == Some(DigitValue(chunk[1]))
    ensures chunk == "-0" ==> r == Some(0)
  {
    if IsHexDigit(chunk[0]) && IsHexDigit(chunk[1]) then Some(16 * DigitValue(chunk[0]) + DigitValue(chunk[1]))
    else if chunk[0] == '+' && IsHexDigit(chunk[1]) then Some(DigitValue(chunk[1]))
    else if chunk[0] == '-' && chunk[1] == '0' then Some(0)
    else None
  }

  /** The `i`-th two-character chunk. */
  function ChunkAt(s: string, i: nat): (c: string)
    requires 2 * i + 2 <= |s|
    ensures |c| == 2
  {
    s[2 * i..2 * i + 2]
  }

  /** The bytes of consecutive two-character chunks, or `None` as soon as
      one chunk does not parse. */
  function DecodeChunks(s: string): Option<seq<byte>>
    requires |s| % 2 == 0
  {
    if s == [] then Some([])
    else
      match ParseUInt8Radix16(s[..2])
      case None => None
      case Some(b) =>
        match DecodeChunks(s[2..])
        case None => None
        case Some(rest) => Some([b] + rest)
  }

  /** `Data(hex:)`: trim, reject an odd length, decode the chunks. */
  function HexData(hex: string): Option<seq<byte>> {
    var s := SwiftTrim(hex);
    if |s| % 2 != 0 then None else DecodeChunks(s)
  }

  function Prepend(data: seq<byte>, rest: Option<seq<byte>>): Option<seq<byte>> {
    match rest
    case Some(r) => Some(data + r)
    case None => None
  }

  lemma PrependEmpty(rest: Option<seq<byte>>)
    ensures Prepend([], rest) == rest
  {
    if rest.Some? {
      assert [] + rest.value == rest.value;
    }
  }

  lemma PrependSnoc(data: seq<byte>, b: byte, rest: Option<seq<byte>>)
    ensures Prepend(data, Prepend([b], rest)) == Prepend(data + [b], rest)
  {
    if rest.Some? {
      assert data + ([b] + rest.value) == data + [b] + rest.value;
    }
  }

  lemma DecodeChunksStep(s: string, idx: nat)
    requires |s| % 2 == 0 && idx % 2 == 0 && idx + 2 <= |s|
    ensures DecodeChunks(s[idx..])
         == match ParseUInt8Radix16(s[idx..idx + 2])
            case None => None
            case Some(b) => Prepend([b], DecodeChunks(s[idx + 2..]))
  {
    assert s[idx..][..2] == s[idx..idx + 2];
    assert s[idx..][2..] == s[idx + 2..];
  }

  /** The initializer as written: a cursor steps through the trimmed text
      two characters at a time, appending each parsed byte; the first chunk
      that does not parse makes the whole result `nil`. */
  method DataFromHex(hex: string) returns (r: Option<seq<byte>>)
    ensures r == HexData(hex)
  {
    var s := SwiftTrim(hex);
    if |s| % 2 != 0 {
      return None;
    }
    var data: seq<byte> := [];
    var idx := 0;
    assert s[0..] == s;
    PrependEmpty(DecodeChunks(s));
    while idx < |s|
      invariant 0 <= idx <= |s| && idx % 2 == 0
      invariant DecodeChunks(s) == Prepend(data, DecodeChunks(s[idx..]))
    {
      var next := idx + 2;
      DecodeChunksStep(s, idx);
      var b := ParseUInt8Radix16(s[idx..next]);
      if b.None? {
        return None;
      }
      PrependSnoc(data, b.value, DecodeChunks(s[next..]));
      data := data + [b.value];
      idx := next;
    }
    assert s[idx..] == [];
    assert data + [] == data;
    r := Some(data);
  }

  // ---- properties of the decoder ----

  /** An odd number of characters after trimming is rejected. */
  lemma OddLengthRejected(hex: string)
    requires |SwiftTrim(hex)| % 2 == 1
    ensures HexData(hex).None?
  {
  }

  /** Chunk decoding succeeds exactly when every chunk parses, and then byte
      `i` is the value of chunk `i`, characters `2i` and `2i + 1`. */
  lemma {:induction false} DecodeChunksSpec(s: string)
    requires |s| % 2 == 0
    ensures DecodeChunks(s).Some? <==> forall i :: 0 <= i < |s| / 2 ==> ParseUInt8Radix16(ChunkAt(s, i)).Some?
    ensures DecodeChunks(s).Some? ==>
      |DecodeChunks(s).value| == |s| / 2
      && forall i :: 0 <= i < |s| / 2 ==> Some(DecodeChunks(s).value[i]) == ParseUInt8Radix16(ChunkAt(s, i))
  {
    if s != [] {
      var t := s[2..];
      DecodeChunksSpec(t);
      assert s[..2] == ChunkAt(s, 0);
      assert forall i :: 1 <= i < |s| / 2 ==> ChunkAt(s, i) == ChunkAt(t, i - 1);
      if DecodeChunks(s).Some? {
        var d := DecodeChunks(s).value;
        assert d[1..] == DecodeChunks(t).value;
        forall i | 1 <= i < |s| / 2 ensures Some(d[i]) == ParseUInt8Radix16(ChunkAt(s, i)) {
          assert d[i] == DecodeChunks(t).value[i - 1];
        }
      }
      if forall i :: 0 <= i < |s| / 2 ==> ParseUInt8Radix16(ChunkAt(s, i)).Some? {
        assert ParseUInt8Radix16(ChunkAt(s, 0)).Some?;
        forall i | 0 <= i < |t| / 2 ensures ParseUInt8Radix16(ChunkAt(t, i)).Some? {
          assert ChunkAt(s, i + 1) == ChunkAt(t, i);
        }
      }
    }
  }

  /** On success the result has one byte per chunk of the trimmed text, in order. */
  lemma HexDataBytes(hex: string)
    requires HexData(hex).Some?
    ensures var s := SwiftTrim(hex);
      |s| % 2 == 0 && |HexData(hex).value| == |s| / 2
      && forall i :: 0 <= i < |s| / 2 ==> Some(HexData(hex).value[i]) == ParseUInt8Radix16(ChunkAt(s, i))
  {
    DecodeChunksSpec(SwiftTrim(hex));
  }

  /** One chunk that does not parse rejects the whole text: no partial data. */
  lemma BadChunkRejected(hex: string, i: nat)
    requires |SwiftTrim(hex)| % 2 == 0 && i < |SwiftTrim(hex)| / 2
    requires ParseUInt8Radix16(ChunkAt(SwiftTrim(hex), i)).None?
    ensures HexData(hex).None?
  {
    DecodeChunksSpec(SwiftTrim(hex));
  }

  lemma {:induction false} TrimLeadingAllWhitespace(s: string)
    requires forall i :: 0 <= i < |s| ==> IsSwiftWhitespace(s[i])
    ensures TrimLeading(s) == []
  {
    if s != [] {
      TrimLeadingAllWhitespace(s[1..]);
    }
  }

  /** Empty or all-whitespace text is empty data, not `nil`. */
  lemma BlankIsEmptyData(hex: string)
    requires forall i :: 0 <= i < |hex| ==> IsSwiftWhitespace(hex[i])
    ensures HexData(hex) == Some([])
  {
    TrimLeadingAllWhitespace(hex);
  }

  lemma {:induction false} LowerHexHasNoWhitespace(b: seq<byte>)
    ensures SwiftTrim(HexLower(b)) == HexLower(b)
  {
    var h := HexLower(b);
    if h != [] {
      assert IsLowerHexDigit(h[0]) && IsLowerHexDigit(h[|h| - 1]);
    }
  }

  lemma {:induction false} DecodeLowerHex(b: seq<byte>)
    ensures DecodeChunks(HexLower(b)) == Some(b)
  {
    if b != [] {
      DecodeLowerHex(b[1..]);
      var h := HexLower(b);
      assert h[..2] == [LowerDigit(b[0] / 16), LowerDigit(b[0] % 16)];
      assert h[2..] == HexLower(b[1..]);
      assert [b[0]] + b[1..] == b;
    }
  }

  lemma HexDataOfTrimmed(h: string, b: seq<byte>)
    requires SwiftTrim(h) == h && |h| % 2 == 0 && DecodeChunks(h) == Some(b)
    ensures HexData(h) == Some(b)
  {
  }

  /** The Android plugin's canonical hex decodes here to the same bytes. */
  lemma HexDataRoundTrip(b: seq<byte>)
    ensures HexData(HexLower(b)) == Some(b)
  {
    var h := HexLower(b);
    Even(|h|, |b|);
    LowerHexHasNoWhitespace(b);
    DecodeLowerHex(b);
    HexDataOfTrimmed(h, b);
  }

  /** Signed chunks pass the radix-16 parse: `+a` is 10 and `-0` is 0. */
  lemma SignedChunks()
    ensures HexData("+a") == Some([10])
    ensures HexData("-0") == Some([0])
    ensures HexData("-1").None?
  {
    var p: string := "+a";
    assert TrimLeading(p) == p && TrimTrailing(p) == p;
    assert p[..2] == p && p[2..] == [];
    assert ParseUInt8Radix16(p) == Some(10);
    assert [10] + [] == [10];
    var m: string := "-0";
    assert TrimLeading(m) == m && TrimTrailing(m) == m;
    assert m[..2] == m && m[2..] == [];
    assert ParseUInt8Radix16(m) == Some(0);
    assert [0] + [] == [0];
    var n: string := "-1";
    assert TrimLeading(n) == n && TrimTrailing(n) == n;
    assert n[..2] == n;
    assert ParseUInt8Radix16(n).None?;
  }

  /** The built-in token decodes to four bytes, so the guard never fails. */
  lemma TokenDecodes()
    ensures HexData(TOKEN_HEX) == Some([0xa1, 0xb2, 0xc3, 0xd4])
  {
    var s: string := TOKEN_HEX;
    assert TrimLeading(s) == s && TrimTrailing(s) == s;
    assert ChunkAt(s, 0) == "a1" && ChunkAt(s, 1) == "b2" && ChunkAt(s, 2) == "c3" && ChunkAt(s, 3) == "d4";
    assert ParseUInt8Radix16("a1") == Some(0xa1);
    assert ParseUInt8Radix16("b2") == Some(0xb2);
    assert ParseUInt8Radix16("c3") == Some(0xc3);
    assert ParseUInt8Radix16("d4") == Some(0xd4);
    DecodeChunksSpec(s);
    var d := DecodeChunks(s).value;
    assert d == [0xa1, 0xb2, 0xc3, 0xd4];
  }

  // ---- the advertising step ----

  /** `CBManagerState`. */
  datatype ManagerState = Unknown | Resetting | Unsupported | Unauthorized | PoweredOff | PoweredOn

  /** The advertisement payload: the service UUID list, and service data
      mapping that UUID to the token bytes. */
  datatype Payload = Payload(serviceUuids: seq<string>, serviceData: seq<(string, seq<byte>)>)

  datatype PeripheralAction = StopAdvertising | StartAdvertising(payload: Payload)

  function TokenPayload(token: seq<byte>): Payload {
    Payload([SERVICE_UUID], [(SERVICE_UUID, token)])
  }

  class Beacon {
    /** What the peripheral manager has been asked to do, in order. */
    var actions: seq<PeripheralAction>

    constructor ()
      ensures actions == []
    {
      actions := [];
    }

    /** `peripheralManagerDidUpdateState`: only a powered-on manager is
        touched, and only when the token decodes (it does, by `TokenDecodes`);
        then advertising is stopped and restarted with the token payload. */
    method DidUpdateState(state: ManagerState)
      modifies this
      ensures state != PoweredOn || HexData(TOKEN_HEX).None? ==> actions == old(actions)
      ensures state == PoweredOn && HexData(TOKEN_HEX).Some? ==>
        actions == old(actions) + [StopAdvertising, StartAdvertising(TokenPayload(HexData(TOKEN_HEX).value))]
    {
      if state != PoweredOn {
        return;
      }
      var tokenData := DataFromHex(TOKEN_HEX);
      if tokenData.None? {
        return;
      }
      actions := actions + [StopAdvertising, StartAdvertising(TokenPayload(tokenData.value))];
    }
  }
}
