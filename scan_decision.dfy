/** What `onScanResult` decides about one advertisement: which token it
    carries, whether it passes the filter, and the event payload it yields. */
module ScanDecision {
  import opened Wrappers
  import opened Hex
  import opened Text
  import TokenCodec

  /** A UUID in the text form `UUID.toString()` prints. */
  type Uuid = string

  /** A Bluetooth SIG company identifier, the key of manufacturer-specific data. */
  type CompanyId = x: int | 0 <= x < 0x1_0000

  datatype Device = Device(handle: nat, address: Option<string>, name: Option<string>)

  datatype ManufacturerEntry = ManufacturerEntry(id: CompanyId, bytes: Option<seq<byte>>)

  datatype ServiceDataEntry = ServiceDataEntry(uuid: Uuid, bytes: seq<byte>)

  /** The parts of an Android `ScanRecord` the plugin reads; maps are given in
      their iteration order. */
  datatype ScanRecord = ScanRecord(
    serviceData: Option<seq<ServiceDataEntry>>,
    deviceName: Option<string>,
    manufacturerData: Option<seq<ManufacturerEntry>>,
    serviceUuids: Option<seq<Uuid>>)

  datatype ScanResult = ScanResult(device: Option<Device>, scanRecord: Option<ScanRecord>, rssi: int)

  /** The payload map of one event; `None` is a key left out of the map. */
  datatype ProximityEvent = ProximityEvent(
    targetToken: string,
    rssi: int,
    timestampMs: int,
    deviceId: Option<string>,
    deviceName: Option<string>,
    localName: Option<string>,
    localNameHex: Option<string>,
    manufacturerDataLen: Option<int>,
    manufacturerDataHex: Option<string>,
    serviceDataLen: Option<int>,
    serviceDataUuids: Option<seq<Uuid>>,
    serviceDataHex: Option<seq<(Uuid, string)>>,
    serviceUuids: Option<seq<Uuid>>)

  // ---- token extraction ----

  /** `getServiceData(uuid)`: the bytes stored under `uuid`, if any. */
  function ServiceDataFor(record: ScanRecord, uuid: Uuid): (r: Option<seq<byte>>)
    ensures r.Some? ==> (record.serviceData.Some?
                         && exists e :: e in record.serviceData.value && e.uuid == uuid && e.bytes == r.value)
    ensures r.None? ==> (record.serviceData.None?
                         || forall e :: e in record.serviceData.value ==> e.uuid != uuid)
  {
    match record.serviceData
    case None => None
    case Some(entries) => Find(entries, uuid)
  }

  function Find(entries: seq<ServiceDataEntry>, uuid: Uuid): (r: Option<seq<byte>>)
    ensures r.Some? ==> exists e :: e in entries && e.uuid == uuid && e.bytes == r.value
    ensures r.None? ==> forall e :: e in entries ==> e.uuid != uuid
  {
    if entries == [] then None
    else if entries[0].uuid == uuid then Some(entries[0].bytes)
    else Find(entries[1..], uuid)
  }

  /** Service data under the scan's service UUID, as hex; otherwise the local
      name read as a token, where a name that does not decode gives no token. */
  function TokenHex(record: ScanRecord, uuid: Uuid): Option<string> {
    match ServiceDataFor(record, uuid)
    case Some(b) => Some(HexLower(b))
    case None =>
      match record.deviceName
      case Some(name) => TokenCodec.NormalizeTokenToHex(name).ToOption()
      case None => None
  }

  // ---- payload fields ----

  function SumSizes(entries: seq<ManufacturerEntry>): (n: nat) {
    if entries == [] then 0
    else (match entries[0].bytes case Some(b) => |b| case None => 0) + SumSizes(entries[1..])
  }

  /** Absent for missing or empty data, else the total number of bytes (a
      missing value counts 0). */
  function ManufacturerDataLengthOf(record: ScanRecord): Option<int> {
    match record.manufacturerData
    case None => None
    case Some(entries) => if entries == [] then None else Some(SumSizes(entries))
  }

  /** `%04x` of a 16-bit value. */
  function Hex4(id: CompanyId): (r: string)
    ensures |r| == 4
  {
    [LowerDigit(id / 4096), LowerDigit((id / 256) % 16), LowerDigit((id / 16) % 16), LowerDigit(id % 16)]
  }

  /** `%04x` writes four lowercase hex digits, most significant first, that
      denote the identifier. */
  lemma Hex4Denotes(id: CompanyId)
    ensures forall i :: 0 <= i < 4 ==> IsLowerHexDigit(Hex4(id)[i])
    ensures var r := Hex4(id);
      4096 * DigitValue(r[0]) + 256 * DigitValue(r[1]) + 16 * DigitValue(r[2]) + DigitValue(r[3]) == id
  {
    var q1, q2, q3 := id / 16, id / 256, id / 4096;
    assert id == 16 * q1 + id % 16;
    assert q1 == 16 * (q1 / 16) + q1 % 16;
    assert q1 / 16 == q2;
    assert q2 == 16 * (q2 / 16) + q2 % 16;
    assert q2 / 16 == q3;
  }

  function ManufacturerPart(id: CompanyId, b: seq<byte>): string {
    Hex4(id) + ":" + HexLower(b)
  }

  /** The part an entry contributes: none when its value is missing. */
  function EntryParts(e: ManufacturerEntry): (r: seq<string>)
    ensures |r| <= 1
  {
    match e.bytes
    case Some(b) => [ManufacturerPart(e.id, b)]
    case None => []
  }

  /** One `id:hex` part per entry with a value, in order. */
  function ManufacturerParts(entries: seq<ManufacturerEntry>): (r: seq<string>)
    ensures |r| <= |entries|
  {
    if entries == [] then [] else EntryParts(entries[0]) + ManufacturerParts(entries[1..])
  }

  /** The parts joined by `,`, absent when there are none. */
  function ManufacturerDataHexOf(record: ScanRecord): Option<string> {
    match record.manufacturerData
    case None => None
    case Some(entries) =>
      if entries == [] then None
      else
        var parts := ManufacturerParts(entries);
        if parts == [] then None else Some(Join(parts, ','))
  }

  function ServiceDataTotal(entries: seq<ServiceDataEntry>): nat {
    if entries == [] then 0 else |entries[0].bytes| + ServiceDataTotal(entries[1..])
  }

  function ServiceDataUuids(entries: seq<ServiceDataEntry>): (r: seq<Uuid>)
    ensures |r| == |entries|
    ensures forall i :: 0 <= i < |entries| ==> r[i] == entries[i].uuid
  {
    if entries == [] then [] else [entries[0].uuid] + ServiceDataUuids(entries[1..])
  }

  function ServiceDataHex(entries: seq<ServiceDataEntry>): (r: seq<(Uuid, string)>)
    ensures |r| == |entries|
    ensures forall i :: 0 <= i < |entries| ==> r[i] == (entries[i].uuid, HexLower(entries[i].bytes))
  {
    if entries == [] then [] else [(entries[0].uuid, HexLower(entries[0].bytes))] + ServiceDataHex(entries[1..])
  }

  /** UTF-8 encoding of one Unicode scalar value. */
  function Utf8Char(c: char): (r: seq<byte>)
    ensures 1 <= |r| <= 4
    ensures (c as int < 0x80) <==> |r| == 1
  {
    var n := c as int;
    if n < 0x80 then [n]
    else if n < 0x800 then [0xC0 + n / 64, 0x80 + n % 64]
    else if n < 0x1_0000 then [0xE0 + n / 4096, 0x80 + (n / 64) % 64, 0x80 + n % 64]
    else [0xF0 + n / 0x4_0000, 0x80 + (n / 4096) % 64, 0x80 + (n / 64) % 64, 0x80 + n % 64]
  }

  /** `toByteArray(Charsets.UTF_8)`. */
  function Utf8(s: string): (r: seq<byte>)
    ensures |s| <= |r| <= 4 * |s|
  {
    if s == [] then [] else Utf8Char(s[0]) + Utf8(s[1..])
  }

  function OptionalLength(n: int): Option<int> {
    if n > 0 then Some(n) else None
  }

  function OptionalList<T>(xs: seq<T>): Option<seq<T>> {
    if xs == [] then None else Some(xs)
  }

  // ---- the decision ----

  /** Kotlin's `tokenHex ?: deviceId ?: localName ?: ""`. */
  function TargetToken(tokenHex: Option<string>, deviceId: Option<string>, localName: Option<string>): string {
    tokenHex.GetOr(deviceId.GetOr(localName.GetOr("")))
  }

  /** The filter: everything under allow-all, otherwise only a token in the target set. */
  predicate Accepts(tokenHex: Option<string>, allowAll: bool, targets: set<string>) {
    allowAll || (tokenHex.Some? && tokenHex.value in targets)
  }

  function BuildEvent(result: ScanResult, record: ScanRecord, tokenHex: Option<string>, nowMs: int): ProximityEvent {
    var deviceId := if result.device.Some? then result.device.value.address else None;
    var deviceName := if result.device.Some? then result.device.value.name else None;
    var localName := record.deviceName;
    var sd := record.serviceData.GetOr([]);
    ProximityEvent(
      TargetToken(tokenHex, deviceId, localName),
      result.rssi,
      nowMs,
      deviceId,
      deviceName,
      localName,
      match localName case Some(n) => Some(HexLower(Utf8(n))) case None => None,
      ManufacturerDataLengthOf(record),
      ManufacturerDataHexOf(record),
      OptionalLength(ServiceDataTotal(sd)),
      OptionalList(ServiceDataUuids(sd)),
      OptionalList(ServiceDataHex(sd)),
      OptionalList(record.serviceUuids.GetOr([])))
  }

  /** The event `onScanResult` sends for one result, or `None` when it returns
      early: no scan record, or a token outside the target set while
      allow-all is off. `uuid` and `allowAll` are the values the scan
      callback captured when the scan started; `targets` is the plugin's
      current target set; `nowMs` is the clock reading. */
  function OnScanResultEvent(result: ScanResult, uuid: Uuid, allowAll: bool, targets: set<string>, nowMs: int)
    : Option<ProximityEvent>
  {
    match result.scanRecord
    case None => None
    case Some(record) =>
      var tokenHex := TokenHex(record, uuid);
      if Accepts(tokenHex, allowAll, targets) then Some(BuildEvent(result, record, tokenHex, nowMs)) else None
  }

  // ---- the loops of the manufacturer-data helpers ----

  lemma {:induction false} SumSizesSnoc(entries: seq<ManufacturerEntry>, e: ManufacturerEntry)
    ensures SumSizes(entries + [e]) == SumSizes(entries) + (match e.bytes case Some(b) => |b| case None => 0)
  {
    if entries == [] {
      assert [e][1..] == [];
    } else {
      assert (entries + [e])[1..] == entries[1..] + [e];
      SumSizesSnoc(entries[1..], e);
    }
  }

  lemma {:induction false} ManufacturerPartsSnoc(entries: seq<ManufacturerEntry>, e: ManufacturerEntry)
    ensures ManufacturerParts(entries + [e]) == ManufacturerParts(entries) + EntryParts(e)
  {
    if entries == [] {
      assert [e][1..] == [];
      assert ManufacturerParts([e]) == EntryParts(e) + [];
    } else {
      assert (entries + [e])[1..] == entries[1..] + [e];
      ManufacturerPartsSnoc(entries[1..], e);
      var head := EntryParts(entries[0]);
      var rest := ManufacturerParts(entries[1..]);
      assert ManufacturerParts(entries + [e]) == head + (rest + EntryParts(e));
      assert head + (rest + EntryParts(e)) == (head + rest) + EntryParts(e);
    }
  }

  /** `manufacturerDataLength`: returns early for missing or empty data, else
      adds up the value sizes in a loop. */
  method ManufacturerDataLength(record: ScanRecord) returns (r: Option<int>)
    ensures r == ManufacturerDataLengthOf(record)
  {
    if record.manufacturerData.None? {
      return None;
    }
    var data := record.manufacturerData.value;
    if |data| == 0 {
      return None;
    }
    var total := 0;
    for i := 0 to |data|
      invariant total == SumSizes(data[..i])
    {
      SumSizesSnoc(data[..i], data[i]);
      assert data[..i + 1] == data[..i] + [data[i]];
      total := total + match data[i].bytes case Some(b) => |b| case None => 0;
    }
    assert data[..|data|] == data;
    r := Some(total);
  }

  /** `manufacturerDataHex`: collects one `%04x:hex` part per present value,
      skipping missing ones, then joins them with `,`. */
  method ManufacturerDataHex(record: ScanRecord) returns (r: Option<string>)
    ensures r == ManufacturerDataHexOf(record)
  {
    if record.manufacturerData.None? {
      return None;
    }
    var data := record.manufacturerData.value;
    if |data| == 0 {
      return None;
    }
    var parts: seq<string> := [];
    for i := 0 to |data|
      invariant parts == ManufacturerParts(data[..i])
    {
      ManufacturerPartsSnoc(data[..i], data[i]);
      assert data[..i + 1] == data[..i] + [data[i]];
      if data[i].bytes.None? {
        continue;
      }
      var id := data[i].id;
      var hex := HexLower(data[i].bytes.value);
      parts := parts + [Hex4(id) + ":" + hex];
    }
    assert data[..|data|] == data;
    r := if parts == [] then None else Some(Join(parts, ','));
  }

  // ---- properties of the decision ----

  /** A record is kept exactly when it has a scan record and passes the filter;
      the event carries the captured RSSI and the reception time. */
  lemma FilterDecision(result: ScanResult, uuid: Uuid, allowAll: bool, targets: set<string>, nowMs: int)
    ensures OnScanResultEvent(result, uuid, allowAll, targets, nowMs).Some?
        <==> result.scanRecord.Some?
             && (allowAll || (TokenHex(result.scanRecord.value, uuid).Some?
                              && TokenHex(result.scanRecord.value, uuid).value in targets))
    ensures OnScanResultEvent(result, uuid, allowAll, targets, nowMs).Some? ==>
      OnScanResultEvent(result, uuid, allowAll, targets, nowMs).value.rssi == result.rssi
      && OnScanResultEvent(result, uuid, allowAll, targets, nowMs).value.timestampMs == nowMs
  {
  }

  /** With allow-all off, every event is for a token of the target set. */
  lemma AcceptedTokenIsTarget(result: ScanResult, uuid: Uuid, targets: set<string>, nowMs: int)
    requires OnScanResultEvent(result, uuid, false, targets, nowMs).Some?
    ensures OnScanResultEvent(result, uuid, false, targets, nowMs).value.targetToken in targets
    ensures OnScanResultEvent(result, uuid, false, targets, nowMs).value.targetToken
         == TokenHex(result.scanRecord.value, uuid).value
  {
  }

  /** Service data under the scan's UUID decides the token, whatever the name says. */
  lemma ServiceDataPreferred(record: ScanRecord, uuid: Uuid, b: seq<byte>)
    requires ServiceDataFor(record, uuid) == Some(b)
    ensures TokenHex(record, uuid) == Some(HexLower(b))
    ensures TokenHex(record.(deviceName := None), uuid) == Some(HexLower(b))
  {
  }

  /** A local name that does not decode as a token counts as no token, so with
      allow-all off such a record is dropped, not reported as an error. */
  lemma UndecodableNameIsNoToken(result: ScanResult, uuid: Uuid, targets: set<string>, nowMs: int)
    requires result.scanRecord.Some? && ServiceDataFor(result.scanRecord.value, uuid).None?
    requires result.scanRecord.value.deviceName.Some?
    requires TokenCodec.NormalizeTokenToHex(result.scanRecord.value.deviceName.value).Failure?
    ensures TokenHex(result.scanRecord.value, uuid).None?
    ensures OnScanResultEvent(result, uuid, false, targets, nowMs).None?
  {
  }

  /** Matching service data is accepted and reported as its canonical hex;
      service data outside the set is dropped. */
  lemma ServiceDataFilter(result: ScanResult, uuid: Uuid, targets: set<string>, nowMs: int, b: seq<byte>)
    requires result.scanRecord.Some? && ServiceDataFor(result.scanRecord.value, uuid) == Some(b)
    ensures HexLower(b) in targets ==>
      OnScanResultEvent(result, uuid, false, targets, nowMs).Some?
      && OnScanResultEvent(result, uuid, false, targets, nowMs).value.targetToken == HexLower(b)
    ensures HexLower(b) !in targets ==> OnScanResultEvent(result, uuid, false, targets, nowMs).None?
  {
  }

  /** Under allow-all every result with a scan record is reported, regardless of token. */
  lemma AllowAllAcceptsEveryRecord(result: ScanResult, uuid: Uuid, targets: set<string>, nowMs: int)
    requires result.scanRecord.Some?
    ensures OnScanResultEvent(result, uuid, true, targets, nowMs).Some?
  {
  }

  /** `targetToken` is the token hex when there is one, else the device
      address, else the local name, else the empty string. */
  lemma TargetTokenFallback(tokenHex: Option<string>, deviceId: Option<string>, localName: Option<string>)
    ensures tokenHex.Some? ==> TargetToken(tokenHex, deviceId, localName) == tokenHex.value
    ensures tokenHex.None? && deviceId.Some? ==> TargetToken(tokenHex, deviceId, localName) == deviceId.value
    ensures tokenHex.None? && deviceId.None? && localName.Some? ==>
      TargetToken(tokenHex, deviceId, localName) == localName.value
    ensures tokenHex.None? && deviceId.None? && localName.None? ==> TargetToken(tokenHex, deviceId, localName) == ""
  {
  }

  /** The manufacturer summary is absent exactly when there is no data or no
      entry holds a value; its length counts every byte of every value. */
  lemma {:induction false} ManufacturerPartsEmpty(entries: seq<ManufacturerEntry>)
    ensures ManufacturerParts(entries) == [] <==> forall i :: 0 <= i < |entries| ==> entries[i].bytes.None?
  {
    if entries != [] {
      ManufacturerPartsEmpty(entries[1..]);
      if entries[0].bytes.None? {
        assert forall i :: 1 <= i < |entries| ==> entries[i] == entries[1..][i - 1];
      }
    }
  }

  /** An ASCII name's UTF-8 bytes are its character codes. */
  lemma {:induction false} Utf8Ascii(s: string)
    requires forall i :: 0 <= i < |s| ==> s[i] as int < 0x80
    ensures |Utf8(s)| == |s|
    ensures forall i :: 0 <= i < |s| ==> Utf8(s)[i] == s[i] as int
  {
    if s != [] {
      Utf8Ascii(s[1..]);
    }
  }

  /** Service data with a positive total size has at least one entry, so an
      event with `serviceDataLen` also has `serviceDataUuids` and `serviceDataHex`. */
  lemma {:induction false} ServiceDataTotalPositive(entries: seq<ServiceDataEntry>)
    ensures ServiceDataTotal(entries) > 0 <==> exists i :: 0 <= i < |entries| && entries[i].bytes != []
  {
    if entries != [] {
      ServiceDataTotalPositive(entries[1..]);
      if ServiceDataTotal(entries[1..]) > 0 {
        var i :| 0 <= i < |entries[1..]| && entries[1..][i].bytes != [];
        assert entries[i + 1].bytes != [];
      }
      if exists i :: 0 <= i < |entries| && entries[i].bytes != [] {
        var i :| 0 <= i < |entries| && entries[i].bytes != [];
        if i > 0 {
          assert entries[1..][i - 1].bytes != [];
        }
      }
    }
  }

  /** Which optional keys an event carries: the device's address and name
      when known, the local name and its UTF-8 hex together, the service-data
      keys only for non-empty service data, the service UUIDs only when
      there are some, and the manufacturer summaries only for a non-empty
      table. */
  lemma EventOptionalKeys(result: ScanResult, record: ScanRecord, tokenHex: Option<string>, nowMs: int)
    ensures var e := BuildEvent(result, record, tokenHex, nowMs);
      var sd := record.serviceData.GetOr([]);
      (e.deviceId.Some? <==> result.device.Some? && result.device.value.address.Some?)
      && (e.deviceName.Some? <==> result.device.Some? && result.device.value.name.Some?)
      && e.localName == record.deviceName
      && (e.localNameHex.Some? <==> record.deviceName.Some?)
      && (e.serviceDataLen.Some? <==> exists i :: 0 <= i < |sd| && sd[i].bytes != [])
      && (e.serviceDataUuids.Some? <==> sd != [])
      && (e.serviceDataHex.Some? <==> sd != [])
      && (e.serviceUuids.Some? <==> record.serviceUuids.Some? && record.serviceUuids.value != [])
      && (e.manufacturerDataLen.Some? <==> record.manufacturerData.Some? && record.manufacturerData.value != [])
      && (e.manufacturerDataHex.Some? <==>
            (record.manufacturerData.Some?
             && exists i :: 0 <= i < |record.manufacturerData.value| && record.manufacturerData.value[i].bytes.Some?))
  {
    if record.manufacturerData.Some? {
      ManufacturerPartsEmpty(record.manufacturerData.value);
    }
    ServiceDataTotalPositive(record.serviceData.GetOr([]));
    var sd := record.serviceData.GetOr([]);
    assert sd != [] ==> |ServiceDataUuids(sd)| > 0 && |ServiceDataHex(sd)| > 0;
  }
}
