/** The session state of the Android plugin object: which scan and which
    advertisement are running, the target set the scan filters on, the
    devices seen so far and the one debug discovery that may be in flight.
    Platform objects (scanner, advertiser, callbacks, GATT connections,
    timers, the caller's reply channel) are opaque handles; every call the
    plugin makes into the platform is appended to an action log. */
module Plugin {
  import opened Wrappers
  import opened Hex
  import opened Text
  import TokenCodec
  import ScanDecision
  import GattDump

  type Handle = nat
  type Uuid = ScanDecision.Uuid

  const MAX_TARGET_TOKENS := 5

  const GATT_SUCCESS := 0
  const STATE_DISCONNECTED := 0
  const STATE_CONNECTED := 2

  const ADVERTISE_MODE_LOW_LATENCY := 2
  const ADVERTISE_TX_POWER_LOW := 1
  const ADVERTISE_TX_POWER_MEDIUM := 2
  const ADVERTISE_TX_POWER_HIGH := 3
  const SCAN_MODE_LOW_LATENCY := 2

  /** What the adapter reports when it is queried: whether it is on, and the
      advertiser and scanner objects it hands out (absent when unsupported). */
  datatype Radio = Radio(enabled: bool, advertiser: Option<Handle>, scanner: Option<Handle>)

  datatype AdvertiseSettings = AdvertiseSettings(mode: int, connectable: bool, timeoutMs: int, txPowerLevel: int)

  datatype AdvertiseData = AdvertiseData(
    serviceUuids: seq<Uuid>,
    serviceData: seq<(Uuid, seq<byte>)>,
    includeDeviceName: bool,
    includeTxPowerLevel: bool)

  datatype ScanFilter = ServiceUuidFilter(uuid: Uuid)

  datatype ScanSettings = ScanSettings(mode: int, reportDelayMs: int)

  /** The exceptions the start methods throw. */
  datatype Failure =
    | BluetoothNotSupported
    | BluetoothOff
    | InvalidServiceUuid
    | InvalidTokenFormat
    | AdvertisingNotSupported
    | TooManyTargets
    | ScannerNotAvailable

  datatype Status = Ok | Failed(reason: Failure)

  /** A scan callback object: its identity and the values it captured when
      it was created. The target set is not captured; it is read live. */
  datatype ScanSession = ScanSession(id: Handle, serviceUuid: Uuid, allowAll: bool)

  /** A posted timeout runnable and the delay it reports. */
  datatype Timer = Timer(id: Handle, timeoutMs: int)

  datatype DiscoveryRequest = DiscoveryRequest(deviceId: string, call: Handle, gatt: Option<Handle>, timeout: Option<Timer>)

  /** What a caller's reply channel receives. */
  datatype Reply = ReplySuccess(dump: string) | ReplyError(code: string, message: string)

  /** How `connectGatt` ends: a connection object, a `SecurityException`, or `null`. */
  datatype ConnectOutcome = Connected | PermissionDenied | NoGatt

  /** Calls into the platform, in the order the plugin makes them. */
  datatype Action =
    | StartAdvertising(advertiser: Handle, settings: AdvertiseSettings, data: AdvertiseData, callback: Handle)
    | StopAdvertising(advertiser: Handle, callback: Handle)
    | StartScan(scanner: Handle, filters: seq<ScanFilter>, scanSettings: ScanSettings, callback: Handle)
    | StopScan(scanner: Handle, callback: Handle)
    | ConnectGatt(device: Handle)
    | DiscoverServices(gatt: Handle)
    | Disconnect(gatt: Handle)
    | Close(gatt: Handle)
    | PostDelayed(timer: Handle, delayMs: int)
    | RemoveCallbacks(timer: Handle)
    | Deliver(call: Handle, reply: Reply)

  // ---- pure parts of the start methods ----

  /** The tx-power hint mapping: 3 and above is high, -6 and below is low,
      anything else (or no hint) is medium. */
  function TxPowerLevel(txPower: Option<int>): (level: int)
    ensures level == ADVERTISE_TX_POWER_HIGH <==> txPower.Some? && txPower.value >= 3
    ensures level == ADVERTISE_TX_POWER_LOW <==> txPower.Some? && txPower.value <= -6
    ensures level == ADVERTISE_TX_POWER_LOW || level == ADVERTISE_TX_POWER_MEDIUM || level == ADVERTISE_TX_POWER_HIGH
  {
    match txPower
    case None => ADVERTISE_TX_POWER_MEDIUM
    case Some(p) =>
      if p >= 3 then ADVERTISE_TX_POWER_HIGH
      else if p <= -6 then ADVERTISE_TX_POWER_LOW
      else ADVERTISE_TX_POWER_MEDIUM
  }

  /** A stronger hint never selects a weaker level. */
  lemma TxPowerMonotone(a: int, b: int)
    requires a <= b
    ensures TxPowerLevel(Some(a)) <= TxPowerLevel(Some(b))
  {
  }

  function BroadcastSettings(txPower: Option<int>): AdvertiseSettings {
    AdvertiseSettings(ADVERTISE_MODE_LOW_LATENCY, false, 0, TxPowerLevel(txPower))
  }

  /** The advertisement: the service UUID, and the token bytes as that
      service's data; no device name, no tx power. */
  function BroadcastData(uuid: Uuid, token: seq<byte>): AdvertiseData {
    AdvertiseData([uuid], [(uuid, token)], false, false)
  }

  function ScanFilters(uuid: Uuid, allowAll: bool): seq<ScanFilter> {
    if allowAll then [] else [ServiceUuidFilter(uuid)]
  }

  /** `targetTokens.map { normalizeTokenToHex(it) }.toSet()`. Every failure
      is the same `InvalidTokenFormat`, so the first failing token and any
      failing token give the same result. */
  function NormalizeAll(tokens: seq<string>): Result<set<string>, TokenCodec.TokenError> {
    if forall i :: 0 <= i < |tokens| ==> TokenCodec.NormalizeTokenToHex(tokens[i]).Success?
    then Success(set i | 0 <= i < |tokens| :: TokenCodec.NormalizeTokenToHex(tokens[i]).value)
    else Failure(TokenCodec.InvalidTokenFormat)
  }

  /** Every stored target is canonical: lower-case hex of even length that
      normalises to itself, so a service-data token can match it exactly. */
  lemma TargetsCanonical(tokens: seq<string>, h: string)
    requires NormalizeAll(tokens).Success? && h in NormalizeAll(tokens).value
    ensures |h| % 2 == 0 && forall k :: 0 <= k < |h| ==> IsLowerHexDigit(h[k])
    ensures TokenCodec.NormalizeTokenToHex(h) == Success(h)
  {
    var i :| 0 <= i < |tokens| && TokenCodec.NormalizeTokenToHex(tokens[i]).value == h;
    TokenCodec.NormalizedIsCanonical(tokens[i]);
  }

  /** End to end, with allow-all off: a result whose service data under the
      scan's UUID is `b` is reported exactly when some configured token, in
      whatever accepted spelling, normalises to the hex of `b`. */
  lemma ServiceDataMatchesConfiguredToken(tokens: seq<string>, result: ScanDecision.ScanResult, uuid: Uuid,
                                          nowMs: int, b: seq<byte>)
    requires NormalizeAll(tokens).Success?
    requires result.scanRecord.Some? && ScanDecision.ServiceDataFor(result.scanRecord.value, uuid) == Some(b)
    ensures ScanDecision.OnScanResultEvent(result, uuid, false, NormalizeAll(tokens).value, nowMs).Some?
        <==> exists i :: 0 <= i < |tokens| && TokenCodec.NormalizeTokenToHex(tokens[i]) == Success(HexLower(b))
  {
    ScanDecision.ServiceDataFilter(result, uuid, NormalizeAll(tokens).value, nowMs, b);
  }

  function StopScanActions(scanner: Option<Handle>, callback: Option<ScanSession>): seq<Action> {
    if scanner.Some? && callback.Some? then [StopScan(scanner.value, callback.value.id)] else []
  }

  /** `"Timeout after ${timeoutMs}ms"` and the other discovery messages. */
  function TimeoutMessage(ms: int): string {
    "Timeout after " + IntToDecimal(ms) + "ms"
  }

  /** The timer a pending request has posted, if any. */
  function TimerOf(pending: Option<DiscoveryRequest>): set<Handle> {
    if pending.Some? && pending.value.timeout.Some? then {pending.value.timeout.value.id} else {}
  }

  // ---- the delivery log ----

  /** How many replies the log holds for one caller. */
  function Delivered(actions: seq<Action>, call: Handle): nat {
    if actions == [] then 0
    else
      var last := actions[|actions| - 1];
      Delivered(actions[..|actions| - 1], call) + (if last.Deliver? && last.call == call then 1 else 0)
  }

  lemma DeliveredSnoc(actions: seq<Action>, a: Action, call: Handle)
    ensures Delivered(actions + [a], call) == Delivered(actions, call) + (if a.Deliver? && a.call == call then 1 else 0)
  {
    assert (actions + [a])[..|actions|] == actions;
  }

  /** A platform call that is not a reply leaves every caller's count alone. */
  lemma AppendCall(actions: seq<Action>, a: Action)
    requires !a.Deliver?
    ensures forall c :: Delivered(actions + [a], c) == Delivered(actions, c)
  {
    forall c ensures Delivered(actions + [a], c) == Delivered(actions, c) {
      DeliveredSnoc(actions, a, c);
    }
  }

  /** Platform calls that are not replies leave every caller's count alone. */
  lemma {:induction false} AppendCalls(actions: seq<Action>, calls: seq<Action>)
    requires forall i :: 0 <= i < |calls| ==> !calls[i].Deliver?
    ensures forall c :: Delivered(actions + calls, c) == Delivered(actions, c)
    decreases |calls|
  {
    if calls != [] {
      var init := calls[..|calls| - 1];
      AppendCalls(actions, init);
      AppendCall(actions + init, calls[|calls| - 1]);
      assert actions + calls == (actions + init) + [calls[|calls| - 1]];
      forall c ensures Delivered(actions + calls, c) == Delivered(actions, c) {
        assert Delivered(actions + calls, c) == Delivered(actions + init, c);
      }
    } else {
      assert actions + calls == actions;
    }
  }

  /** Removing a request's timer, and releasing its connection. */
  function TimerActions(request: DiscoveryRequest): seq<Action> {
    if request.timeout.Some? then [RemoveCallbacks(request.timeout.value.id)] else []
  }

  function GattActions(request: DiscoveryRequest): seq<Action> {
    if request.gatt.Some? then [Disconnect(request.gatt.value), Close(request.gatt.value)] else []
  }

  /** A reply to `call` raises its count by one and no other caller's. */
  lemma AppendReply(actions: seq<Action>, call: Handle, reply: Reply)
    ensures Delivered(actions + [Deliver(call, reply)], call) == Delivered(actions, call) + 1
    ensures forall c :: c != call ==> Delivered(actions + [Deliver(call, reply)], c) == Delivered(actions, c)
  {
    DeliveredSnoc(actions, Deliver(call, reply), call);
    forall c | c != call ensures Delivered(actions + [Deliver(call, reply)], c) == Delivered(actions, c) {
      DeliveredSnoc(actions, Deliver(call, reply), c);
    }
  }

  class SignalPlugin {
    const hasAdapter: bool
    var scanner: Option<Handle>
    var advertiser: Option<Handle>
    var scanCallback: Option<ScanSession>
    var advertiseCallback: Option<Handle>
    var targetTokenSet: set<string>
    var debugAllowAll: bool
    var currentServiceUuid: Option<Uuid>
    var discoveredDevices: map<string, ScanDecision.Device>
    var pendingDiscovery: Option<DiscoveryRequest>
    /** Timeout runnables posted and not yet removed or run. */
    var scheduledTimers: set<Handle>
    /** The next fresh handle for an object the plugin creates. */
    var nextHandle: Handle
    var actions: seq<Action>

    /** Every caller gets at most one reply; a pending request has had none
        yet; the only scheduled timer is the pending request's. */
    ghost predicate Valid()
      reads this
    {
      (forall call :: Delivered(actions, call) <= 1)
      && (forall call :: call >= nextHandle ==> Delivered(actions, call) == 0)
      && (pendingDiscovery.Some? ==>
            pendingDiscovery.value.call < nextHandle
            && Delivered(actions, pendingDiscovery.value.call) == 0
            && (pendingDiscovery.value.gatt.Some? ==> pendingDiscovery.value.gatt.value < nextHandle))
      && scheduledTimers == TimerOf(pendingDiscovery)
    }

    constructor (hasAdapter: bool)
      ensures Valid() && this.hasAdapter == hasAdapter
      ensures scanner.None? && advertiser.None? && scanCallback.None? && advertiseCallback.None?
      ensures targetTokenSet == {} && !debugAllowAll && currentServiceUuid.None?
      ensures discoveredDevices == map[] && pendingDiscovery.None? && scheduledTimers == {} && actions == []
    {
      this.hasAdapter := hasAdapter;
      scanner, advertiser := None, None;
      scanCallback, advertiseCallback := None, None;
      targetTokenSet, debugAllowAll, currentServiceUuid := {}, false, None;
      discoveredDevices, pendingDiscovery, scheduledTimers := map[], None, {};
      nextHandle, actions := 0, [];
    }

    /** A handle no earlier object has. */
    method FreshHandle() returns (h: Handle)
      requires Valid()
      modifies this`nextHandle
      ensures Valid() && h == old(nextHandle) && nextHandle == h + 1
    {
      h := nextHandle;
      nextHandle := nextHandle + 1;
    }

    /** Calls into the platform other than a reply. */
    method Perform(a: Action)
      requires Valid() && !a.Deliver?
      modifies this`actions
      ensures Valid() && actions == old(actions) + [a]
    {
      AppendCall(actions, a);
      actions := actions + [a];
    }

    /** Several calls into the platform, none of them a reply. */
    method PerformAll(calls: seq<Action>)
      requires Valid() && forall i :: 0 <= i < |calls| ==> !calls[i].Deliver?
      modifies this`actions
      ensures Valid() && actions == old(actions) + calls
      ensures forall c :: Delivered(actions, c) == Delivered(old(actions), c)
    {
      AppendCalls(actions, calls);
      actions := actions + calls;
    }

    /** A reply to a caller that has had none and is not the pending request. */
    method Reply(call: Handle, reply: Reply)
      requires Valid() && call < nextHandle && Delivered(actions, call) == 0
      requires pendingDiscovery.None? || pendingDiscovery.value.call != call
      modifies this`actions
      ensures Valid() && actions == old(actions) + [Deliver(call, reply)]
      ensures Delivered(actions, call) == 1
    {
      AppendReply(actions, call, reply);
      actions := actions + [Deliver(call, reply)];
    }

    // ---- broadcast ----

    /** `stopBroadcastInternal`: stops the running advertisement, if there
        is an advertiser and a callback, and forgets the callback. */
    method StopBroadcastInternal()
      requires Valid()
      modifies this`advertiseCallback, this`actions
      ensures Valid()
      ensures old(advertiser).Some? && old(advertiseCallback).Some? ==>
        advertiseCallback.None?
        && actions == old(actions) + [StopAdvertising(old(advertiser).value, old(advertiseCallback).value)]
      ensures old(advertiser).None? || old(advertiseCallback).None? ==>
        advertiseCallback == old(advertiseCallback) && actions == old(actions)
    {
      if advertiser.None? || advertiseCallback.None? {
        return;
      }
      Perform(StopAdvertising(advertiser.value, advertiseCallback.value));
      advertiseCallback := None;
    }

    /** `startBroadcastInternal`. The adapter checks come first; an invalid
        UUID changes nothing; the UUID is recorded before the token is
        decoded, so a bad token leaves it recorded; a missing advertiser
        leaves the old one; otherwise the previous advertisement is stopped
        and a new one started with a fresh callback. */
    method StartBroadcastInternal(token: string, parsedUuid: Option<Uuid>, txPower: Option<int>, radio: Radio)
      returns (status: Status)
      requires Valid()
      modifies this`currentServiceUuid, this`advertiser, this`advertiseCallback, this`nextHandle, this`actions
      ensures Valid()
      ensures !hasAdapter ==> status == Failed(BluetoothNotSupported) && unchanged(this)
      ensures hasAdapter && !radio.enabled ==> status == Failed(BluetoothOff) && unchanged(this)
      ensures hasAdapter && radio.enabled && parsedUuid.None? ==> status == Failed(InvalidServiceUuid) && unchanged(this)
      ensures hasAdapter && radio.enabled && parsedUuid.Some? ==> currentServiceUuid == parsedUuid
      ensures hasAdapter && radio.enabled && parsedUuid.Some? && TokenCodec.DecodeTokenToBytes(token).Failure? ==>
        status == Failed(InvalidTokenFormat) && advertiser == old(advertiser)
        && advertiseCallback == old(advertiseCallback) && actions == old(actions)
      ensures hasAdapter && radio.enabled && parsedUuid.Some? && TokenCodec.DecodeTokenToBytes(token).Success?
              && radio.advertiser.None? ==>
        status == Failed(AdvertisingNotSupported) && advertiser == old(advertiser)
        && advertiseCallback == old(advertiseCallback) && actions == old(actions)
      ensures hasAdapter && radio.enabled && parsedUuid.Some? && TokenCodec.DecodeTokenToBytes(token).Success?
              && radio.advertiser.Some? ==>
        status == Ok
        && advertiser == radio.advertiser
        && advertiseCallback == Some(old(nextHandle))
        && actions == old(actions)
                      + (if old(advertiseCallback).Some? then [StopAdvertising(radio.advertiser.value, old(advertiseCallback).value)] else [])
                      + [StartAdvertising(radio.advertiser.value, BroadcastSettings(txPower),
                                          BroadcastData(parsedUuid.value, TokenCodec.DecodeTokenToBytes(token).value),
                                          old(nextHandle))]
      ensures status == Ok <==> hasAdapter && radio.enabled && parsedUuid.Some?
                                && TokenCodec.DecodeTokenToBytes(token).Success? && radio.advertiser.Some?
    {
      if !hasAdapter {
        return Failed(BluetoothNotSupported);
      }
      if !radio.enabled {
        return Failed(BluetoothOff);
      }
      if parsedUuid.None? {
        return Failed(InvalidServiceUuid);
      }
      var uuid := parsedUuid.value;
      currentServiceUuid := Some(uuid);
      var decoded := TokenCodec.DecodeTokenToBytes(token);
      if decoded.Failure? {
        return Failed(InvalidTokenFormat);
      }
      if radio.advertiser.None? {
        return Failed(AdvertisingNotSupported);
      }
      Advertise(radio.advertiser.value, uuid, decoded.value, txPower);
      status := Ok;
    }

    /** The tail of `startBroadcastInternal` once everything is checked:
        adopt the advertiser, stop any previous advertisement, start the new
        one with a fresh callback. */
    method Advertise(adv: Handle, uuid: Uuid, token: seq<byte>, txPower: Option<int>)
      requires Valid()
      modifies this`advertiser, this`advertiseCallback, this`nextHandle, this`actions
      ensures Valid()
      ensures advertiser == Some(adv) && advertiseCallback == Some(old(nextHandle)) && nextHandle == old(nextHandle) + 1
      ensures actions == old(actions)
                         + (if old(advertiseCallback).Some? then [StopAdvertising(adv, old(advertiseCallback).value)] else [])
                         + [StartAdvertising(adv, BroadcastSettings(txPower), BroadcastData(uuid, token), old(nextHandle))]
    {
      advertiser := Some(adv);
      StopBroadcastInternal();
      var callback := FreshHandle();
      advertiseCallback := Some(callback);
      Perform(StartAdvertising(adv, BroadcastSettings(txPower), BroadcastData(uuid, token), callback));
    }

    // ---- scan ----

    /** `stopScanInternal`: stops the running scan when there is both a
        scanner and a callback, always forgets the callback, and only with
        `resetState` clears the target set, allow-all and the seen devices. */
    method StopScanInternal(resetState: bool)
      requires Valid()
      modifies this`scanCallback, this`targetTokenSet, this`debugAllowAll, this`discoveredDevices, this`actions
      ensures Valid()
      ensures scanCallback.None?
      ensures actions == old(actions) + StopScanActions(scanner, old(scanCallback))
      ensures resetState ==> targetTokenSet == {} && !debugAllowAll && discoveredDevices == map[]
      ensures !resetState ==>
        targetTokenSet == old(targetTokenSet) && debugAllowAll == old(debugAllowAll)
        && discoveredDevices == old(discoveredDevices)
    {
      if scanner.Some? && scanCallback.Some? {
        Perform(StopScan(scanner.value, scanCallback.value.id));
      }
      scanCallback := None;
      if resetState {
        targetTokenSet := {};
        debugAllowAll := false;
        discoveredDevices := map[];
      }
    }

    /** `startScanInternal`. Adapter checks and the five-target limit come
        before any change; then the previous scan is stopped (keeping its
        state) and allow-all recorded; an invalid UUID or an undecodable
        target stops there, leaving the old target set; a missing scanner
        leaves the old scanner; otherwise a scan starts with a fresh callback
        that captures the UUID and allow-all. */
    method StartScanInternal(targetTokens: seq<string>, parsedUuid: Option<Uuid>, allowAll: bool, radio: Radio)
      returns (status: Status)
      requires Valid()
      modifies this`scanner, this`scanCallback, this`targetTokenSet, this`debugAllowAll, this`currentServiceUuid,
               this`discoveredDevices, this`nextHandle, this`actions
      ensures Valid() && discoveredDevices == old(discoveredDevices)
      ensures !hasAdapter ==> status == Failed(BluetoothNotSupported) && unchanged(this)
      ensures hasAdapter && !radio.enabled ==> status == Failed(BluetoothOff) && unchanged(this)
      ensures hasAdapter && radio.enabled && !allowAll && |targetTokens| > MAX_TARGET_TOKENS ==>
        status == Failed(TooManyTargets) && unchanged(this)
      ensures hasAdapter && radio.enabled && (allowAll || |targetTokens| <= MAX_TARGET_TOKENS) ==>
        debugAllowAll == allowAll
        && (parsedUuid.None? ==> status == Failed(InvalidServiceUuid)
                                 && currentServiceUuid == old(currentServiceUuid) && scanner == old(scanner)
                                 && targetTokenSet == old(targetTokenSet) && scanCallback.None?
                                 && actions == old(actions) + StopScanActions(old(scanner), old(scanCallback)))
        && (parsedUuid.Some? ==> currentServiceUuid == parsedUuid)
      ensures hasAdapter && radio.enabled && !allowAll && |targetTokens| <= MAX_TARGET_TOKENS
              && parsedUuid.Some? && NormalizeAll(targetTokens).Failure? ==>
        status == Failed(InvalidTokenFormat) && targetTokenSet == old(targetTokenSet) && scanCallback.None?
        && scanner == old(scanner) && actions == old(actions) + StopScanActions(old(scanner), old(scanCallback))
      ensures hasAdapter && radio.enabled && (allowAll || |targetTokens| <= MAX_TARGET_TOKENS)
              && parsedUuid.Some? && (allowAll || NormalizeAll(targetTokens).Success?) ==>
        targetTokenSet == (if allowAll then {} else NormalizeAll(targetTokens).value)
        && (radio.scanner.None? ==> status == Failed(ScannerNotAvailable) && scanner == old(scanner)
                                    && scanCallback.None?
                                    && actions == old(actions) + StopScanActions(old(scanner), old(scanCallback)))
        && (radio.scanner.Some? ==>
              status == Ok && scanner == radio.scanner
              && scanCallback == Some(ScanSession(old(nextHandle), parsedUuid.value, allowAll))
              && actions == old(actions) + StopScanActions(old(scanner), old(scanCallback))
                            + [StartScan(radio.scanner.value, ScanFilters(parsedUuid.value, allowAll),
                                         ScanSettings(SCAN_MODE_LOW_LATENCY, 0), old(nextHandle))])
    {
      if !hasAdapter {
        return Failed(BluetoothNotSupported);
      }
      if !radio.enabled {
        return Failed(BluetoothOff);
      }
      if !allowAll && |targetTokens| > MAX_TARGET_TOKENS {
        return Failed(TooManyTargets);
      }
      StopScanInternal(false);
      debugAllowAll := allowAll;
      if parsedUuid.None? {
        return Failed(InvalidServiceUuid);
      }
      var uuid := parsedUuid.value;
      currentServiceUuid := Some(uuid);
      if !allowAll {
        var normalized := NormalizeAll(targetTokens);
        if normalized.Failure? {
          return Failed(InvalidTokenFormat);
        }
        targetTokenSet := normalized.value;
      } else {
        targetTokenSet := {};
      }
      if radio.scanner.None? {
        return Failed(ScannerNotAvailable);
      }
      BeginScan(radio.scanner.value, uuid, allowAll);
      status := Ok;
    }

    /** The tail of `startScanInternal` once everything is checked: adopt
        the scanner and start scanning with a fresh callback. */
    method BeginScan(sc: Handle, uuid: Uuid, allowAll: bool)
      requires Valid()
      modifies this`scanner, this`scanCallback, this`nextHandle, this`actions
      ensures Valid()
      ensures scanner == Some(sc) && scanCallback == Some(ScanSession(old(nextHandle), uuid, allowAll))
      ensures nextHandle == old(nextHandle) + 1
      ensures actions == old(actions) + [StartScan(sc, ScanFilters(uuid, allowAll), ScanSettings(SCAN_MODE_LOW_LATENCY, 0),
                                                   old(nextHandle))]
    {
      scanner := Some(sc);
      var id := FreshHandle();
      scanCallback := Some(ScanSession(id, uuid, allowAll));
      Perform(StartScan(sc, ScanFilters(uuid, allowAll), ScanSettings(SCAN_MODE_LOW_LATENCY, 0), id));
    }

    /** `onScanResult` of a scan callback the plugin created, running or
        already stopped or replaced (the scanner may still deliver results
        to it): a result with a scan record has its device remembered by
        address; then the filter runs with the UUID and allow-all that
        callback captured when its scan started and the plugin's current
        target set. */
    method OnScanResult(session: ScanSession, result: ScanDecision.ScanResult, nowMs: int)
      returns (event: Option<ScanDecision.ProximityEvent>)
      requires Valid() && session.id < nextHandle
      modifies this`discoveredDevices
      ensures Valid()
      ensures event == ScanDecision.OnScanResultEvent(result, session.serviceUuid, session.allowAll, targetTokenSet, nowMs)
      ensures discoveredDevices
           == if result.scanRecord.Some? && result.device.Some? && result.device.value.address.Some?
              then old(discoveredDevices)[result.device.value.address.value := result.device.value]
              else old(discoveredDevices)
    {
      if result.scanRecord.None? {
        return None;
      }
      if result.device.Some? && result.device.value.address.Some? {
        discoveredDevices := discoveredDevices[result.device.value.address.value := result.device.value];
      }
      event := ScanDecision.OnScanResultEvent(result, session.serviceUuid, session.allowAll, targetTokenSet, nowMs);
    }

    // ---- debug discovery ----

    /** `debugDiscoverServicesInternal` for a new caller, whose reply handle
        is returned. A pending request makes it fail with `busy` and touch
        nothing else; then come the adapter check and the device lookup (seen
        devices first, else the adapter's lookup `remote`); then `Connect`. */
    method DebugDiscoverServicesInternal(deviceId: string, timeoutMs: int, remote: Option<ScanDecision.Device>,
                                         connect: ConnectOutcome)
      returns (call: Handle)
      requires Valid()
      modifies this`pendingDiscovery, this`scheduledTimers, this`nextHandle, this`actions
      ensures Valid()
      ensures call == old(nextHandle)
      ensures old(pendingDiscovery).Some? ==>
        actions == old(actions) + [Deliver(call, ReplyError("busy", "Discovery already in progress"))]
        && pendingDiscovery == old(pendingDiscovery) && scheduledTimers == old(scheduledTimers)
      ensures old(pendingDiscovery).None? && !hasAdapter ==>
        actions == old(actions) + [Deliver(call, ReplyError("unsupported", "Bluetooth not supported"))]
        && pendingDiscovery.None? && scheduledTimers == old(scheduledTimers)
      ensures old(pendingDiscovery).None? && hasAdapter && deviceId !in discoveredDevices && remote.None? ==>
        actions == old(actions) + [Deliver(call, ReplyError("not_found", "Device not found: " + deviceId))]
        && pendingDiscovery.None? && scheduledTimers == old(scheduledTimers)
      ensures old(pendingDiscovery).None? && hasAdapter && (deviceId in discoveredDevices || remote.Some?) ==>
        ConnectOutcomeHolds(deviceId, timeoutMs, if deviceId in discoveredDevices then discoveredDevices[deviceId] else remote.value,
                            call, connect, old(actions))
      ensures Delivered(actions, call) == (if pendingDiscovery.Some? && pendingDiscovery.value.call == call then 0 else 1)
    {
      call := FreshHandle();
      if pendingDiscovery.Some? {
        Reply(call, ReplyError("busy", "Discovery already in progress"));
        return;
      }
      if !hasAdapter {
        Reply(call, ReplyError("unsupported", "Bluetooth not supported"));
        return;
      }
      var device: ScanDecision.Device;
      if deviceId in discoveredDevices {
        device := discoveredDevices[deviceId];
      } else if remote.Some? {
        device := remote.value;
      } else {
        Reply(call, ReplyError("not_found", "Device not found: " + deviceId));
        return;
      }
      Connect(deviceId, timeoutMs, device, call, connect);
    }

    /** What `Connect` leaves behind, given the log it started from. */
    ghost predicate ConnectOutcomeHolds(deviceId: string, timeoutMs: int, device: ScanDecision.Device, call: Handle,
                                       connect: ConnectOutcome, before: seq<Action>)
      reads this
    {
      match connect
      case PermissionDenied =>
        pendingDiscovery.None?
        && actions == before + [ConnectGatt(device.handle),
                                Deliver(call, ReplyError("permission_denied", "Missing BLUETOOTH_CONNECT permission"))]
      case NoGatt =>
        pendingDiscovery.None?
        && actions == before + [ConnectGatt(device.handle),
                                Deliver(call, ReplyError("connect_failed", "Unable to connect to " + deviceId))]
      case Connected =>
        pendingDiscovery == Some(DiscoveryRequest(deviceId, call, Some(call + 1), Some(Timer(call + 2, timeoutMs))))
        && scheduledTimers == {call + 2}
        && actions == before + [ConnectGatt(device.handle), PostDelayed(call + 2, timeoutMs)]
    }

    /** The part of `debugDiscoverServicesInternal` after the device is
        found: register the request, connect, and either drop the request
        with an error reply or record the connection and post its timeout. */
    method Connect(deviceId: string, timeoutMs: int, device: ScanDecision.Device, call: Handle, connect: ConnectOutcome)
      requires Valid() && pendingDiscovery.None? && call + 1 == nextHandle && Delivered(actions, call) == 0
      modifies this`pendingDiscovery, this`scheduledTimers, this`nextHandle, this`actions
      ensures Valid()
      ensures ConnectOutcomeHolds(deviceId, timeoutMs, device, call, connect, old(actions))
      ensures Delivered(actions, call) == (if connect.Connected? then 0 else 1)
    {
      pendingDiscovery := Some(DiscoveryRequest(deviceId, call, None, None));
      Perform(ConnectGatt(device.handle));
      match connect
      case PermissionDenied =>
        DropRequest(ReplyError("permission_denied", "Missing BLUETOOTH_CONNECT permission"));
      case NoGatt =>
        DropRequest(ReplyError("connect_failed", "Unable to connect to " + deviceId));
      case Connected =>
        AwaitServices(timeoutMs);
    }

    /** `pendingDiscovery = null; result.error(...)` after a failed connect. */
    method DropRequest(reply: Reply)
      requires Valid() && pendingDiscovery.Some? && pendingDiscovery.value.timeout.None?
      modifies this`pendingDiscovery, this`actions
      ensures Valid() && pendingDiscovery.None?
      ensures actions == old(actions) + [Deliver(old(pendingDiscovery).value.call, reply)]
      ensures Delivered(actions, old(pendingDiscovery).value.call) == 1
    {
      var call := pendingDiscovery.value.call;
      pendingDiscovery := None;
      Reply(call, reply);
    }

    /** `request.gatt = gatt`, then the timeout is created, recorded and posted. */
    method AwaitServices(timeoutMs: int)
      requires Valid() && pendingDiscovery.Some? && pendingDiscovery.value.gatt.None? && pendingDiscovery.value.timeout.None?
      modifies this`pendingDiscovery, this`scheduledTimers, this`nextHandle, this`actions
      ensures Valid() && nextHandle == old(nextHandle) + 2
      ensures pendingDiscovery == Some(old(pendingDiscovery).value.(gatt := Some(old(nextHandle)),
                                                                   timeout := Some(Timer(old(nextHandle) + 1, timeoutMs))))
      ensures scheduledTimers == {old(nextHandle) + 1}
      ensures actions == old(actions) + [PostDelayed(old(nextHandle) + 1, timeoutMs)]
    {
      var gatt := FreshHandle();
      pendingDiscovery := Some(pendingDiscovery.value.(gatt := Some(gatt)));
      var timer := FreshHandle();
      pendingDiscovery := Some(pendingDiscovery.value.(timeout := Some(Timer(timer, timeoutMs))));
      scheduledTimers := {timer};
      Perform(PostDelayed(timer, timeoutMs));
    }

    /** The common part of `finishDiscoverySuccess` and
        `finishDiscoveryError`: nothing when no request is pending; otherwise
        the request is cleared first, its timer removed, its caller answered
        and its connection disconnected and closed. */
    method Finish(reply: Reply)
      requires Valid()
      modifies this`pendingDiscovery, this`scheduledTimers, this`actions
      ensures Valid()
      ensures old(pendingDiscovery).None? ==> unchanged(this)
      ensures old(pendingDiscovery).Some? ==>
        var request := old(pendingDiscovery).value;
        pendingDiscovery.None? && scheduledTimers == {}
        && Delivered(actions, request.call) == 1
        && actions == old(actions) + TimerActions(request) + [Deliver(request.call, reply)] + GattActions(request)
    {
      if pendingDiscovery.None? {
        return;
      }
      var request := pendingDiscovery.value;
      pendingDiscovery := None;
      scheduledTimers := {};
      PerformAll(TimerActions(request));
      Reply(request.call, reply);
      PerformAll(GattActions(request));
    }

    /** `finishDiscoverySuccess`: the first resolution of a pending request
        answers its caller with the dump; later ones do nothing. */
    method FinishDiscoverySuccess(dump: string)
      requires Valid()
      modifies this`pendingDiscovery, this`scheduledTimers, this`actions
      ensures Valid()
      ensures old(pendingDiscovery).None? ==> unchanged(this)
      ensures old(pendingDiscovery).Some? ==>
        pendingDiscovery.None? && Deliver(old(pendingDiscovery).value.call, ReplySuccess(dump)) in actions
        && Delivered(actions, old(pendingDiscovery).value.call) == 1
    {
      var before := actions;
      Finish(ReplySuccess(dump));
      if old(pendingDiscovery).Some? {
        var request := old(pendingDiscovery).value;
        var k := |before| + (if request.timeout.Some? then 1 else 0);
        assert actions[k] == Deliver(request.call, ReplySuccess(dump));
      }
    }

    /** `finishDiscoveryError`: the first resolution of a pending request
        answers its caller with `debug_discover_failed`; later ones do nothing. */
    method FinishDiscoveryError(message: string)
      requires Valid()
      modifies this`pendingDiscovery, this`scheduledTimers, this`actions
      ensures Valid()
      ensures old(pendingDiscovery).None? ==> unchanged(this)
      ensures old(pendingDiscovery).Some? ==>
        pendingDiscovery.None? && Deliver(old(pendingDiscovery).value.call, ReplyError("debug_discover_failed", message)) in actions
        && Delivered(actions, old(pendingDiscovery).value.call) == 1
    {
      var before := actions;
      Finish(ReplyError("debug_discover_failed", message));
      if old(pendingDiscovery).Some? {
        var request := old(pendingDiscovery).value;
        var k := |before| + (if request.timeout.Some? then 1 else 0);
        assert actions[k] == Deliver(request.call, ReplyError("debug_discover_failed", message));
      }
    }

    /** The GATT callback's `onConnectionStateChange`: ignored unless `gatt`
        is the pending request's connection; a failed status ends the request
        with an error; a connection starts service discovery; a disconnect
        ends the request with an error; other states do nothing. */
    method OnConnectionStateChange(gatt: Handle, status: int, newState: int)
      requires Valid()
      modifies this`pendingDiscovery, this`scheduledTimers, this`actions
      ensures Valid()
      ensures old(pendingDiscovery).None? || old(pendingDiscovery).value.gatt != Some(gatt) ==> unchanged(this)
      ensures old(pendingDiscovery).Some? && old(pendingDiscovery).value.gatt == Some(gatt) ==>
        if status != GATT_SUCCESS then
          pendingDiscovery.None?
          && Deliver(old(pendingDiscovery).value.call,
                     ReplyError("debug_discover_failed", "Connection failed: " + IntToDecimal(status))) in actions
        else if newState == STATE_CONNECTED then
          actions == old(actions) + [DiscoverServices(gatt)]
          && pendingDiscovery == old(pendingDiscovery) && scheduledTimers == old(scheduledTimers)
        else if newState == STATE_DISCONNECTED then
          pendingDiscovery.None?
          && Deliver(old(pendingDiscovery).value.call, ReplyError("debug_discover_failed", "Disconnected")) in actions
        else
          unchanged(this)
    {
      if pendingDiscovery.None? || pendingDiscovery.value.gatt != Some(gatt) {
        return;
      }
      if status != GATT_SUCCESS {
        FinishDiscoveryError("Connection failed: " + IntToDecimal(status));
        return;
      }
      if newState == STATE_CONNECTED {
        Perform(DiscoverServices(gatt));
      } else if newState == STATE_DISCONNECTED {
        FinishDiscoveryError("Disconnected");
      }
    }

    /** The GATT callback's `onServicesDiscovered`: ignored unless `gatt` is
        the pending request's connection; a failed status ends the request
        with an error, success with the dump of the discovered services.
        `deviceName` and `services` are what the connection reports. */
    method OnServicesDiscovered(gatt: Handle, status: int, deviceName: Option<string>, services: seq<GattDump.Service>)
      requires Valid()
      modifies this`pendingDiscovery, this`scheduledTimers, this`actions
      ensures Valid()
      ensures old(pendingDiscovery).None? || old(pendingDiscovery).value.gatt != Some(gatt) ==> unchanged(this)
      ensures old(pendingDiscovery).Some? && old(pendingDiscovery).value.gatt == Some(gatt) ==>
        pendingDiscovery.None?
        && Deliver(old(pendingDiscovery).value.call,
                   if status != GATT_SUCCESS
                   then ReplyError("debug_discover_failed", "Service discovery failed: " + IntToDecimal(status))
                   else ReplySuccess(GattDump.GattDumpText(old(pendingDiscovery).value.deviceId, deviceName, services)))
           in actions
    {
      if pendingDiscovery.None? || pendingDiscovery.value.gatt != Some(gatt) {
        return;
      }
      if status != GATT_SUCCESS {
        FinishDiscoveryError("Service discovery failed: " + IntToDecimal(status));
        return;
      }
      var dump := GattDump.BuildGattDump(pendingDiscovery.value.deviceId, deviceName, services);
      FinishDiscoverySuccess(dump);
    }

    /** A posted timeout runs: only a timer still scheduled can run, and it
        is always the pending request's, which ends with a timeout error. */
    method OnTimeout(timer: Handle)
      requires Valid() && timer in scheduledTimers
      modifies this`pendingDiscovery, this`scheduledTimers, this`actions
      ensures Valid()
      ensures pendingDiscovery.None? && scheduledTimers == {}
      ensures Deliver(old(pendingDiscovery).value.call,
                      ReplyError("debug_discover_failed", TimeoutMessage(old(pendingDiscovery).value.timeout.value.timeoutMs)))
              in actions
    {
      var ms := pendingDiscovery.value.timeout.value.timeoutMs;
      FinishDiscoveryError(TimeoutMessage(ms));
    }
  }
}
