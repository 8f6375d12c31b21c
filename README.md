# BLE proximity signal: a verified model of the platform core

This project models, in Dafny, the part of the `ble_proximity_signal`
Flutter plugin that does real work on the platform side, and proves
properties of that model.

- **The Android plugin object** (`BleProximitySignalPlugin`). It broadcasts a
  short token as BLE service data. It scans for other devices' tokens under
  one service UUID and keeps only the ones in a target set of at most five
  tokens, unless allow-all debugging is on. It can also connect to one seen
  device at a time and reply with a text dump of its GATT services.
- **Its token codec.** A token is even-length hex (after trimming) or
  base64url/base64, possibly without padding. Either way it is normalised
  to lower-case hex, and that hex is what the scan filter compares.
- **The macOS test beacon** (`mac_beacon`). Once its peripheral manager is
  powered on, it advertises the fixed token `a1b2c3d4`. The token is decoded
  by a `Data(hex:)` initialiser.

Modules, one file each:

| module | file | what it holds |
|---|---|---|
| `Wrappers` | `wrappers.dfy` | `Option` and `Result` |
| `Hex` | `hex.dfy` | `hexToBytes` and `bytesToHexLower`. Both are loops over arrays, proved against `HexDecode` and `HexLower`, with the round-trip lemmas |
| `Base64` | `base64.dfy` | The basic (non-MIME) decoder of `java.util.Base64`, an encoder, and the round trip |
| `TokenCodec` | `token_codec.dfy` | `decodeTokenToBytes` and `normalizeTokenToHex`, Kotlin's `trim()`, and what the two paths accept |
| `Text` | `text.dfy` | Joining and splitting on a separator, and decimal rendering of integers |
| `GattDump` | `gatt_dump.dfy` | `describeGattProperties`, and `buildGattDump` as a loop proved against the dump text |
| `ScanDecision` | `scan_decision.dfy` | The scan-result callback as a pure decision: token extraction, the filter, the event fields, and the manufacturer-data loops |
| `Plugin` | `plugin.dfy` | The plugin's session state as a class. Broadcast, scan and debug-discovery operations are methods; GATT and timer callbacks are methods too |
| `MacBeacon` | `mac_beacon.dfy` | The Swift `Data(hex:)` parser as a loop, and the beacon's state-update handler |

Platform objects are opaque natural-number handles: scanner, advertiser,
callbacks, GATT connections, timeout runnables and a caller's reply
channel. The plugin hands out fresh handles from a counter. Every call the
plugin makes into the platform is appended to an `actions` log. That
includes each reply to a Flutter caller (`Deliver`). The contracts describe
the new field values and exactly which actions were appended.

Across every operation, the class invariant `SignalPlugin.Valid` says:
- every caller gets at most one reply;
- a pending discovery's caller has had no reply yet;
- the only timeout still scheduled is the pending request's.
`OnTimeout` therefore needs no "is this still the current request" test:
a stale timer is no longer scheduled.

The model follows the code as written. Five behaviours are worth knowing:

**Hex-shaped base64url tokens.** Base64url text that is also even-length
hex is decoded as hex. For example, `AAAA` encodes bytes `00 00 00` in
base64, but it decodes to `aa aa` (`TokenCodec.HexShapedUrlToken`).
Base64url tokens and hex tokens for the same bytes therefore normalise
alike only when the base64url text is not hex-shaped
(`TokenCodec.UrlTokenNormalizes`).

**Partial state on a bad token.** `startBroadcastInternal` records the
service UUID before it decodes the token. A bad token therefore fails with
the UUID already changed. `startScanInternal` behaves the same way: the
previous scan has already been stopped and allow-all recorded.

**What `trim` covers.** Only the hex test trims the token. The base64 path
decodes the untrimmed text, so ` AQ` is rejected (`TokenCodec.UntrimmedBase64`)
while ` 0a ` is accepted (`TokenCodec.TrimmedHexToken`).

**The filter reads the live target set.** The scan callback captures the
UUID and allow-all flag of its own start. It reads the target set from the
field at the moment each result arrives. A callback that has been stopped
or replaced still does this for any result the scanner delivers to it late.

**Signs in Swift's radix-16 parse.** `UInt8(_, radix: 16)` accepts a sign.
So `Data(hex:)` accepts chunks such as `+a` and `-0`
(`MacBeacon.SignedChunks`).

## Model

| member | source | states |
|---|---|---|
| Hex.HexDecode | ble_proximity_signal_android/android/src/main/kotlin/com/andrew/signal/BleProximitySignalPlugin.kt:583-594 | One byte per two hex digits of the text |
| Hex.HexLower | ble_proximity_signal_android/android/src/main/kotlin/com/andrew/signal/BleProximitySignalPlugin.kt:596-602 | Two lower-case hex digits per byte |
| Hex.HexDecodeAt | ble_proximity_signal_android/android/src/main/kotlin/com/andrew/signal/BleProximitySignalPlugin.kt:589-590 | Byte `k` is `16 * digit(2k) + digit(2k+1)`, read as a base-16 pair |
| Hex.HexLowerAt | ble_proximity_signal_android/android/src/main/kotlin/com/andrew/signal/BleProximitySignalPlugin.kt:598-600 | Characters `2k` and `2k+1` are the high and low nibble of byte `k` (`%02x`) |
| Hex.ToLowerAsciiAt | ble_proximity_signal_android/android/src/main/kotlin/com/andrew/signal/BleProximitySignalPlugin.kt:584 | Lower-casing keeps the length and maps each character on its own |
| Hex.HexDecodeIgnoresCase | ble_proximity_signal_android/android/src/main/kotlin/com/andrew/signal/BleProximitySignalPlugin.kt:584-590 | Lower-casing the text first (`lowercase(Locale.US)`) does not change the decoded bytes |
| Hex.HexRoundTrip | ble_proximity_signal_android/android/src/main/kotlin/com/andrew/signal/BleProximitySignalPlugin.kt:583-602 | Decoding the lower-case hex of any bytes gives the bytes back |
| Hex.HexReencode | ble_proximity_signal_android/android/src/main/kotlin/com/andrew/signal/BleProximitySignalPlugin.kt:583-602 | Re-encoding decoded hex gives the lower-cased input |
| Hex.HexToBytes | ble_proximity_signal_android/android/src/main/kotlin/com/andrew/signal/BleProximitySignalPlugin.kt:583-594 | The loop fills the array with exactly the decoded bytes, for any even-length hex string |
| Hex.BytesToHexLower | ble_proximity_signal_android/android/src/main/kotlin/com/andrew/signal/BleProximitySignalPlugin.kt:596-602 | The loop builds exactly the lower-case hex of the array contents |
| Base64.Decode | ble_proximity_signal_android/android/src/main/kotlin/com/andrew/signal/BleProximitySignalPlugin.kt:577 | `Base64.getDecoder().decode`: four characters of the standard alphabet per three bytes, with `=` padding only at the end; its behaviour is stated by `DecodeEncode` and `DecodeRejectsOneModFour` |
| Base64.Encode | ble_proximity_signal_android/android/src/main/kotlin/com/andrew/signal/BleProximitySignalPlugin.kt:577 | The padded standard encoding, the reference against which the decoder is proved (`DecodeEncode`) |
| Base64.DecodeRejectsOneModFour | ble_proximity_signal_android/android/src/main/kotlin/com/andrew/signal/BleProximitySignalPlugin.kt:577-579 | `Base64.getDecoder().decode` rejects text whose length is 1 mod 4 |
| Base64.DecodeEncode | ble_proximity_signal_android/android/src/main/kotlin/com/andrew/signal/BleProximitySignalPlugin.kt:577 | The decoder inverts the padded standard encoding of any bytes |
| Base64.UrlChar | ble_proximity_signal_android/android/src/main/kotlin/com/andrew/signal/BleProximitySignalPlugin.kt:570 | The url-safe alphabet differs from the standard one only in `-` and `_` for 62 and 63 |
| TokenCodec.TrimStartSpec | ble_proximity_signal_android/android/src/main/kotlin/com/andrew/signal/BleProximitySignalPlugin.kt:562 | `trim()` drops exactly the leading whitespace and stops at non-whitespace |
| TokenCodec.TrimEndSpec | ble_proximity_signal_android/android/src/main/kotlin/com/andrew/signal/BleProximitySignalPlugin.kt:562 | `trim()` drops exactly the trailing whitespace and stops at non-whitespace |
| TokenCodec.Trim | ble_proximity_signal_android/android/src/main/kotlin/com/andrew/signal/BleProximitySignalPlugin.kt:562 | Kotlin's `trim()`: leading and trailing whitespace removed; stated by `TrimSplits` and `TrimNoWhitespace` |
| TokenCodec.Pad | ble_proximity_signal_android/android/src/main/kotlin/com/andrew/signal/BleProximitySignalPlugin.kt:571-576 | The `when` on the length mod 4 that restores base64 padding; stated by `PadLength` |
| TokenCodec.TrimSplits | ble_proximity_signal_android/android/src/main/kotlin/com/andrew/signal/BleProximitySignalPlugin.kt:562 | The trimmed token is a slice of it, with whitespace only outside the slice and no whitespace at its ends |
| TokenCodec.TrimNoWhitespace | ble_proximity_signal_android/android/src/main/kotlin/com/andrew/signal/BleProximitySignalPlugin.kt:562 | Trimming leaves text without whitespace alone |
| TokenCodec.UrlToStd | ble_proximity_signal_android/android/src/main/kotlin/com/andrew/signal/BleProximitySignalPlugin.kt:570 | The character replacement keeps the length |
| TokenCodec.HexPath | ble_proximity_signal_android/android/src/main/kotlin/com/andrew/signal/BleProximitySignalPlugin.kt:560-565 | A trimmed token that is non-empty, even-length hex decodes as hex, one byte per two digits |
| TokenCodec.HexPathIgnoresCase | ble_proximity_signal_android/android/src/main/kotlin/com/andrew/signal/BleProximitySignalPlugin.kt:562-565 | Upper- and lower-case spellings of a hex token decode to the same bytes |
| TokenCodec.HexLowerDecodes | ble_proximity_signal_android/android/src/main/kotlin/com/andrew/signal/BleProximitySignalPlugin.kt:560-565 | The lower-case hex of any bytes decodes back to them |
| TokenCodec.NormalizeHexLower | ble_proximity_signal_android/android/src/main/kotlin/com/andrew/signal/BleProximitySignalPlugin.kt:555-558 | Canonical hex is a fixed point of normalisation |
| TokenCodec.NormalizeIdempotent | ble_proximity_signal_android/android/src/main/kotlin/com/andrew/signal/BleProximitySignalPlugin.kt:555-558 | Normalising a normalised token gives the same result |
| TokenCodec.PadLength | ble_proximity_signal_android/android/src/main/kotlin/com/andrew/signal/BleProximitySignalPlugin.kt:571-576 | Lengths 2 and 3 mod 4 get `==` and `=` appended, reaching a multiple of 4; lengths 0 and 1 mod 4 are left alone |
| TokenCodec.OneModFourFails | ble_proximity_signal_android/android/src/main/kotlin/com/andrew/signal/BleProximitySignalPlugin.kt:567-580 | A token that is not hex and whose length is 1 mod 4 is `InvalidTokenFormat` |
| TokenCodec.UrlToStdPadded | ble_proximity_signal_android/android/src/main/kotlin/com/andrew/signal/BleProximitySignalPlugin.kt:569-576 | Replacement plus padding turns the unpadded base64url encoding of any bytes into their padded standard encoding |
| TokenCodec.UnpaddedLength | ble_proximity_signal_android/android/src/main/kotlin/com/andrew/signal/BleProximitySignalPlugin.kt:572-575 | The unpadded base64url text of `n` bytes has length 0, 2 or 3 mod 4 as `n` is 0, 1 or 2 mod 3 |
| TokenCodec.UrlEncodeNoWhitespace | ble_proximity_signal_android/android/src/main/kotlin/com/andrew/signal/BleProximitySignalPlugin.kt:562 | Base64url text has no whitespace, so `trim()` cannot change it |
| TokenCodec.UrlTokenNormalizes | ble_proximity_signal_android/android/src/main/kotlin/com/andrew/signal/BleProximitySignalPlugin.kt:555-580 | An unpadded base64url token that is not hex-shaped decodes to its bytes and normalises like their hex spelling |
| TokenCodec.HexShapedUrlToken | ble_proximity_signal_android/android/src/main/kotlin/com/andrew/signal/BleProximitySignalPlugin.kt:562-565 | The base64url token `AAAA`, for the bytes `00 00 00`, is taken as hex and decodes to `aa aa` |
| TokenCodec.UnpaddedBase64Token | ble_proximity_signal_android/android/src/main/kotlin/com/andrew/signal/BleProximitySignalPlugin.kt:571-577 | The unpadded token `AQ` decodes to the single byte 1 |
| TokenCodec.UntrimmedBase64 | ble_proximity_signal_android/android/src/main/kotlin/com/andrew/signal/BleProximitySignalPlugin.kt:568-579 | The base64 path does not trim: ` AQ` is `InvalidTokenFormat` |
| TokenCodec.TrimmedHexToken | ble_proximity_signal_android/android/src/main/kotlin/com/andrew/signal/BleProximitySignalPlugin.kt:562-564 | The hex path does trim: ` 0a ` decodes to the byte 10 |
| TokenCodec.EmptyToken | ble_proximity_signal_android/android/src/main/kotlin/com/andrew/signal/BleProximitySignalPlugin.kt:563-577 | The empty token is not hex, because the regex needs one digit, but base64 decodes it to no bytes |
| TokenCodec.DecodeTokenToBytes | ble_proximity_signal_android/android/src/main/kotlin/com/andrew/signal/BleProximitySignalPlugin.kt:560-580 | `decodeTokenToBytes`: the even-length hex test on the trimmed token first, then base64 on the untrimmed, character-replaced and padded token, any failure being `InvalidTokenFormat`; stated by `HexPath`, `OneModFourFails`, `UrlTokenNormalizes`, `UntrimmedBase64` and `TrimmedHexToken` |
| TokenCodec.NormalizeTokenToHex | ble_proximity_signal_android/android/src/main/kotlin/com/andrew/signal/BleProximitySignalPlugin.kt:555-558 | `normalizeTokenToHex`: the lower-case hex of the decoded bytes, or the decoder's failure; stated by `NormalizeHexLower` and `NormalizeIdempotent` |
| Text.SplitJoin | ble_proximity_signal_android/android/src/main/kotlin/com/andrew/signal/BleProximitySignalPlugin.kt:548 | Splitting a `|`-joined list of separator-free parts gives the parts back |
| Text.NatToDecimal | ble_proximity_signal_android/android/src/main/kotlin/com/andrew/signal/BleProximitySignalPlugin.kt:438 | The `$status` rendering of a number is a non-empty string of decimal digits |
| Text.NatToDecimalDenotes | ble_proximity_signal_android/android/src/main/kotlin/com/andrew/signal/BleProximitySignalPlugin.kt:438 | Those digits denote the number, with no leading zero except for 0 itself |
| GattDump.SetFlags | ble_proximity_signal_android/android/src/main/kotlin/com/andrew/signal/BleProximitySignalPlugin.kt:534-547 | The listed flags are exactly the tested flags that are set |
| GattDump.SetFlagsInCheckOrder | ble_proximity_signal_android/android/src/main/kotlin/com/andrew/signal/BleProximitySignalPlugin.kt:535-546 | The flags are listed in test order: read, write, writeNoResponse, notify, indicate, signedWrite, extendedProps |
| GattDump.DescribeGattProperties | ble_proximity_signal_android/android/src/main/kotlin/com/andrew/signal/BleProximitySignalPlugin.kt:533-549 | The property summary: the names of the set flags joined by `|`, or `none`; its properties are stated by `DescribeParses`, `DescribeNone` and `SetFlagsInCheckOrder` |
| GattDump.Names | ble_proximity_signal_android/android/src/main/kotlin/com/andrew/signal/BleProximitySignalPlugin.kt:534-547 | One name per listed flag, position by position |
| GattDump.NameInjective | ble_proximity_signal_android/android/src/main/kotlin/com/andrew/signal/BleProximitySignalPlugin.kt:535-546 | The seven property names are distinct |
| GattDump.DescribeParses | ble_proximity_signal_android/android/src/main/kotlin/com/andrew/signal/BleProximitySignalPlugin.kt:533-549 | Splitting the description at `|` recovers exactly the set property flags |
| GattDump.DescribeNone | ble_proximity_signal_android/android/src/main/kotlin/com/andrew/signal/BleProximitySignalPlugin.kt:548 | The description is `none` exactly when none of the seven flags is set |
| GattDump.DescribeEndsSolid | ble_proximity_signal_android/android/src/main/kotlin/com/andrew/signal/BleProximitySignalPlugin.kt:548 | A description never ends in whitespace |
| GattDump.CharLinesAt | ble_proximity_signal_android/android/src/main/kotlin/com/andrew/signal/BleProximitySignalPlugin.kt:525-528 | One `  char` line per characteristic, in order |
| GattDump.TrimEndNewline | ble_proximity_signal_android/android/src/main/kotlin/com/andrew/signal/BleProximitySignalPlugin.kt:530 | `trimEnd()` removes only the final newline when the last line ends in a non-space |
| GattDump.DumpWithServices | ble_proximity_signal_android/android/src/main/kotlin/com/andrew/signal/BleProximitySignalPlugin.kt:506-531 | With at least one service, the dump is its header, service and characteristic lines joined by newlines, with no trailing newline |
| GattDump.DumpWithoutServices | ble_proximity_signal_android/android/src/main/kotlin/com/andrew/signal/BleProximitySignalPlugin.kt:506-531 | Without services the dump is the `deviceId` line, a newline and the `name` line (`unknown` for a missing name) with its trailing whitespace trimmed, for any name |
| GattDump.DumpWithoutServicesSolidName | ble_proximity_signal_android/android/src/main/kotlin/com/andrew/signal/BleProximitySignalPlugin.kt:510-531 | When the name does not end in whitespace, the dump is exactly the two header lines joined by a newline |
| GattDump.TrimEndAfterSolidStart | ble_proximity_signal_android/android/src/main/kotlin/com/andrew/signal/BleProximitySignalPlugin.kt:531 | `trimEnd()` never removes characters before a non-whitespace character |
| GattDump.BuildGattDump | ble_proximity_signal_android/android/src/main/kotlin/com/andrew/signal/BleProximitySignalPlugin.kt:506-531 | The nested loops build exactly the dump text |
| GattDump.GattDumpText | ble_proximity_signal_android/android/src/main/kotlin/com/andrew/signal/BleProximitySignalPlugin.kt:506-531 | The dump text: the header lines, one line per service and per characteristic, each newline-terminated, then `trimEnd()`; its shape is stated by `DumpWithServices` and `DumpWithoutServices` |
| ScanDecision.ServiceDataFor | ble_proximity_signal_android/android/src/main/kotlin/com/andrew/signal/BleProximitySignalPlugin.kt:291 | Service data is found exactly when the record has an entry for the UUID, and it is that entry's bytes |
| ScanDecision.Find | ble_proximity_signal_android/android/src/main/kotlin/com/andrew/signal/BleProximitySignalPlugin.kt:291 | The lookup returns the bytes of an entry with the UUID, or none when no entry has it |
| ScanDecision.ManufacturerDataLength | ble_proximity_signal_android/android/src/main/kotlin/com/andrew/signal/BleProximitySignalPlugin.kt:376-385 | The loop returns the total size of all manufacturer entries, or none for a missing or empty table |
| ScanDecision.ManufacturerDataHex | ble_proximity_signal_android/android/src/main/kotlin/com/andrew/signal/BleProximitySignalPlugin.kt:387-398 | The loop returns the `%04x:<hex>` parts of the entries with bytes joined by `,`, or none when there are none |
| ScanDecision.ManufacturerPartsEmpty | ble_proximity_signal_android/android/src/main/kotlin/com/andrew/signal/BleProximitySignalPlugin.kt:393-397 | No part is produced exactly when every entry lacks bytes |
| ScanDecision.Hex4 | ble_proximity_signal_android/android/src/main/kotlin/com/andrew/signal/BleProximitySignalPlugin.kt:395 | A company id is rendered in four characters |
| ScanDecision.Hex4Denotes | ble_proximity_signal_android/android/src/main/kotlin/com/andrew/signal/BleProximitySignalPlugin.kt:395 | `%04x` writes four lower-case hex digits, most significant first, whose value is the company id |
| ScanDecision.ServiceDataUuids | ble_proximity_signal_android/android/src/main/kotlin/com/andrew/signal/BleProximitySignalPlugin.kt:311 | One UUID per service-data entry, in order |
| ScanDecision.ServiceDataHex | ble_proximity_signal_android/android/src/main/kotlin/com/andrew/signal/BleProximitySignalPlugin.kt:312-317 | Each service-data entry maps to its UUID and the lower-case hex of its bytes |
| ScanDecision.Utf8Char | ble_proximity_signal_android/android/src/main/kotlin/com/andrew/signal/BleProximitySignalPlugin.kt:321 | A character encodes to 1 to 4 UTF-8 bytes, and to one byte exactly when it is ASCII |
| ScanDecision.Utf8Ascii | ble_proximity_signal_android/android/src/main/kotlin/com/andrew/signal/BleProximitySignalPlugin.kt:321 | ASCII text encodes to its own code points, one byte each |
| ScanDecision.FilterDecision | ble_proximity_signal_android/android/src/main/kotlin/com/andrew/signal/BleProximitySignalPlugin.kt:287-305 | A result is reported exactly when it has a scan record, and allow-all is on or its token is in the target set; the event carries its RSSI and the clock reading |
| ScanDecision.AcceptedTokenIsTarget | ble_proximity_signal_android/android/src/main/kotlin/com/andrew/signal/BleProximitySignalPlugin.kt:301-319 | With allow-all off, every event's `targetToken` is the extracted token and lies in the target set |
| ScanDecision.ServiceDataPreferred | ble_proximity_signal_android/android/src/main/kotlin/com/andrew/signal/BleProximitySignalPlugin.kt:291-301 | Service data under the scan UUID decides the token, whatever the local name says |
| ScanDecision.UndecodableNameIsNoToken | ble_proximity_signal_android/android/src/main/kotlin/com/andrew/signal/BleProximitySignalPlugin.kt:297-304 | A local name that is not a valid token gives no token, so the record is dropped and no error is raised |
| ScanDecision.ServiceDataFilter | ble_proximity_signal_android/android/src/main/kotlin/com/andrew/signal/BleProximitySignalPlugin.kt:291-305 | With allow-all off, matching service data is reported under its canonical hex and other service data is dropped |
| ScanDecision.AllowAllAcceptsEveryRecord | ble_proximity_signal_android/android/src/main/kotlin/com/andrew/signal/BleProximitySignalPlugin.kt:287-305 | Under allow-all every result with a scan record is reported |
| ScanDecision.TargetTokenFallback | ble_proximity_signal_android/android/src/main/kotlin/com/andrew/signal/BleProximitySignalPlugin.kt:319 | `targetToken` is the token, else the address, else the local name, else empty |
| ScanDecision.ServiceDataTotalPositive | ble_proximity_signal_android/android/src/main/kotlin/com/andrew/signal/BleProximitySignalPlugin.kt:310 | The service-data size is positive exactly when some entry has bytes |
| ScanDecision.EventOptionalKeys | ble_proximity_signal_android/android/src/main/kotlin/com/andrew/signal/BleProximitySignalPlugin.kt:307-347 | Each optional payload key is present exactly under the condition the callback tests for it |
| ScanDecision.TokenHex | ble_proximity_signal_android/android/src/main/kotlin/com/andrew/signal/BleProximitySignalPlugin.kt:291-301 | The service data under the scan UUID as lower-case hex, else the local name normalised as a token, else none; stated by `ServiceDataPreferred` and `UndecodableNameIsNoToken` |
| ScanDecision.TargetToken | ble_proximity_signal_android/android/src/main/kotlin/com/andrew/signal/BleProximitySignalPlugin.kt:319 | `tokenHex ?: deviceId ?: localName ?: ""`; stated by `TargetTokenFallback` |
| ScanDecision.BuildEvent | ble_proximity_signal_android/android/src/main/kotlin/com/andrew/signal/BleProximitySignalPlugin.kt:307-347 | The event payload of an accepted result; its keys are stated by `EventOptionalKeys` |
| ScanDecision.OnScanResultEvent | ble_proximity_signal_android/android/src/main/kotlin/com/andrew/signal/BleProximitySignalPlugin.kt:287-349 | The whole decision of `onScanResult`: no record or a filtered-out token gives no event, otherwise the built event; stated by `FilterDecision`, `AcceptedTokenIsTarget` and `AllowAllAcceptsEveryRecord` |
| Plugin.TxPowerLevel | ble_proximity_signal_android/android/src/main/kotlin/com/andrew/signal/BleProximitySignalPlugin.kt:190-201 | Level HIGH exactly for hints of at least 3, LOW exactly for hints of at most -6, and MEDIUM otherwise or with no hint |
| Plugin.TxPowerMonotone | ble_proximity_signal_android/android/src/main/kotlin/com/andrew/signal/BleProximitySignalPlugin.kt:194-199 | A stronger hint never selects a weaker level |
| Plugin.BroadcastSettings | ble_proximity_signal_android/android/src/main/kotlin/com/andrew/signal/BleProximitySignalPlugin.kt:184-201 | Low-latency, non-connectable advertising without a timeout, at the level `TxPowerLevel` maps the hint to |
| Plugin.BroadcastData | ble_proximity_signal_android/android/src/main/kotlin/com/andrew/signal/BleProximitySignalPlugin.kt:203-212 | The advertisement: the service UUID and the token bytes as that UUID's service data, without device name or TX power |
| Plugin.ScanFilters | ble_proximity_signal_android/android/src/main/kotlin/com/andrew/signal/BleProximitySignalPlugin.kt:265-272 | No filter under allow-all, otherwise one filter on the service UUID |
| Plugin.NormalizeAll | ble_proximity_signal_android/android/src/main/kotlin/com/andrew/signal/BleProximitySignalPlugin.kt:259 | The set of the tokens' normalised hex, or `InvalidTokenFormat` when some token does not decode; stated by `TargetsCanonical` |
| Plugin.TargetsCanonical | ble_proximity_signal_android/android/src/main/kotlin/com/andrew/signal/BleProximitySignalPlugin.kt:258-259 | Every stored target is even-length lower-case hex and normalises to itself |
| Plugin.ServiceDataMatchesConfiguredToken | ble_proximity_signal_android/android/src/main/kotlin/com/andrew/signal/BleProximitySignalPlugin.kt:259-305 | With allow-all off, service data `b` is reported exactly when some configured token, in any accepted spelling, normalises to the hex of `b` |
| Plugin.SignalPlugin.constructor | ble_proximity_signal_android/android/src/main/kotlin/com/andrew/signal/BleProximitySignalPlugin.kt:36-53 | Initially nothing runs: no scanner, advertiser, callbacks, targets, UUID, devices or pending request, and allow-all is off |
| Plugin.SignalPlugin.StopBroadcastInternal | ble_proximity_signal_android/android/src/main/kotlin/com/andrew/signal/BleProximitySignalPlugin.kt:224-234 | Stops the advertisement only with both an advertiser and a callback, then forgets the callback; otherwise changes nothing |
| Plugin.SignalPlugin.StartBroadcastInternal | ble_proximity_signal_android/android/src/main/kotlin/com/andrew/signal/BleProximitySignalPlugin.kt:167-222 | Each failure in source order, with what each leaves changed; on success it stops the old advertisement and starts one with the mapped TX power and the decoded token; succeeds exactly when every check passes |
| Plugin.SignalPlugin.Advertise | ble_proximity_signal_android/android/src/main/kotlin/com/andrew/signal/BleProximitySignalPlugin.kt:179-221 | Adopts the advertiser, stops any previous advertisement, starts the new one with a fresh callback |
| Plugin.SignalPlugin.StopScanInternal | ble_proximity_signal_android/android/src/main/kotlin/com/andrew/signal/BleProximitySignalPlugin.kt:359-374 | Stops the scan only with both a scanner and a callback, always forgets the callback, and clears targets, allow-all and devices exactly when asked |
| Plugin.SignalPlugin.StartScanInternal | ble_proximity_signal_android/android/src/main/kotlin/com/andrew/signal/BleProximitySignalPlugin.kt:240-357 | Adapter and five-target checks change nothing; later failures leave the previous scan stopped; on success the target set is the normalised tokens (empty under allow-all), and one scan starts with the UUID filter unless allow-all |
| Plugin.SignalPlugin.BeginScan | ble_proximity_signal_android/android/src/main/kotlin/com/andrew/signal/BleProximitySignalPlugin.kt:261-356 | Adopts the scanner and starts a low-latency, no-delay scan with a fresh callback capturing the UUID and allow-all |
| Plugin.SignalPlugin.OnScanResult | ble_proximity_signal_android/android/src/main/kotlin/com/andrew/signal/BleProximitySignalPlugin.kt:283-349 | For any scan callback the plugin created, running or already stopped or replaced: remembers a device by address only when the result has a scan record; the event is the filter decision for that callback's captured UUID and allow-all and the current target set |
| Plugin.SignalPlugin.DebugDiscoverServicesInternal | ble_proximity_signal_android/android/src/main/kotlin/com/andrew/signal/BleProximitySignalPlugin.kt:404-486 | Replies `busy`, `unsupported` or `not_found` in that order of checks; a found device is looked up in seen devices before the adapter; every caller gets exactly one reply unless its request is left pending |
| Plugin.SignalPlugin.Connect | ble_proximity_signal_android/android/src/main/kotlin/com/andrew/signal/BleProximitySignalPlugin.kt:426-486 | Connecting either fails with `permission_denied` or `connect_failed` and clears the request, or records the connection and posts its timeout |
| Plugin.SignalPlugin.DropRequest | ble_proximity_signal_android/android/src/main/kotlin/com/andrew/signal/BleProximitySignalPlugin.kt:470-477 | Clears the pending request, then replies to its caller once |
| Plugin.SignalPlugin.AwaitServices | ble_proximity_signal_android/android/src/main/kotlin/com/andrew/signal/BleProximitySignalPlugin.kt:479-485 | Records the connection and the timeout in the request and posts the timeout |
| Plugin.SignalPlugin.Finish | ble_proximity_signal_android/android/src/main/kotlin/com/andrew/signal/BleProximitySignalPlugin.kt:488-504 | Does nothing without a pending request; otherwise it clears the request and its timer, removes the timer, replies once, then disconnects and closes the connection |
| Plugin.SignalPlugin.FinishDiscoverySuccess | ble_proximity_signal_android/android/src/main/kotlin/com/andrew/signal/BleProximitySignalPlugin.kt:488-495 | The first resolution replies with the dump; later ones change nothing |
| Plugin.SignalPlugin.FinishDiscoveryError | ble_proximity_signal_android/android/src/main/kotlin/com/andrew/signal/BleProximitySignalPlugin.kt:497-504 | The first resolution replies `debug_discover_failed` with the message; later ones change nothing |
| Plugin.SignalPlugin.OnConnectionStateChange | ble_proximity_signal_android/android/src/main/kotlin/com/andrew/signal/BleProximitySignalPlugin.kt:431-446 | Ignores other connections; a failed status or a disconnect ends the request with an error; a connection starts service discovery; any other state changes nothing |
| Plugin.SignalPlugin.OnServicesDiscovered | ble_proximity_signal_android/android/src/main/kotlin/com/andrew/signal/BleProximitySignalPlugin.kt:448-459 | Ignores other connections; ends the request with an error or with the dump of the reported services |
| Plugin.SignalPlugin.OnTimeout | ble_proximity_signal_android/android/src/main/kotlin/com/andrew/signal/BleProximitySignalPlugin.kt:480-485 | A scheduled timeout always belongs to the pending request, and ends it with the timeout error |
| MacBeacon.ParseUInt8Radix16 | ble_proximity_signal_ios/mac_beacon/Sources/mac_beacon/mac_beacon.swift:44 | Two hex digits of either case give their value; `+d` gives the value of `d` and `-0` gives 0; nothing else parses |
| MacBeacon.DataFromHex | ble_proximity_signal_ios/mac_beacon/Sources/mac_beacon/mac_beacon.swift:36-49 | The chunk loop returns exactly the decoding of the trimmed text, stopping at the first bad chunk |
| MacBeacon.SwiftTrim | ble_proximity_signal_ios/mac_beacon/Sources/mac_beacon/mac_beacon.swift:37 | `trimmingCharacters(in: .whitespacesAndNewlines)`: leading and trailing whitespace removed |
| MacBeacon.DecodeChunks | ble_proximity_signal_ios/mac_beacon/Sources/mac_beacon/mac_beacon.swift:39-47 | The bytes of consecutive two-character chunks, or none at the first chunk that does not parse; stated by `DecodeChunksSpec` and `BadChunkRejected` |
| MacBeacon.HexData | ble_proximity_signal_ios/mac_beacon/Sources/mac_beacon/mac_beacon.swift:36-49 | `Data(hex:)`: trim, reject an odd length, decode the chunks; stated by `HexDataBytes`, `OddLengthRejected` and `HexDataRoundTrip` |
| MacBeacon.OddLengthRejected | ble_proximity_signal_ios/mac_beacon/Sources/mac_beacon/mac_beacon.swift:38 | An odd trimmed length is rejected |
| MacBeacon.DecodeChunksSpec | ble_proximity_signal_ios/mac_beacon/Sources/mac_beacon/mac_beacon.swift:40-47 | Decoding succeeds exactly when every chunk parses, and then byte `i` is chunk `i` |
| MacBeacon.HexDataBytes | ble_proximity_signal_ios/mac_beacon/Sources/mac_beacon/mac_beacon.swift:36-49 | A decoded result has one byte per chunk of the trimmed text, in order |
| MacBeacon.BadChunkRejected | ble_proximity_signal_ios/mac_beacon/Sources/mac_beacon/mac_beacon.swift:44 | One chunk that does not parse rejects the whole text |
| MacBeacon.BlankIsEmptyData | ble_proximity_signal_ios/mac_beacon/Sources/mac_beacon/mac_beacon.swift:37-48 | Whitespace-only text decodes to empty data |
| MacBeacon.LowerHexHasNoWhitespace | ble_proximity_signal_ios/mac_beacon/Sources/mac_beacon/mac_beacon.swift:37 | Trimming leaves lower-case hex alone |
| MacBeacon.HexDataRoundTrip | ble_proximity_signal_ios/mac_beacon/Sources/mac_beacon/mac_beacon.swift:36-49 | The parser inverts lower-case hex encoding of any bytes |
| MacBeacon.SignedChunks | ble_proximity_signal_ios/mac_beacon/Sources/mac_beacon/mac_beacon.swift:44 | `+a` decodes to 10 and `-0` to 0, but `-1` is rejected |
| MacBeacon.TokenDecodes | ble_proximity_signal_ios/mac_beacon/Sources/mac_beacon/mac_beacon.swift:7-18 | The built-in token decodes to `a1 b2 c3 d4`, so the guard never fails |
| MacBeacon.Beacon.constructor | ble_proximity_signal_ios/mac_beacon/Sources/mac_beacon/mac_beacon.swift:9-12 | A new beacon has asked the peripheral manager for nothing |
| MacBeacon.Beacon.DidUpdateState | ble_proximity_signal_ios/mac_beacon/Sources/mac_beacon/mac_beacon.swift:14-32 | Only a powered-on manager with a decodable token stops and restarts advertising, with the service UUID and the token as service data; otherwise nothing happens |

## Left out

- Flutter plumbing is not modelled: `onAttachedToEngine`, `onDetachedFromEngine`, `onListen`, `onCancel`, `onMethodCall` and the event channel. These methods only marshal arguments and results. The scan event is the return value of `OnScanResult` instead of a call on the event sink. Whether the adapter exists is fixed when the plugin attaches; here it is the constructor's `hasAdapter`.
- The advertise and scan failure callbacks (`onStartFailure`, `onScanFailed`) are not modelled; they only forward an error to the event sink.
- Android BLE calls are foreign calls, so the plugin cannot see their effects. Each becomes an `Action` appended to the log, over opaque handles: `startAdvertising`, `stopAdvertising`, `startScan`, `stopScan`, `connectGatt`, `discoverServices`, `disconnect`, `close`, `postDelayed` and `removeCallbacks`. Exceptions from the two stop calls are swallowed by the source; the model has no such exceptions.
- `UUID.fromString` is not modelled. Its outcome is the `parsedUuid` parameter, where `None` stands for the exception. A UUID is its text.
- `bluetoothLeAdvertiser` and `bluetoothLeScanner` are given by the `Radio` parameter, which also says whether the adapter is enabled.
- Each exception that the start methods throw becomes a `Failure` value. The message texts are left out.
- `getRemoteDevice` is the `remote` parameter. The outcome of `connectGatt` is the `connect` parameter: a connection, a `SecurityException`, or `null`. The SDK-version branch picks between two overloads that the model does not distinguish.
- The timeout is not real time. A posted timer firing is the event `OnTimeout`, and a negative `timeoutMs` is not treated specially.
- `System.currentTimeMillis()` is the `nowMs` input.
- `String.format` is given only the shapes `%02x`, `%04x:` and decimal `$status`. Locale details are left out.
- In the GATT callbacks, the connection's device name (`gatt.device?.name`) and its service list (`gatt.services`) are parameters of `OnServicesDiscovered`.
- Android's maps (service data, manufacturer data) are sequences in iteration order. The model does not require their keys to be distinct.
- Kotlin strings are UTF-16; Dafny strings are sequences of Unicode scalar values. Unpaired surrogates, which `toByteArray(Charsets.UTF_8)` would replace, cannot occur in the model.
- ScanDecision.ManufacturerDataLength: does not model the 32-bit overflow of `total`, which only occurs beyond 2^31 bytes of advertisement data. `serviceDataLen` is treated the same way.
- Every method and callback of the plugin runs to completion before the next starts. On Android the GATT callbacks arrive on a binder thread while the timeout and the method calls run on the main looper. A GATT callback that arrives before `request.gatt = gatt` is dropped by the connection guard, and a discovery finishing while its timeout fires is an unsynchronised race. The single-reply guarantee of `SignalPlugin.Valid` rests on this serialisation.
- `startAdvertising` and `startScan` are assumed never to throw. A `SecurityException` from either would propagate after the callback, the advertiser or scanner and the service UUID have changed; the model reports `Ok` there.
- Plugin.NormalizeAll: the source stops at the first token that fails. The model states "some token fails". Every failure is the same `InvalidTokenFormat`, so the result is the same.
- Plugin.SignalPlugin.FinishDiscoverySuccess: states that the reply is in the log, against the request's caller, and that the request is cleared. The full new log is stated by `Plugin.SignalPlugin.Finish`, which this method calls.
- Plugin.SignalPlugin.FinishDiscoveryError: states the reply and the cleared request, as `FinishDiscoverySuccess` does. The full log is stated by `Finish`.
- Plugin.SignalPlugin.OnConnectionStateChange: on its error branches, states the reply and the cleared request rather than the whole log.
- Plugin.SignalPlugin.OnServicesDiscovered: states the reply and the cleared request rather than the whole log.
- Plugin.SignalPlugin.OnTimeout: states the timeout reply and the cleared request rather than the whole log.
- MacBeacon.DataFromHex: Swift counts and steps over grapheme clusters; the model steps over Unicode scalars. A text parses only when every scalar is a hex digit or a sign, and each such scalar is a grapheme of its own. Any other text fails in both counts, so the results agree.
- The beacon's `print` calls, the `CBPeripheralManager` construction and `RunLoop.main.run()` are left out. The iOS plugin stub and `Package.swift` carry no logic.
