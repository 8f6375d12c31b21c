/** The diagnostic GATT dump of the Android plugin: `buildGattDump` and
    `describeGattProperties`. */
module GattDump {
  import opened Wrappers
  import TokenCodec
  import opened Text

  /** `BluetoothGattService.SERVICE_TYPE_PRIMARY`; any other type is printed as secondary. */
  const SERVICE_TYPE_PRIMARY: int := 0

  datatype Characteristic = Characteristic(uuid: string, properties: int)
  datatype Service = Service(uuid: string, serviceType: int, characteristics: seq<Characteristic>)

  /** The characteristic-properties bits of the Bluetooth Core Specification,
      Vol 3 Part G, section 3.3.1.1, that the dump names. */
  datatype Flag = Read | Write | WriteNoResponse | Notify | Indicate | SignedWrite | ExtendedProps

  function Name(f: Flag): string {
    match f
    case Read => "read"
    case Write => "write"
    case WriteNoResponse => "writeNoResponse"
    case Notify => "notify"
    case Indicate => "indicate"
    case SignedWrite => "signedWrite"
    case ExtendedProps => "extendedProps"
  }

  /** The order in which the flags are tested and listed. */
  const CheckOrder: seq<Flag> := [Read, Write, WriteNoResponse, Notify, Indicate, SignedWrite, ExtendedProps]

  /** `properties and mask != 0` on a 32-bit Int, for the masks read 0x02,
      writeNoResponse 0x04, write 0x08, notify 0x10, indicate 0x20,
      signedWrite 0x40 and extendedProps 0x80. Every mask lies in the low
      byte, and Dafny's `%` is Euclidean, so `% 256` gives the low byte of the
      two's-complement value also for negative properties. */
  predicate HasFlag(properties: int, f: Flag) {
    var low := properties % 256;
    match f
    case Read => (low / 0x02) % 2 == 1
    case WriteNoResponse => (low / 0x04) % 2 == 1
    case Write => (low / 0x08) % 2 == 1
    case Notify => (low / 0x10) % 2 == 1
    case Indicate => (low / 0x20) % 2 == 1
    case SignedWrite => (low / 0x40) % 2 == 1
    case ExtendedProps => (low / 0x80) % 2 == 1
  }

  function SetFlags(properties: int, order: seq<Flag>): (r: seq<Flag>)
    ensures forall f :: f in r <==> f in order && HasFlag(properties, f)
  {
    if order == [] then []
    else (if HasFlag(properties, order[0]) then [order[0]] else []) + SetFlags(properties, order[1..])
  }

  /** A flag's position in `CheckOrder`. */
  function Rank(f: Flag): (k: nat)
    ensures k < |CheckOrder| && CheckOrder[k] == f
  {
    match f
    case Read => 0
    case Write => 1
    case WriteNoResponse => 2
    case Notify => 3
    case Indicate => 4
    case SignedWrite => 5
    case ExtendedProps => 6
  }

  /** Listed in test order. */
  predicate Ranked(fs: seq<Flag>) {
    forall i, j :: 0 <= i < j < |fs| ==> Rank(fs[i]) < Rank(fs[j])
  }

  /** `CheckOrder` itself is listed in test order. */
  lemma CheckOrderRanked()
    ensures Ranked(CheckOrder)
  {
    assert forall k :: 0 <= k < |CheckOrder| ==> Rank(CheckOrder[k]) == k;
  }

  /** A flag ranked before all of `tail`, kept or not, in front of flags
      taken in order from `tail`. */
  lemma RankedCons(x: Flag, h: seq<Flag>, tail: seq<Flag>, rest: seq<Flag>)
    requires h == [] || h == [x]
    requires forall i :: 0 <= i < |tail| ==> Rank(x) < Rank(tail[i])
    requires Ranked(rest) && forall f :: f in rest ==> f in tail
    ensures Ranked(h + rest)
  {
    var r := h + rest;
    forall i, j | 0 <= i < j < |r| ensures Rank(r[i]) < Rank(r[j]) {
      assert r[j] == rest[j - |h|];
      if i < |h| {
        assert r[j] in tail;
      } else {
        assert r[i] == rest[i - |h|];
      }
    }
  }

  /** Keeping only the set flags keeps the order of the flags tested. */
  lemma {:induction false} SetFlagsKeepsOrder(properties: int, order: seq<Flag>)
    requires Ranked(order)
    ensures Ranked(SetFlags(properties, order))
    decreases |order|
  {
    if order != [] {
      var tail := order[1..];
      assert forall i :: 0 <= i < |tail| ==> tail[i] == order[i + 1];
      SetFlagsKeepsOrder(properties, tail);
      var h := if HasFlag(properties, order[0]) then [order[0]] else [];
      RankedCons(order[0], h, tail, SetFlags(properties, tail));
    }
  }

  /** The summary lists the set flags in test order: each flag listed before
      another is tested before it. */
  lemma SetFlagsInCheckOrder(properties: int)
    ensures var r := SetFlags(properties, CheckOrder);
      forall i, j :: 0 <= i < j < |r| ==> Rank(r[i]) < Rank(r[j])
  {
    CheckOrderRanked();
    SetFlagsKeepsOrder(properties, CheckOrder);
  }

  function Names(fs: seq<Flag>): (r: seq<string>)
    ensures |r| == |fs|
    ensures forall i :: 0 <= i < |fs| ==> r[i] == Name(fs[i])
  {
    if fs == [] then [] else [Name(fs[0])] + Names(fs[1..])
  }

  function DescribeGattProperties(properties: int): string {
    var names := Names(SetFlags(properties, CheckOrder));
    if names == [] then "none" else Join(names, '|')
  }

  // ---- reading a property summary back ----

  /** The flags a summary names. */
  function ParseProperties(text: string): set<Flag> {
    if text == "none" then {} else set f | f in CheckOrder && Name(f) in Split(text, '|')
  }

  lemma NameInjective(f: Flag, g: Flag)
    requires Name(f) == Name(g)
    ensures f == g
  {
  }

  /** The summary names exactly the set flags, so two property values with
      the same summary agree on all seven flags. */
  lemma DescribeParses(properties: int)
    ensures ParseProperties(DescribeGattProperties(properties))
         == set f | f in CheckOrder && HasFlag(properties, f)
  {
    var fs := SetFlags(properties, CheckOrder);
    NamedFlags(fs);
    if fs != [] {
      SummaryReadsBack(fs);
    }
  }

  /** A flag's name is listed exactly when the flag is. */
  lemma NamedFlags(fs: seq<Flag>)
    ensures forall f :: Name(f) in Names(fs) <==> f in fs
  {
    var names := Names(fs);
    forall f ensures Name(f) in names ==> f in fs {
      if Name(f) in names {
        var i :| 0 <= i < |names| && names[i] == Name(f);
        NameInjective(fs[i], f);
      }
    }
  }

  /** A non-empty list of names joined by `|` is not `none` and splits back into the names. */
  lemma SummaryReadsBack(fs: seq<Flag>)
    requires fs != []
    ensures Join(Names(fs), '|') != "none"
    ensures Split(Join(Names(fs), '|'), '|') == Names(fs)
  {
    var names := Names(fs);
    forall i | 0 <= i < |names| ensures '|' !in names[i] {
      NameShape(fs[i]);
    }
    SplitJoin(names, '|');
    SplitWord("none", '|');
    NameShape(fs[0]);
  }

  /** No flag name contains `|` or is `none`. */
  lemma NameShape(f: Flag)
    ensures '|' !in Name(f) && Name(f) != "none"
  {
    match f
    case Read =>
    case Write => assert Name(f)[0] != 'n';
    case WriteNoResponse =>
    case Notify => assert Name(f)[2] != 'n';
    case Indicate =>
    case SignedWrite =>
    case ExtendedProps =>
  }

  /** `none` exactly when none of the seven flags is set. */
  lemma DescribeNone(properties: int)
    ensures DescribeGattProperties(properties) == "none"
        <==> forall f :: f in CheckOrder ==> !HasFlag(properties, f)
  {
    DescribeParses(properties);
    if DescribeGattProperties(properties) == "none" {
      forall f | f in CheckOrder ensures !HasFlag(properties, f) {
        assert f !in ParseProperties("none");
      }
    }
  }

  // ---- the dump ----

  function TypeLabel(s: Service): string {
    if s.serviceType == SERVICE_TYPE_PRIMARY then "primary" else "secondary"
  }

  function ServiceLine(s: Service): string {
    "service " + s.uuid + " (" + TypeLabel(s) + ")"
  }

  function CharLine(c: Characteristic): string {
    "  char " + c.uuid + " props=" + DescribeGattProperties(c.properties)
  }

  /** The lines of a list of items, each item contributing its own block
      of lines, in list order. */
  function Blocks<T>(xs: seq<T>, block: T -> seq<string>): seq<string> {
    if xs == [] then [] else block(xs[0]) + Blocks(xs[1..], block)
  }

  /** One line per item, in list order. */
  function Lines<T>(xs: seq<T>, line: T -> string): seq<string> {
    if xs == [] then [] else [line(xs[0])] + Lines(xs[1..], line)
  }

  function CharLines(cs: seq<Characteristic>): seq<string> {
    Lines(cs, CharLine)
  }

  /** A service line followed by its characteristic lines. */
  function ServiceBlock(s: Service): seq<string> {
    [ServiceLine(s)] + CharLines(s.characteristics)
  }

  /** One service line per service, each followed by its characteristic lines, in list order. */
  function ServiceLines(ss: seq<Service>): seq<string> {
    Blocks(ss, ServiceBlock)
  }

  function HeaderLines(deviceId: string, name: string): seq<string> {
    ["deviceId: " + deviceId, "name: " + name]
  }

  /** Every line followed by a newline, as the string builder receives them. */
  function Terminated(lines: seq<string>): string {
    if lines == [] then [] else lines[0] + "\n" + Terminated(lines[1..])
  }

  /** The dump: header and service lines, newline-terminated, then `trimEnd()`. */
  function GattDumpText(deviceId: string, deviceName: Option<string>, services: seq<Service>): string {
    TokenCodec.TrimEnd(Terminated(HeaderLines(deviceId, deviceName.GetOr("unknown")) + ServiceLines(services)))
  }

  lemma {:induction false} TerminatedAppend(a: seq<string>, b: seq<string>)
    ensures Terminated(a + b) == Terminated(a) + Terminated(b)
  {
    if a == [] {
      assert a + b == b;
    } else {
      assert (a + b)[0] == a[0] && (a + b)[1..] == a[1..] + b;
      TerminatedAppend(a[1..], b);
    }
  }

  lemma {:induction false} BlocksAppend<T>(xs: seq<T>, x: T, block: T -> seq<string>)
    ensures Blocks(xs + [x], block) == Blocks(xs, block) + block(x)
  {
    if xs == [] {
      assert [x][1..] == [];
    } else {
      var t := xs + [x];
      assert t[0] == xs[0] && t[1..] == xs[1..] + [x];
      BlocksAppend(xs[1..], x, block);
      SeqAssoc(block(xs[0]), Blocks(xs[1..], block), block(x));
    }
  }

  lemma SeqAssoc<T>(a: seq<T>, b: seq<T>, c: seq<T>)
    ensures a + (b + c) == a + b + c
  {
  }

  lemma {:induction false} LinesAppend<T>(xs: seq<T>, x: T, line: T -> string)
    ensures Lines(xs + [x], line) == Lines(xs, line) + [line(x)]
  {
    if xs == [] {
      assert [x][1..] == [];
    } else {
      var t := xs + [x];
      assert t[0] == xs[0] && t[1..] == xs[1..] + [x];
      LinesAppend(xs[1..], x, line);
      SeqAssoc([line(xs[0])], Lines(xs[1..], line), [line(x)]);
    }
  }

  lemma {:induction false} LinesAt<T>(xs: seq<T>, line: T -> string, i: nat)
    requires i < |xs|
    ensures |Lines(xs, line)| == |xs| && Lines(xs, line)[i] == line(xs[i])
  {
    if |xs| == 1 {
      assert xs[1..] == [];
    } else if i > 0 {
      LinesAt(xs[1..], line, i - 1);
    } else {
      LinesAt(xs[1..], line, 0);
    }
  }

  lemma CharLinesAppend(cs: seq<Characteristic>, c: Characteristic)
    ensures CharLines(cs + [c]) == CharLines(cs) + [CharLine(c)]
  {
    LinesAppend(cs, c, CharLine);
  }

  /** Line `i` describes characteristic `i`: one line each, in list order. */
  lemma CharLinesAt(cs: seq<Characteristic>, i: nat)
    requires i < |cs|
    ensures |CharLines(cs)| == |cs| && CharLines(cs)[i] == CharLine(cs[i])
  {
    LinesAt(cs, CharLine, i);
  }

  lemma ServiceLinesAppend(ss: seq<Service>, s: Service)
    ensures ServiceLines(ss + [s]) == ServiceLines(ss) + [ServiceLine(s)] + CharLines(s.characteristics)
  {
    BlocksAppend(ss, s, ServiceBlock);
    SeqAssoc(ServiceLines(ss), [ServiceLine(s)], CharLines(s.characteristics));
  }

  lemma TerminatedSnoc(lines: seq<string>, l: string)
    ensures Terminated(lines + [l]) == Terminated(lines) + l + "\n"
  {
    TerminatedAppend(lines, [l]);
    assert Terminated([l]) == l + "\n";
  }

  // ---- the shape of the dump ----

  /** All lines of a dump, before joining. */
  function DumpLines(deviceId: string, deviceName: Option<string>, services: seq<Service>): seq<string> {
    HeaderLines(deviceId, deviceName.GetOr("unknown")) + ServiceLines(services)
  }

  predicate EndsSolid(line: string) {
    |line| > 0 && !TokenCodec.IsWhitespace(line[|line| - 1])
  }

  lemma {:induction false} TerminatedJoin(lines: seq<string>)
    requires |lines| >= 1
    ensures Terminated(lines) == Join(lines, '\n') + "\n"
  {
    if |lines| == 1 {
      assert lines[1..] == [];
    } else {
      TerminatedJoin(lines[1..]);
    }
  }

  lemma {:induction false} JoinEndsSolid(parts: seq<string>, sep: char)
    requires |parts| >= 1 && EndsSolid(parts[|parts| - 1])
    ensures EndsSolid(Join(parts, sep))
    ensures Join(parts, sep)[|Join(parts, sep)| - 1] == parts[|parts| - 1][|parts[|parts| - 1]| - 1]
  {
    if |parts| > 1 {
      JoinEndsSolid(parts[1..], sep);
    }
  }

  lemma DescribeEndsSolid(properties: int)
    ensures EndsSolid(DescribeGattProperties(properties))
  {
    var fs := SetFlags(properties, CheckOrder);
    var names := Names(fs);
    if names != [] {
      var f := fs[|fs| - 1];
      assert names[|names| - 1] == Name(f);
      assert EndsSolid(Name(f)) by {
        match f
        case Read => assert Name(f)[3] == 'd';
        case Write => assert Name(f)[4] == 'e';
        case WriteNoResponse => assert Name(f)[14] == 'e';
        case Notify => assert Name(f)[5] == 'y';
        case Indicate => assert Name(f)[7] == 'e';
        case SignedWrite => assert Name(f)[10] == 'e';
        case ExtendedProps => assert Name(f)[12] == 's';
      }
      JoinEndsSolid(names, '|');
    } else {
      assert "none"[3] == 'e';
    }
  }

  lemma ServiceLinesEndSolid(ss: seq<Service>)
    requires ss != []
    ensures |ServiceLines(ss)| > 0 && EndsSolid(ServiceLines(ss)[|ServiceLines(ss)| - 1])
  {
    var init, s := ss[..|ss| - 1], ss[|ss| - 1];
    assert ss == init + [s];
    BlocksAppend(init, s, ServiceBlock);
    var a, b := ServiceLines(init), ServiceBlock(s);
    ServiceBlockEndsSolid(s);
    assert (a + b)[|a + b| - 1] == b[|b| - 1];
  }

  lemma ServiceBlockEndsSolid(s: Service)
    ensures |ServiceBlock(s)| > 0 && EndsSolid(ServiceBlock(s)[|ServiceBlock(s)| - 1])
  {
    var cs := s.characteristics;
    if cs == [] {
      assert ServiceBlock(s) == [ServiceLine(s)];
      ServiceLineEndsSolid(s);
    } else {
      var c := cs[|cs| - 1];
      assert cs == cs[..|cs| - 1] + [c];
      CharLinesAppend(cs[..|cs| - 1], c);
      var a, b := [ServiceLine(s)], CharLines(cs);
      assert b[|b| - 1] == CharLine(c);
      assert (a + b)[|a + b| - 1] == b[|b| - 1];
      CharLineEndsSolid(c);
    }
  }

  lemma CharLineEndsSolid(c: Characteristic)
    ensures EndsSolid(CharLine(c))
  {
    var d := DescribeGattProperties(c.properties);
    DescribeEndsSolid(c.properties);
    var prefix := "  char " + c.uuid + " props=";
    assert CharLine(c) == prefix + d;
    assert (prefix + d)[|prefix + d| - 1] == d[|d| - 1];
  }

  lemma ServiceLineEndsSolid(s: Service)
    ensures EndsSolid(ServiceLine(s))
  {
    assert ServiceLine(s)[|ServiceLine(s)| - 1] == ')';
  }

  lemma TrimEndNewline(x: string)
    requires EndsSolid(x)
    ensures TokenCodec.TrimEnd(x + "\n") == x
  {
    assert (x + "\n")[..|x|] == x;
  }

  /** When the last line does not end in whitespace, the dump is its lines
      joined by newlines, without a trailing newline. */
  lemma DumpIsJoinedLines(deviceId: string, deviceName: Option<string>, services: seq<Service>)
    requires EndsSolid(DumpLines(deviceId, deviceName, services)[|DumpLines(deviceId, deviceName, services)| - 1])
    ensures GattDumpText(deviceId, deviceName, services) == Join(DumpLines(deviceId, deviceName, services), '\n')
  {
    var lines := DumpLines(deviceId, deviceName, services);
    TerminatedJoin(lines);
    JoinEndsSolid(lines, '\n');
    TrimEndNewline(Join(lines, '\n'));
  }

  /** With at least one service the last line always ends in `)` or a flag
      name, so trimming only removes the final newline. */
  lemma DumpWithServices(deviceId: string, deviceName: Option<string>, services: seq<Service>)
    requires services != []
    ensures GattDumpText(deviceId, deviceName, services) == Join(DumpLines(deviceId, deviceName, services), '\n')
  {
    ServiceLinesEndSolid(services);
    var lines := DumpLines(deviceId, deviceName, services);
    var sl := ServiceLines(services);
    assert lines[|lines| - 1] == sl[|sl| - 1];
    DumpIsJoinedLines(deviceId, deviceName, services);
  }

  /** Trimming the end of a text never reaches into a prefix when what
      follows the prefix starts with a character that is not whitespace. */
  lemma {:induction false} TrimEndAfterSolidStart(p: string, q: string)
    requires q != [] && !TokenCodec.IsWhitespace(q[0])
    ensures TokenCodec.TrimEnd(p + q) == p + TokenCodec.TrimEnd(q)
    decreases |q|
  {
    var pq := p + q;
    assert pq[|pq| - 1] == q[|q| - 1];
    if TokenCodec.IsWhitespace(q[|q| - 1]) {
      var q' := q[..|q| - 1];
      assert pq[..|pq| - 1] == p + q';
      TrimEndAfterSolidStart(p, q');
    }
  }

  /** A device with no services gives the two header lines only (an unknown
      name is printed as `unknown`); trailing whitespace of the name is
      trimmed away with the final newline. */
  lemma DumpWithoutServices(deviceId: string, deviceName: Option<string>)
    ensures GattDumpText(deviceId, deviceName, [])
         == "deviceId: " + deviceId + "\n" + TokenCodec.TrimEnd("name: " + deviceName.GetOr("unknown"))
  {
    var a, b := "deviceId: " + deviceId, "name: " + deviceName.GetOr("unknown");
    HeaderTerminated(deviceId, deviceName.GetOr("unknown"));
    assert ServiceLines([]) == [];
    assert HeaderLines(deviceId, deviceName.GetOr("unknown")) + [] == HeaderLines(deviceId, deviceName.GetOr("unknown"));
    assert a + "\n" + b + "\n" == (a + "\n") + (b + "\n");
    assert (b + "\n")[0] == 'n';
    TrimEndAfterSolidStart(a + "\n", b + "\n");
    assert (b + "\n")[..|b + "\n"| - 1] == b;
    assert TokenCodec.IsWhitespace((b + "\n")[|b + "\n"| - 1]);
    assert TokenCodec.TrimEnd(b + "\n") == TokenCodec.TrimEnd(b);
    assert Terminated(HeaderLines(deviceId, deviceName.GetOr("unknown")) + ServiceLines([]))
        == (a + "\n") + (b + "\n");
    assert GattDumpText(deviceId, deviceName, []) == TokenCodec.TrimEnd((a + "\n") + (b + "\n"));
  }

  /** When the name does not end in whitespace the dump is exactly the two
      header lines joined by a newline. */
  lemma DumpWithoutServicesSolidName(deviceId: string, deviceName: Option<string>)
    requires deviceName.Some? ==> EndsSolid(deviceName.value)
    ensures GattDumpText(deviceId, deviceName, []) == "deviceId: " + deviceId + "\nname: " + deviceName.GetOr("unknown")
  {
    var name := deviceName.GetOr("unknown");
    var lines := DumpLines(deviceId, deviceName, []);
    assert lines == ["deviceId: " + deviceId, "name: " + name];
    assert ("name: " + name)[|"name: " + name| - 1] == name[|name| - 1];
    DumpIsJoinedLines(deviceId, deviceName, []);
    assert lines[1..] == ["name: " + name];
  }

  lemma HeaderTerminated(deviceId: string, name: string)
    ensures Terminated(HeaderLines(deviceId, name))
         == "deviceId: " + deviceId + "\n" + "name: " + name + "\n"
  {
    var a, b := "deviceId: " + deviceId, "name: " + name;
    TerminatedSnoc([], a);
    assert [] + [a] == [a];
    TerminatedSnoc([a], b);
    assert HeaderLines(deviceId, name) == [a] + [b];
  }

  lemma CharStep(prefix: seq<string>, chars: seq<Characteristic>, j: nat)
    requires j < |chars|
    ensures prefix + CharLines(chars[..j]) + [CharLine(chars[j])] == prefix + CharLines(chars[..j + 1])
  {
    LinesStep(prefix, chars, j, CharLine);
  }

  lemma LinesStep<T>(prefix: seq<string>, xs: seq<T>, j: nat, line: T -> string)
    requires j < |xs|
    ensures prefix + Lines(xs[..j], line) + [line(xs[j])] == prefix + Lines(xs[..j + 1], line)
  {
    assert xs[..j + 1] == xs[..j] + [xs[j]];
    LinesAppend(xs[..j], xs[j], line);
    SeqAssoc(prefix, Lines(xs[..j], line), [line(xs[j])]);
  }

  lemma ServiceStep(header: seq<string>, services: seq<Service>, i: nat)
    requires i < |services|
    ensures header + ServiceLines(services[..i]) + [ServiceLine(services[i])] + CharLines(services[i].characteristics)
         == header + ServiceLines(services[..i + 1])
  {
    BlocksStep(header, services, i, ServiceBlock);
    SeqAssoc(header + ServiceLines(services[..i]), [ServiceLine(services[i])], CharLines(services[i].characteristics));
  }

  lemma BlocksStep<T>(prefix: seq<string>, xs: seq<T>, i: nat, block: T -> seq<string>)
    requires i < |xs|
    ensures prefix + Blocks(xs[..i], block) + block(xs[i]) == prefix + Blocks(xs[..i + 1], block)
  {
    assert xs[..i + 1] == xs[..i] + [xs[i]];
    BlocksAppend(xs[..i], xs[i], block);
    SeqAssoc(prefix, Blocks(xs[..i], block), block(xs[i]));
  }

  /** `buildGattDump`: appends the header, then each service line followed by
      its characteristic lines, to a string builder, and trims the end. */
  method BuildGattDump(deviceId: string, deviceName: Option<string>, services: seq<Service>)
    returns (dump: string)
    ensures dump == GattDumpText(deviceId, deviceName, services)
  {
    var name := deviceName.GetOr("unknown");
    ghost var header := HeaderLines(deviceId, name);
    ghost var lines := header;
    var sb := "deviceId: " + deviceId + "\n" + "name: " + name + "\n";
    HeaderTerminated(deviceId, name);
    assert header + ServiceLines(services[..0]) == header;
    for i := 0 to |services|
      invariant lines == header + ServiceLines(services[..i])
      invariant sb == Terminated(lines)
    {
      var service := services[i];
      ghost var before := lines;
      TerminatedSnoc(lines, ServiceLine(service));
      lines := lines + [ServiceLine(service)];
      sb := sb + ServiceLine(service) + "\n";
      var chars := service.characteristics;
      assert lines + CharLines(chars[..0]) == lines;
      ghost var start := lines;
      for j := 0 to |chars|
        invariant lines == start + CharLines(chars[..j])
        invariant sb == Terminated(lines)
      {
        TerminatedSnoc(lines, CharLine(chars[j]));
        CharStep(start, chars, j);
        lines := lines + [CharLine(chars[j])];
        sb := sb + CharLine(chars[j]) + "\n";
      }
      assert chars[..|chars|] == chars;
      ServiceStep(header, services, i);
    }
    assert services[..|services|] == services;
    dump := TokenCodec.TrimEnd(sb);
  }
}
