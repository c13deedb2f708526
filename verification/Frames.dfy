/** HTTP/2 frames as values: what a payload means (sections 4.1 and 6.1 to 6.10 of RFC 9113),
    and `Render`, the inverse the parsers are measured against. */
module Frames {
  import opened Wire

  // Frame types
  const DATA := 0x00
  const HEADERS := 0x01
  const PRIORITY := 0x02
  const RST_STREAM := 0x03
  const SETTINGS := 0x04
  const PUSH_PROMISE := 0x05
  const PING := 0x06
  const GOAWAY := 0x07
  const WINDOW_UPDATE := 0x08
  const CONTINUATION := 0x09
  const ALTSVC := 0x0A
  const ORIGIN := 0x0C
  const PRIORITY_UPDATE := 0x10

  // Error codes
  const NO_ERROR := 0x00
  const PROTOCOL_ERROR := 0x01
  const FLOW_CONTROL_ERROR := 0x03
  const STREAM_CLOSED := 0x05
  const FRAME_SIZE_ERROR := 0x06
  const REFUSED_STREAM := 0x07
  const COMPRESSION_ERROR := 0x09
  const ENHANCE_YOUR_CALM := 0x0B

  // Settings identifiers
  const HEADER_TABLE_SIZE := 0x01
  const ENABLE_PUSH := 0x02
  const INITIAL_WINDOW_SIZE := 0x04
  const MAX_FRAME_SIZE := 0x05
  const ENABLE_CONNECT_PROTOCOL := 0x08

  const FRAME_HEADER_SIZE := 9
  const DEFAULT_MAX_FRAME_SIZE := 16384
  const MAX_ALLOWED_FRAME_SIZE := 16777215
  const MAX_STREAM_ID := 0x7FFF_FFFF
  const RESERVED_BIT := 0x8000_0000

  // Flags
  predicate EndStream(flags: byte) { flags % 2 == 1 }
  predicate Ack(flags: byte) { flags % 2 == 1 }
  predicate EndHeaders(flags: byte) { flags / 4 % 2 == 1 }
  predicate Padded(flags: byte) { flags / 8 % 2 == 1 }
  predicate HasPriority(flags: byte) { flags / 32 % 2 == 1 }

  datatype FrameHeader = FrameHeader(length: nat, kind: byte, flags: byte, streamId: nat)

  datatype PriorityInfo = PriorityInfo(exclusive: bool, dependency: nat, weight: nat)

  type Entry = (nat, nat)

  datatype Payload =
    | Data(data: Bytes, endStream: bool, padded: bool)
    | Headers(block: Bytes, priority: Option<PriorityInfo>, endStream: bool, endHeaders: bool, padded: bool)
    | Priority(info: PriorityInfo)
    | RstStream(errorCode: nat)
    | Settings(ack: bool, settings: Option<map<nat, nat>>, entries: seq<Entry>)
    | PushPromise(promised: nat, block: Bytes, endHeaders: bool, padded: bool)
    | Ping(data: Bytes, ack: bool)
    | Goaway(lastStreamId: nat, errorCode: nat, debug: Bytes)
    | WindowUpdate(increment: nat)
    | Continuation(block: Bytes, endHeaders: bool)
    | AltSvc(origin: Bytes, fieldValue: Bytes)
    | Origin(origins: seq<Bytes>)
    | PriorityUpdate(prioritized: nat, fieldValue: Bytes)
    | Unknown(kind: byte, raw: Bytes, parseError: Option<int>)

  datatype ParsedFrame = ParsedFrame(header: FrameHeader, payload: Payload, raw: Bytes)

  /** `used` counts the SETTINGS and ORIGIN entries reserved while reading, also on failure. */
  datatype Parse = Parsed(payload: Payload, used: nat) | Malformed(code: int, used: nat)

  datatype FrameResult = Frame(frame: ParsedFrame, used: nat) | Rejected(code: int, used: nat)

  /** A value, or the code of an HTTP2FrameParsingError. */
  datatype Checked<+T> = Ok(value: T) | Err(code: int) {
    predicate IsFailure() { Err? }

    function PropagateFailure<U>(): Checked<U> {
      Err(if Err? then code else NO_ERROR)
    }

    function Extract(): T
      requires Ok?
    {
      value
    }
  }

  // ---------------------------------------------------------------- payloads

  function PadField(h: FrameHeader): nat { if Padded(h.flags) then 1 else 0 }

  function PadLength(h: FrameHeader, p: Bytes): (r: Checked<nat>)
    ensures r.Ok? && |p| == h.length ==> PadField(h) + r.value <= |p|
  {
    if !Padded(h.flags) then Ok(0)
    else if |p| < 1 then Err(FRAME_SIZE_ERROR)
    else if p[0] >= h.length then Err(PROTOCOL_ERROR)
    else Ok(p[0])
  }

  predicate AllZero(s: Bytes) { forall i :: 0 <= i < |s| ==> s[i] == 0 }

  function PriorityOf(s: Bytes): PriorityInfo
    requires |s| == 5
  {
    PriorityInfo(U32(s[..4]) >= RESERVED_BIT, StreamIdOf(s[..4]), (s[4] as int) + 1)
  }

  /** Thirty-one bits: the reserved one is ignored. */
  function StreamIdOf(s: Bytes): (id: nat)
    requires |s| == 4
    ensures id <= MAX_STREAM_ID
  {
    if U32(s) >= RESERVED_BIT then U32(s) - RESERVED_BIT else U32(s)
  }

  /** The octets from `start` up to the padding, which strict mode wants to be zero. */
  function BlockOf(p: Bytes, start: nat, pad: nat, strict: bool): (r: Checked<Bytes>)
    requires pad <= |p|
  {
    if start > |p| - pad then Err(PROTOCOL_ERROR)
    else if strict && !AllZero(p[|p| - pad..]) then Err(PROTOCOL_ERROR)
    else Ok(p[start..|p| - pad])
  }

  function DataSpec(h: FrameHeader, p: Bytes, strict: bool): Parse
    requires |p| == h.length
  {
    if h.streamId == 0 then Malformed(PROTOCOL_ERROR, 0) else
    match PadLength(h, p)
    case Err(code) => Malformed(code, 0)
    case Ok(pad) =>
      match BlockOf(p, PadField(h), pad, strict)
      case Err(code) => Malformed(code, 0)
      case Ok(content) => Parsed(Data(content, EndStream(h.flags), Padded(h.flags)), 0)
  }

  function HeadersSpec(h: FrameHeader, p: Bytes, strict: bool): Parse
    requires |p| == h.length
  {
    if h.streamId == 0 then Malformed(PROTOCOL_ERROR, 0) else
    match PadLength(h, p)
    case Err(code) => Malformed(code, 0)
    case Ok(pad) =>
      var f := PadField(h);
      var start := if HasPriority(h.flags) then f + 5 else f;
      if start > |p| then Malformed(FRAME_SIZE_ERROR, 0) else
      match BlockOf(p, start, pad, strict)
      case Err(code) => Malformed(code, 0)
      case Ok(block) =>
        var priority := if HasPriority(h.flags) then Some(PriorityOf(p[f..f + 5])) else None;
        Parsed(Headers(block, priority, EndStream(h.flags), EndHeaders(h.flags), Padded(h.flags)), 0)
  }

  function PrioritySpec(h: FrameHeader, p: Bytes): Parse {
    if |p| != 5 then Malformed(FRAME_SIZE_ERROR, 0)
    else if h.streamId == 0 then Malformed(PROTOCOL_ERROR, 0)
    else Parsed(Priority(PriorityOf(p)), 0)
  }

  function RstStreamSpec(h: FrameHeader, p: Bytes): Parse {
    if |p| != 4 then Malformed(FRAME_SIZE_ERROR, 0)
    else if h.streamId == 0 then Malformed(PROTOCOL_ERROR, 0)
    else Parsed(RstStream(U32(p)), 0)
  }

  function BadSetting(entry: Entry): Option<int> {
    var (id, value) := entry;
    if id == ENABLE_PUSH && value != 0 && value != 1 then Some(PROTOCOL_ERROR)
    else if id == INITIAL_WINDOW_SIZE && value > MAX_STREAM_ID then Some(FLOW_CONTROL_ERROR)
    else if id == MAX_FRAME_SIZE && !(DEFAULT_MAX_FRAME_SIZE <= value <= MAX_ALLOWED_FRAME_SIZE)
      then Some(PROTOCOL_ERROR)
    else None
  }

  function EntryAt(p: Bytes, k: nat): Entry
    requires (k + 1) * 6 <= |p|
  {
    (U16(p[k * 6..k * 6 + 2]), U32(p[k * 6 + 2..k * 6 + 6]))
  }

  function EntriesOf(p: Bytes, k: nat): seq<Entry>
    requires k * 6 <= |p|
  {
    seq(k, i requires 0 <= i < k => EntryAt(p, i))
  }

  /** The effective values: the last occurrence of an identifier wins. */
  function Effective(entries: seq<Entry>): map<nat, nat> {
    if entries == [] then map[]
    else
      var last := entries[|entries| - 1];
      Effective(entries[..|entries| - 1])[last.0 := last.1]
  }

  /** The error of the first unacceptable entry at or after index `i`. */
  function FirstBad(entries: seq<Entry>, i: nat): Option<int>
    decreases |entries| - i
  {
    if i >= |entries| then None
    else if BadSetting(entries[i]).Some? then BadSetting(entries[i])
    else FirstBad(entries, i + 1)
  }

  predicate Overdrawn(count: nat, room: Option<int>) { room.Some? && count > room.value }

  function SettingsSpec(h: FrameHeader, p: Bytes, room: Option<int>): Parse {
    if h.streamId != 0 then Malformed(PROTOCOL_ERROR, 0)
    else if Ack(h.flags) then
      if |p| != 0 then Malformed(FRAME_SIZE_ERROR, 0) else Parsed(Settings(true, None, []), 0)
    else if |p| % 6 != 0 then Malformed(FRAME_SIZE_ERROR, 0)
    else
      var count := |p| / 6;
      if Overdrawn(count, room) then Malformed(ENHANCE_YOUR_CALM, 0)
      else
        var entries := EntriesOf(p, count);
        match FirstBad(entries, 0)
        case Some(code) => Malformed(code, count)
        case None => Parsed(Settings(false, Some(Effective(entries)), entries), count)
  }

  function PushPromiseSpec(h: FrameHeader, p: Bytes, strict: bool): Parse
    requires |p| == h.length
  {
    if h.streamId == 0 then Malformed(PROTOCOL_ERROR, 0) else
    match PadLength(h, p)
    case Err(code) => Malformed(code, 0)
    case Ok(pad) =>
      var f := PadField(h);
      if f + 4 > |p| then Malformed(FRAME_SIZE_ERROR, 0)
      else if StreamIdOf(p[f..f + 4]) == 0 then Malformed(PROTOCOL_ERROR, 0) else
      match BlockOf(p, f + 4, pad, strict)
      case Err(code) => Malformed(code, 0)
      case Ok(block) =>
        Parsed(PushPromise(StreamIdOf(p[f..f + 4]), block, EndHeaders(h.flags), Padded(h.flags)), 0)
  }

  function PingSpec(h: FrameHeader, p: Bytes): Parse {
    if h.streamId != 0 then Malformed(PROTOCOL_ERROR, 0)
    else if |p| != 8 then Malformed(FRAME_SIZE_ERROR, 0)
    else Parsed(Ping(p, Ack(h.flags)), 0)
  }

  function GoawaySpec(h: FrameHeader, p: Bytes): Parse {
    if h.streamId != 0 then Malformed(PROTOCOL_ERROR, 0)
    else if |p| < 8 then Malformed(FRAME_SIZE_ERROR, 0)
    else Parsed(Goaway(StreamIdOf(p[..4]), U32(p[4..8]), p[8..]), 0)
  }

  function WindowUpdateSpec(p: Bytes): Parse {
    if |p| != 4 then Malformed(FRAME_SIZE_ERROR, 0)
    else if StreamIdOf(p) == 0 then Malformed(PROTOCOL_ERROR, 0)
    else Parsed(WindowUpdate(StreamIdOf(p)), 0)
  }

  function ContinuationSpec(h: FrameHeader, p: Bytes): Parse {
    if h.streamId == 0 then Malformed(PROTOCOL_ERROR, 0)
    else Parsed(Continuation(p, EndHeaders(h.flags)), 0)
  }

  function AltSvcSpec(p: Bytes): Parse {
    if |p| < 2 then Malformed(PROTOCOL_ERROR, 0)
    else if U16(p[..2]) > |p| - 2 then Malformed(PROTOCOL_ERROR, 0)
    else Parsed(AltSvc(p[2..2 + U16(p[..2])], p[2 + U16(p[..2])..]), 0)
  }

  /** The ORIGIN list from some point of the payload on, with the entries read before it. */
  function OriginsFrom(p: Bytes, origins: seq<Bytes>, room: Option<int>): Parse
    decreases |p|
  {
    if p == [] then Parsed(Origin(origins), |origins|)
    else if |p| < 2 then Malformed(PROTOCOL_ERROR, |origins|)
    else
      var n := U16(p[..2]);
      if 2 + n > |p| then Malformed(PROTOCOL_ERROR, |origins|)
      else if Overdrawn(|origins| + 1, room) then Malformed(ENHANCE_YOUR_CALM, |origins|)
      else OriginsFrom(p[2 + n..], origins + [p[2..2 + n]], room)
  }

  function OriginSpec(h: FrameHeader, p: Bytes, room: Option<int>): Parse {
    if h.streamId != 0 then Malformed(PROTOCOL_ERROR, 0) else OriginsFrom(p, [], room)
  }

  function PriorityUpdateSpec(h: FrameHeader, p: Bytes): Parse {
    if h.streamId != 0 then Malformed(PROTOCOL_ERROR, 0)
    else if |p| < 4 then Malformed(FRAME_SIZE_ERROR, 0)
    else if StreamIdOf(p[..4]) == 0 then Malformed(PROTOCOL_ERROR, 0)
    else Parsed(PriorityUpdate(StreamIdOf(p[..4]), p[4..]), 0)
  }

  function PayloadSpec(h: FrameHeader, p: Bytes, strict: bool, room: Option<int>): Parse
    requires |p| == h.length
  {
    if h.kind == DATA then DataSpec(h, p, strict)
    else if h.kind == HEADERS then HeadersSpec(h, p, strict)
    else if h.kind == PRIORITY then PrioritySpec(h, p)
    else if h.kind == RST_STREAM then RstStreamSpec(h, p)
    else if h.kind == SETTINGS then SettingsSpec(h, p, room)
    else if h.kind == PUSH_PROMISE then PushPromiseSpec(h, p, strict)
    else if h.kind == PING then PingSpec(h, p)
    else if h.kind == GOAWAY then GoawaySpec(h, p)
    else if h.kind == WINDOW_UPDATE then WindowUpdateSpec(p)
    else if h.kind == CONTINUATION then ContinuationSpec(h, p)
    else if h.kind == ALTSVC then AltSvcSpec(p)
    else if h.kind == ORIGIN then OriginSpec(h, p, room)
    else if h.kind == PRIORITY_UPDATE then PriorityUpdateSpec(h, p)
    else Parsed(Unknown(h.kind, p, None), 0)
  }

  // ------------------------------------------------------------------ frames

  function HeaderOf(data: Bytes): FrameHeader
    requires |data| >= FRAME_HEADER_SIZE
  {
    FrameHeader(U24(data[..3]), data[3], data[4], StreamIdOf(data[5..9]))
  }

  function FrameEnd(data: Bytes): nat
    requires |data| >= FRAME_HEADER_SIZE
  {
    FRAME_HEADER_SIZE + U24(data[..3])
  }

  predicate Complete(data: Bytes, maximum: int) {
    |data| >= FRAME_HEADER_SIZE && U24(data[..3]) <= maximum && FrameEnd(data) <= |data|
  }

  /** The first frame of `data`. */
  function FrameSpec(data: Bytes, maximum: int, strict: bool, forensic: bool, room: Option<int>): FrameResult {
    if !Complete(data, maximum) then Rejected(FRAME_SIZE_ERROR, 0)
    else
      var h := HeaderOf(data);
      var stop := FrameEnd(data);
      match PayloadSpec(h, data[FRAME_HEADER_SIZE..stop], strict, room)
      case Parsed(payload, used) => Frame(ParsedFrame(h, payload, data[..stop]), used)
      case Malformed(code, used) =>
        if code == ENHANCE_YOUR_CALM || !(forensic || h.kind == ALTSVC || h.kind == ORIGIN)
        then Rejected(code, used)
        else Frame(ParsedFrame(h, Unknown(h.kind, data[FRAME_HEADER_SIZE..stop], Some(code)), data[..stop]), used)
  }

  /** A frame on the wire. */
  function FrameBytes(kind: byte, flags: byte, streamId: nat, payload: Bytes): (s: Bytes)
    requires |payload| <= MAX_ALLOWED_FRAME_SIZE && streamId <= MAX_STREAM_ID
    ensures |s| == FRAME_HEADER_SIZE + |payload|
  {
    Put24(|payload|) + [kind, flags] + Put32(streamId) + payload
  }

  function HeaderFlags(endStream: bool, endHeaders: bool): byte {
    (if endStream then 1 else 0) + (if endHeaders then 4 else 0)
  }

  // ------------------------------------------------------ the inverse: Render

  function WithReserved(id: nat, reserved: bool): nat {
    if reserved then id + RESERVED_BIT else id
  }

  predicate PackableEntries(entries: seq<Entry>) {
    forall i :: 0 <= i < |entries| ==> entries[i].0 < 0x1_0000 && entries[i].1 < 0x1_0000_0000
  }

  /** Section 6.5.2 of RFC 9113: what a client may say about push, the initial window and the frame size.
      Any other identifier is accepted with any value. */
  predicate Acceptable(entry: Entry) {
    && (entry.0 == 2 ==> entry.1 == 0 || entry.1 == 1)
    && (entry.0 == 4 ==> entry.1 <= 0x7fff_ffff)
    && (entry.0 == 5 ==> 16384 <= entry.1 <= 16777215)
  }

  predicate WellFormedEntries(entries: seq<Entry>) {
    PackableEntries(entries) && forall i :: 0 <= i < |entries| ==> Acceptable(entries[i])
  }

  function RenderEntries(entries: seq<Entry>): (s: Bytes)
    requires PackableEntries(entries)
    ensures |s| == |entries| * 6
  {
    if entries == [] then []
    else
      var last := entries[|entries| - 1];
      RenderEntries(entries[..|entries| - 1]) + Put16(last.0) + Put32(last.1)
  }

  function RenderOrigins(origins: seq<Bytes>): Bytes
    requires forall o :: o in origins ==> |o| < 0x1_0000
  {
    if origins == [] then []
    else Put16(|origins[0]|) + origins[0] + RenderOrigins(origins[1..])
  }

  function RenderPriority(info: PriorityInfo): Bytes
    requires info.dependency <= MAX_STREAM_ID && 1 <= info.weight <= 256
  {
    Put32(WithReserved(info.dependency, info.exclusive)) + [info.weight - 1]
  }

  predicate WellFormedPriority(info: PriorityInfo) {
    info.dependency <= MAX_STREAM_ID && 1 <= info.weight <= 256
  }

  /** The payloads section 6 of RFC 9113 allows, with the padding that goes with them. */
  predicate WellFormed(payload: Payload, padding: Bytes) {
    && |padding| < 256
    && match payload
       case Data(_, _, padded) => padded || padding == []
       case Headers(_, priority, _, _, padded) =>
         (padded || padding == []) && (priority.Some? ==> WellFormedPriority(priority.value))
       case Priority(info) => WellFormedPriority(info)
       case RstStream(code) => code < 0x1_0000_0000
       case Settings(ack, settings, entries) =>
         && WellFormedEntries(entries)
         && (if ack then settings == None && entries == [] else settings == Some(Effective(entries)))
       case PushPromise(promised, _, _, padded) =>
         (padded || padding == []) && 0 < promised <= MAX_STREAM_ID
       case Ping(data, _) => |data| == 8
       case Goaway(last, code, _) => last <= MAX_STREAM_ID && code < 0x1_0000_0000
       case WindowUpdate(increment) => 0 < increment <= MAX_STREAM_ID
       case Continuation(_, _) => true
       case AltSvc(origin, _) => |origin| < 0x1_0000
       case Origin(origins) => forall o :: o in origins ==> |o| < 0x1_0000
       case PriorityUpdate(id, _) => 0 < id <= MAX_STREAM_ID
       case Unknown(_, _, parseError) => parseError == None
  }

  function RenderPad(padded: bool, padding: Bytes): Bytes
    requires |padding| < 256
  {
    if padded then [|padding|] else []
  }

  /** The payload octets: the pad length, the fields in wire order, then the padding. */
  function Render(payload: Payload, padding: Bytes, reserved: bool): Bytes
    requires WellFormed(payload, padding)
  {
    match payload
    case Data(data, _, padded) => RenderPad(padded, padding) + data + padding
    case Headers(block, priority, _, _, padded) =>
      RenderPad(padded, padding)
      + (if priority.Some? then RenderPriority(priority.value) else [])
      + block + padding
    case Priority(info) => RenderPriority(info)
    case RstStream(code) => Put32(code)
    case Settings(_, _, entries) => RenderEntries(entries)
    case PushPromise(promised, block, _, padded) =>
      RenderPad(padded, padding) + Put32(WithReserved(promised, reserved)) + block + padding
    case Ping(data, _) => data
    case Goaway(last, code, debug) => Put32(WithReserved(last, reserved)) + Put32(code) + debug
    case WindowUpdate(increment) => Put32(WithReserved(increment, reserved))
    case Continuation(block, _) => block
    case AltSvc(origin, value) => Put16(|origin|) + origin + value
    case Origin(origins) => RenderOrigins(origins)
    case PriorityUpdate(id, value) => Put32(WithReserved(id, reserved)) + value
    case Unknown(_, raw, _) => raw
  }

  /** What the frame header must say for `payload` to be what the frame carries. */
  predicate Heads(h: FrameHeader, payload: Payload) {
    match payload
    case Data(_, endStream, padded) =>
      h.kind == DATA && h.streamId != 0 && EndStream(h.flags) == endStream && Padded(h.flags) == padded
    case Headers(_, priority, endStream, endHeaders, padded) =>
      && h.kind == HEADERS && h.streamId != 0 && EndStream(h.flags) == endStream
      && EndHeaders(h.flags) == endHeaders && Padded(h.flags) == padded && HasPriority(h.flags) == priority.Some?
    case Priority(_) => h.kind == PRIORITY && h.streamId != 0
    case RstStream(_) => h.kind == RST_STREAM && h.streamId != 0
    case Settings(ack, _, _) => h.kind == SETTINGS && h.streamId == 0 && Ack(h.flags) == ack
    case PushPromise(_, _, endHeaders, padded) =>
      && h.kind == PUSH_PROMISE && h.streamId != 0
      && EndHeaders(h.flags) == endHeaders && Padded(h.flags) == padded
    case Ping(_, ack) => h.kind == PING && h.streamId == 0 && Ack(h.flags) == ack
    case Goaway(_, _, _) => h.kind == GOAWAY && h.streamId == 0
    case WindowUpdate(_) => h.kind == WINDOW_UPDATE
    case Continuation(_, endHeaders) => h.kind == CONTINUATION && h.streamId != 0 && EndHeaders(h.flags) == endHeaders
    case AltSvc(_, _) => h.kind == ALTSVC
    case Origin(_) => h.kind == ORIGIN && h.streamId == 0
    case PriorityUpdate(_, _) => h.kind == PRIORITY_UPDATE && h.streamId == 0
    case Unknown(kind, _, _) =>
      h.kind == kind && !(kind <= ALTSVC || kind == ORIGIN || kind == PRIORITY_UPDATE)
  }

  function EntryCount(payload: Payload): nat {
    match payload
    case Settings(_, _, entries) => |entries|
    case Origin(origins) => |origins|
    case _ => 0
  }
}
