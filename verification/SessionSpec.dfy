/** What every step of an HTTP/2 session does, as functions on its state. A raised error carries the state
    it leaves behind. `Core` is everything but the receive buffer. */
module SessionSpec {
  import opened Wire
  import opened Frames
  import opened H2
  import Adapter
  import Decimal
  import FrameProofs
  import HttpList

  const SERVER_MAX_FRAME_SIZE := 65536
  const MAX_CAPTURE_BYTES := 2097152
  const MAX_CAPTURE_FRAMES := 4096
  const MAX_CAPTURE_ENTRIES := 1024
  const MAX_HEADER_BLOCK := 65536

  datatype Capture = Capture(
    frames: seq<ParsedFrame>,
    initialSettings: Option<seq<Entry>>,
    headers: Option<Fields>,
    trailers: Fields,
    streamId: Option<nat>,
    expectationFailed: bool)

  datatype Core = Core(
    entries: nat,
    firstFrame: bool,
    continuation: Option<nat>,
    headerBlockBytes: nat,
    idle: set<nat>,
    requestReady: bool,
    requestBytes: nat,
    expected: Option<nat>,
    cancelled: bool,
    closed: bool,
    conn: Connection,
    capture: Capture,
    written: seq<OutFrame>)

  datatype Session = Session(buffer: Bytes, captureBytes: nat, core: Core)

  const FRESH_CORE := Core(0, true, None, 0, {}, false, 0, None, false, false, H2.FRESH,
                           Capture([], None, None, [], None, false), [])

  const FRESH_SESSION := Session([], 0, FRESH_CORE)

  /** `Protocol` is a ProtocolError, `Reset` a ConnectionResetError, `Runtime` a RuntimeError. */
  datatype Raised = Quiet | Protocol(code: int) | Reset | Runtime

  datatype Step = Step(core: Core, raised: Raised)

  datatype Outcome = Outcome(session: Session, raised: Raised)

  // ---------------------------------------------------------- flush and close

  function Flush(s: Core): Core {
    s.(written := s.written + s.conn.outbound, conn := s.conn.(outbound := []))
  }

  function Close(s: Core, code: int): Core {
    if s.closed then Flush(s)
    else
      var last := if s.capture.streamId.Some? then s.capture.streamId.value else 0;
      Flush(s.(closed := true, conn := Queue(s.conn, [GoawaySent(last, code)])))
  }

  function Fail(s: Core, code: int): Step { Step(Close(s, code), Protocol(code)) }

  function Liveness(s: Core): Raised { if s.cancelled || s.closed then Reset else Quiet }

  // ------------------------------------------------------------------ fields

  /** The values of one field name, in order. */
  function ValuesOf(fields: Fields, name: Bytes): seq<Bytes> {
    if fields == [] then []
    else if fields[0].0 == name then [fields[0].1] + ValuesOf(fields[1..], name)
    else ValuesOf(fields[1..], name)
  }

  /** `dict(headers).get(name)`: the last value wins. */
  function Lookup(fields: Fields, name: Bytes): Option<Bytes> {
    var values := ValuesOf(fields, name);
    if values == [] then None else Some(values[|values| - 1])
  }

  /** `validate_fields`: the Content-Length rules, and everything else as the environment decides. */
  predicate ValidFields(env: Env, fields: Fields, trailers: bool) {
    var lengths := ValuesOf(fields, CONTENT_LENGTH);
    && (trailers ==> lengths == [])
    && Decimal.LengthsAgree(lengths)
    && env.accepts(fields, trailers)
  }

  /** The declared length, bounded; only digit strings get this far. */
  function Declared(fields: Fields): Option<nat> {
    match Lookup(fields, CONTENT_LENGTH)
    case None => None
    case Some(value) => if Decimal.AllDigits(value) then Some(Decimal.BoundedContentLength(value)) else None
  }

  function Expectations(fields: Fields): seq<Bytes> {
    match HttpList.Parse(ValuesOf(fields, Text("expect")))
    case None => [Text("invalid expectation")]
    case Some(members) => seq(|members|, i requires 0 <= i < |members| => Lower(members[i]))
  }

  predicate OnlyContinue(expectations: seq<Bytes>) {
    forall i :: 0 <= i < |expectations| ==> expectations[i] == Text("100-continue")
  }

  // ------------------------------------------------------------------- events

  predicate OverPriorityLimit(s: Core) { |s.idle| + OpenCount(s.conn) > MAX_OPEN_STREAMS }

  /** Opening a stream closes every lower idle one, prioritised or not. */
  function ForgetIdle(s: Core, id: nat): Core { s.(idle := set i | i in s.idle && i > id) }

  /** The single accepted request, after its fields have been found valid. */
  function AcceptRequest(env: Env, s: Core, id: nat, fields: Fields, ended: bool): Step {
    var t := s.(capture := s.capture.(streamId := Some(id), headers := Some(fields)),
                expected := if Declared(fields).Some? then Declared(fields) else s.expected);
    if Declared(fields).Some? && Declared(fields).value > Decimal.MAX_REQUEST_BODY then Fail(t, ENHANCE_YOUR_CALM)
    else if !OnlyContinue(Expectations(fields)) then
      Step(t.(capture := t.capture.(expectationFailed := true), requestReady := true), Quiet)
    else if Lookup(fields, Text(":method")) == Some(Text("CONNECT")) then Step(t.(requestReady := true), Quiet)
    else if Expectations(fields) != [] && !ended then
      match SendHeaders(env, t.conn, id, 100, false)
      case None => Step(t, Protocol(PROTOCOL_ERROR))
      case Some(c) => Step(t.(conn := c), Quiet)
    else Step(t, Quiet)
  }

  function OnRequest(env: Env, s: Core, id: nat, fields: Fields, ended: bool): Step {
    var t := ForgetIdle(s, id);
    if t.capture.streamId.Some? then Step(t.(conn := ResetStream(t.conn, id, REFUSED_STREAM)), Quiet)
    else if OverPriorityLimit(t) then Fail(t, PROTOCOL_ERROR)
    else if !ValidFields(env, fields, false) then Fail(t, PROTOCOL_ERROR)
    else AcceptRequest(env, t, id, fields, ended)
  }

  function OnTrailers(env: Env, s: Core, id: nat, fields: Fields): Step {
    if !ValidFields(env, fields, true) then Fail(s, PROTOCOL_ERROR)
    else if s.capture.streamId == Some(id) then Step(s.(capture := s.capture.(trailers := fields)), Quiet)
    else Step(s, Quiet)
  }

  function OnData(env: Env, s: Core, id: nat, data: Bytes, flow: nat): Step {
    var t := if s.capture.streamId == Some(id) then s.(requestBytes := s.requestBytes + |data|) else s;
    if s.capture.streamId == Some(id) && t.requestBytes > Decimal.MAX_REQUEST_BODY then Fail(t, ENHANCE_YOUR_CALM)
    else Step(t.(conn := Acknowledge(env, t.conn, flow, id)), Quiet)
  }

  function OnEnd(s: Core, id: nat): Step {
    if s.capture.streamId != Some(id) then Step(s, Quiet)
    else if s.expected.Some? && s.expected.value != s.requestBytes then Fail(s, PROTOCOL_ERROR)
    else Step(s.(requestReady := true), Quiet)
  }

  function ProcessEvent(env: Env, s: Core, e: Event): Step {
    match e
    case RequestReceived(id, fields, ended) => OnRequest(env, s, id, fields, ended)
    case TrailersReceived(id, fields) => OnTrailers(env, s, id, fields)
    case DataReceived(id, data, flow) => OnData(env, s, id, data, flow)
    case StreamEnded(id) => OnEnd(s, id)
    case StreamReset(id) => Step(if s.capture.streamId == Some(id) then s.(cancelled := true) else s, Quiet)
  }

  function ProcessEvents(env: Env, s: Core, events: seq<Event>): Step
    decreases |events|
  {
    if events == [] then Step(s, Quiet)
    else
      var r := ProcessEvent(env, s, events[0]);
      if r.raised != Quiet then r else ProcessEvents(env, r.core, events[1..])
  }

  // ------------------------------------------------------------------- frames

  function OnFirstFrame(s: Core, f: ParsedFrame): Step {
    if !s.firstFrame then Step(s, Quiet)
    else if f.header.kind != SETTINGS || Ack(f.header.flags) then Fail(s, PROTOCOL_ERROR)
    else if f.payload.Settings? then
      Step(s.(firstFrame := false, capture := s.capture.(initialSettings := Some(f.payload.entries))), Quiet)
    else Step(s.(firstFrame := false), Quiet)
  }

  function OnHeaderBlock(s: Core, f: ParsedFrame): Step {
    var h := f.header;
    if s.continuation.Some? && (h.kind != CONTINUATION || h.streamId != s.continuation.value) then Fail(s, PROTOCOL_ERROR)
    else if h.kind != HEADERS && h.kind != CONTINUATION then Step(s, Quiet)
    else
      var t := s.(headerBlockBytes := s.headerBlockBytes + h.length);
      if t.headerBlockBytes > MAX_HEADER_BLOCK then Fail(t, ENHANCE_YOUR_CALM)
      else if EndHeaders(h.flags) then Step(t.(continuation := None, headerBlockBytes := 0), Quiet)
      else Step(t.(continuation := Some(h.streamId)), Quiet)
  }

  function OnPriorityUpdate(s: Core, id: nat): Step {
    if id % 2 == 0 then Fail(s, PROTOCOL_ERROR)
    else if id <= s.conn.highest && !(id in s.conn.streams && Live(s.conn.streams[id])) then Step(s, Quiet)
    else
      var t := if id > s.conn.highest then s.(idle := s.idle + {id}) else s;
      if OverPriorityLimit(t) then Fail(t, PROTOCOL_ERROR) else Step(t, Quiet)
  }

  predicate Sane(f: ParsedFrame) {
    f.header.streamId <= MAX_STREAM_ID && (f.payload.Headers? ==> |f.payload.block| <= MAX_ALLOWED_FRAME_SIZE)
  }

  /** A parsed frame fits the fields of the frame it may be rebuilt as. */
  lemma ParsedIsSane(wire: Bytes, room: int)
    ensures var r := FrameSpec(wire, SERVER_MAX_FRAME_SIZE, false, true, Some(room)); r.Frame? ==> Sane(r.frame)
  {
    if Complete(wire, SERVER_MAX_FRAME_SIZE) {
      var h, p := HeaderOf(wire), wire[FRAME_HEADER_SIZE..FrameEnd(wire)];
      hide PayloadSpec;
      var r := PayloadSpec(h, p, false, Some(room));
      if r.Parsed? && r.payload.Headers? { FrameProofs.HeadersOnly(h, p, Some(room)); }
    }
  }

  /** HEADERS with the priority flag reach h2 without their priority and padding envelope. */
  function Forwarded(f: ParsedFrame): ParsedFrame
    requires Sane(f)
  {
    if f.header.kind == HEADERS && HasPriority(f.header.flags) && f.payload.Headers? then
      var x := f.payload;
      var flags := HeaderFlags(x.endStream, x.endHeaders);
      ParsedFrame(FrameHeader(|x.block|, HEADERS, flags, f.header.streamId),
                  Headers(x.block, None, x.endStream, x.endHeaders, false),
                  FrameBytes(HEADERS, flags, f.header.streamId, x.block))
    else f
  }

  /** h2 has queued its own GOAWAY; an error raised by the event handling has sent one already. */
  function AfterProtocolError(s: Core, code: int): Step {
    if !s.closed && s.conn.outbound != [] then Step(Flush(s).(closed := true), Protocol(code))
    else Step(s, Protocol(code))
  }

  function Forward(env: Env, s: Core, f: ParsedFrame): Step
    requires Sane(f)
  {
    var r := if f.header.kind == SETTINGS && f.payload.Settings? && !f.payload.ack
             then Adapter.ApplySettings(s.conn, f.payload.entries)
             else ReceiveFrame(env, s.conn, s.capture.frames, Forwarded(f));
    match r
    case Broken(c) => Step(s.(conn := c), Runtime)
    case Refused(c, code) => AfterProtocolError(s.(conn := c), code)
    case Received(c, events) =>
      var t := ProcessEvents(env, s.(conn := c), events);
      match t.raised
      case Quiet => Step(Flush(t.core), Quiet)
      case Protocol(code) => AfterProtocolError(t.core, code)
      case _ => t
  }

  predicate IdleReset(s: Core, f: ParsedFrame) {
    f.header.kind == RST_STREAM && f.header.streamId > if f.header.streamId % 2 == 1 then s.conn.highest else 0
  }

  function Dispatch(env: Env, s: Core, f: ParsedFrame): Step
    requires Sane(f)
  {
    var kind := f.header.kind;
    if kind == ALTSVC || kind == ORIGIN then Step(s, Quiet)
    else if f.payload.Unknown? && f.payload.parseError.Some? then Fail(s, f.payload.parseError.value)
    else if kind == PUSH_PROMISE then Fail(s, PROTOCOL_ERROR)
    else if IdleReset(s, f) then Fail(s, PROTOCOL_ERROR)
    else if kind == PRIORITY then Step(s, Quiet)
    else if f.payload.PriorityUpdate? then OnPriorityUpdate(s, f.payload.prioritized)
    else if f.payload.Goaway? then Step(if f.payload.errorCode != NO_ERROR then s.(cancelled := true) else s, Quiet)
    else Forward(env, s, f)
  }

  function ProcessFrame(env: Env, s: Core, f: ParsedFrame): Step
    requires Sane(f)
  {
    var a := OnFirstFrame(s, f);
    if a.raised != Quiet then a else
    var b := OnHeaderBlock(a.core, f);
    if b.raised != Quiet then b else
    Dispatch(env, b.core, f)
  }

  /** One complete frame off the wire: parse, count, capture, process. */
  function TakeFrame(env: Env, s: Core, wire: Bytes): Step {
    match FrameSpec(wire, SERVER_MAX_FRAME_SIZE, false, true, Some(MAX_CAPTURE_ENTRIES - s.entries))
    case Rejected(code, _) => Fail(s, code)
    case Frame(frame, used) =>
      ParsedIsSane(wire, MAX_CAPTURE_ENTRIES - s.entries);
      var t := s.(entries := s.entries + used);
      if |t.capture.frames| >= MAX_CAPTURE_FRAMES then Fail(t, ENHANCE_YOUR_CALM)
      else ProcessFrame(env, t.(capture := t.capture.(frames := t.capture.frames + [frame])), frame)
  }

  // ------------------------------------------------------------------- chunks

  /** Cuts as many frames off the buffer as it holds. */
  function Drain(env: Env, s: Session): (r: Outcome)
    ensures r.session.captureBytes == s.captureBytes
    decreases |s.buffer|
  {
    if |s.buffer| < FRAME_HEADER_SIZE then Outcome(s, Quiet)
    else if U24(s.buffer[..3]) > SERVER_MAX_FRAME_SIZE then
      Outcome(s.(core := Close(s.core, FRAME_SIZE_ERROR)), Protocol(FRAME_SIZE_ERROR))
    else if |s.buffer| < FrameEnd(s.buffer) then Outcome(s, Quiet)
    else
      var stop := FrameEnd(s.buffer);
      var r := TakeFrame(env, s.core, s.buffer[..stop]);
      var t := s.(buffer := s.buffer[stop..], core := r.core);
      if r.raised != Quiet then Outcome(t, r.raised) else Drain(env, t)
  }

  function Receive(env: Env, s: Session, data: Bytes): (r: Outcome)
    ensures r.raised.Quiet? ==> data != [] && r.session.captureBytes == s.captureBytes + |data| <= MAX_CAPTURE_BYTES
  {
    if data == [] then Outcome(s, Reset)
    else
      var t := s.(captureBytes := s.captureBytes + |data|);
      if t.captureBytes > MAX_CAPTURE_BYTES then
        Outcome(t.(core := Close(t.core, ENHANCE_YOUR_CALM)), Protocol(ENHANCE_YOUR_CALM))
      else
        var r := Drain(env, t.(buffer := t.buffer + data));
        if r.raised != Quiet then r
        else
          var flushed := Flush(r.session.core);
          Outcome(r.session.(core := flushed), Liveness(flushed))
  }

  /** Chunks one after the other, up to the first error. */
  function ReceiveAll(env: Env, s: Session, chunks: seq<Bytes>): Outcome {
    if chunks == [] then Outcome(s, Quiet)
    else
      var r := ReceiveAll(env, s, chunks[..|chunks| - 1]);
      if r.raised != Quiet then r else Receive(env, r.session, chunks[|chunks| - 1])
  }

  function Initialize(env: Env, s: Session, incoming: Bytes): Outcome {
    var started := Flush(s.core.(conn := Queue(s.core.conn, [SettingsSent])));
    var t := s.(core := started);
    if !(PREFACE <= incoming) then Outcome(t.(core := Close(started, PROTOCOL_ERROR)), Protocol(PROTOCOL_ERROR))
    else if |incoming| == |PREFACE| then Outcome(t, Quiet)
    else Receive(env, t, incoming[|PREFACE|..])
  }

  const PREFACE: Bytes := Text("PRI * HTTP/2.0\r\n\r\nSM\r\n\r\n")

  // ---------------------------------------------------------------- responses

  /** `peer(n)` is the n-th chunk the transport would deliver; an empty one is the end of the stream. */
  type Peer = nat -> Bytes

  function Budget(s: Session): nat {
    if s.captureBytes <= MAX_CAPTURE_BYTES then MAX_CAPTURE_BYTES - s.captureBytes else 0
  }

  datatype Sent = Sent(session: Session, raised: Raised, taken: nat)

  /** Reads until the request is ready. */
  function ReadRequest(env: Env, s: Session, peer: Peer, taken: nat): Sent
    decreases Budget(s)
  {
    if s.core.requestReady then Sent(s, Liveness(s.core), taken)
    else
      var r := Receive(env, s, peer(taken));
      if r.raised != Quiet then Sent(r.session, r.raised, taken + 1) else ReadRequest(env, r.session, peer, taken + 1)
  }

  /** The response body from `offset` on: send what the windows allow, otherwise receive. */
  function SendBody(env: Env, s: Session, id: nat, body: Bytes, offset: nat, peer: Peer, taken: nat): Sent
    requires offset <= |body|
    decreases Budget(s) + (|body| - offset)
  {
    if offset == |body| then Sent(s, Quiet, taken)
    else if Liveness(s.core) != Quiet then Sent(s, Liveness(s.core), taken)
    else if id !in s.core.conn.streams then Sent(s, Protocol(PROTOCOL_ERROR), taken)
    else
      var room := SendRoom(s.core.conn, id);
      if room <= 0 then
        var r := Receive(env, s, peer(taken));
        if r.raised != Quiet then Sent(r.session, r.raised, taken + 1)
        else SendBody(env, r.session, id, body, offset, peer, taken + 1)
      else
        var stop := if offset + room < |body| then offset + room else |body|;
        match SendData(s.core.conn, id, body[offset..stop], stop == |body|)
        case None => Sent(s, Protocol(PROTOCOL_ERROR), taken)
        case Some(c) =>
          SendBody(env, s.(core := Flush(s.core.(conn := c))), id, body, stop, peer, taken)
  }

  function ResponseBody(content: Bytes, status: nat): Bytes {
    if status == 204 || status == 304 || 100 <= status < 200 then [] else content
  }

  function SendResponse(env: Env, s: Session, content: Bytes, status: nat, peer: Peer, taken: nat): Sent {
    var body := ResponseBody(content, status);
    if Liveness(s.core) != Quiet then Sent(s, Liveness(s.core), taken)
    else if s.core.capture.streamId.None? || !s.core.requestReady then Sent(s, Runtime, taken)
    else
      var id := s.core.capture.streamId.value;
      match SendHeaders(env, s.core.conn, id, status, body == [])
      case None => Sent(s, Protocol(PROTOCOL_ERROR), taken)
      case Some(c) => SendBody(env, s.(core := Flush(s.core.(conn := c))), id, body, 0, peer, taken)
  }
}
