/** A stand-in for the h2 library: the operations the session uses, over sections 5.1, 6.5, 6.8 and 6.9
    of RFC 9113. Whatever h2 decides beyond that is an oracle, and every result holds for all oracles. */
module H2 {
  import opened Wire
  import opened Frames
  import Hpack

  const MAX_WINDOW := 0x7FFF_FFFF
  const MAX_OPEN_STREAMS := 100
  const CONTINUATION_BACKLOG := 64
  const MAX_DECODED_HEADER_BYTES := 1048576
  const MAX_HEADER_TABLE_SIZE_CHANGES := 128

  type Fields = seq<(Bytes, Bytes)>

  datatype Phase = Open | HalfClosedRemote | HalfClosedLocal | ClosedByEnd | ClosedByReset

  datatype Stream = Stream(phase: Phase, window: int)

  predicate Live(s: Stream) { s.phase.Open? || s.phase.HalfClosedRemote? || s.phase.HalfClosedLocal? }

  /** What leaves the server. `updates` are the dynamic table size updates in front of a block, `literals`
      the fields it adds to the table. */
  datatype OutFrame =
    | SettingsSent
    | SettingsAck
    | HeadersSent(stream: nat, status: nat, updates: seq<nat>, literals: seq<Hpack.Field>, endStream: bool)
    | DataSent(stream: nat, data: Bytes, endStream: bool)
    | ResetSent(stream: nat, code: int)
    | PingAck(data: Bytes)
    | GoawaySent(last: nat, code: int)
    | CreditSent(stream: nat, increment: nat)

  datatype Event =
    | RequestReceived(stream: nat, fields: Fields, ended: bool)
    | TrailersReceived(stream: nat, fields: Fields)
    | DataReceived(stream: nat, data: Bytes, flow: nat)
    | StreamEnded(stream: nat)
    | StreamReset(stream: nat)

  /** A header block collected over CONTINUATION frames. */
  datatype Pending = Pending(stream: nat, endStream: bool, block: Bytes, frames: nat)

  datatype Connection = Connection(
    highest: nat,                   // highest inbound stream identifier
    streams: map<nat, Stream>,      // every stream ever opened
    remote: map<nat, nat>,          // the client's settings
    window: int,                    // connection send window
    pending: Option<Pending>,
    decoded: seq<Bytes>,            // header blocks so far: HPACK state is a function of them
    decodedBytes: nat,
    credits: seq<(nat, nat)>,       // acknowledged DATA so far
    encoder: Hpack.Encoder,
    tableChanges: nat,
    outbound: seq<OutFrame>)

  const FRESH := Connection(0, map[],
                            map[HEADER_TABLE_SIZE := 4096, ENABLE_PUSH := 1, INITIAL_WINDOW_SIZE := 65535,
                                MAX_FRAME_SIZE := 16384, ENABLE_CONNECT_PROTOCOL := 0],
                            65535, None, [], 0, [], Hpack.FRESH.encoder, 0, [])

  datatype Decoding = Decoded(fields: Fields) | Oversized | Corrupt

  /** The parts of h2, hpack and the field rules that are not modelled.
      `refuses` may make h2 reject any frame, with any code, on any ground: it sees the connection and every
      frame captured so far. */
  datatype Env = Env(
    decode: (seq<Bytes>, Bytes) -> Decoding,
    refuses: (Connection, seq<ParsedFrame>, ParsedFrame) -> Option<int>,
    replenish: (seq<(nat, nat)>, nat, nat) -> seq<(nat, nat)>,
    indexed: (Hpack.Encoder, nat) -> seq<Hpack.Field>,
    accepts: (Fields, bool) -> bool)

  datatype Received =
    | Received(c: Connection, events: seq<Event>)
    | Refused(c: Connection, code: int)   // a ProtocolError, with its GOAWAY queued
    | Broken(c: Connection)               // a RuntimeError

  function Queue(c: Connection, frames: seq<OutFrame>): Connection {
    c.(outbound := c.outbound + frames)
  }

  function Terminate(c: Connection, code: int): Received {
    Refused(Queue(c, [GoawaySent(c.highest, code)]), code)
  }

  function OpenStreams(c: Connection): set<nat> {
    set id | id in c.streams && Live(c.streams[id])
  }

  function OpenCount(c: Connection): nat { |OpenStreams(c)| }

  /** A setting of the client; h2 holds a value for every one it is asked for. */
  function Setting(c: Connection, id: nat): nat { if id in c.remote then c.remote[id] else 0 }

  /** What every connection keeps about the client's settings. */
  predicate Settled(c: Connection) {
    && HEADER_TABLE_SIZE in c.remote && INITIAL_WINDOW_SIZE in c.remote && MAX_FRAME_SIZE in c.remote
    && c.encoder.maxSize == c.remote[HEADER_TABLE_SIZE]
    && c.remote[MAX_FRAME_SIZE] > 0
  }

  // ------------------------------------------------------- SETTINGS, in h2's way

  predicate Supported(id: nat) { 1 <= id <= 6 || id == ENABLE_CONNECT_PROTOCOL }

  function InvalidSetting(e: Entry): Option<int> {
    if e.0 == ENABLE_CONNECT_PROTOCOL && e.1 > 1 then Some(PROTOCOL_ERROR) else BadSetting(e)
  }

  function FirstInvalid(entries: seq<Entry>): Option<int> {
    if entries == [] then None
    else if InvalidSetting(entries[0]).Some? then InvalidSetting(entries[0])
    else FirstInvalid(entries[1..])
  }

  /** Section 6.9.2: a new initial window moves every live stream window by the difference. */
  predicate Overflows(c: Connection, value: nat) {
    exists id :: id in c.streams && Live(c.streams[id])
                 && c.streams[id].window + value - Setting(c, INITIAL_WINDOW_SIZE) > MAX_WINDOW
  }

  function Shift(streams: map<nat, Stream>, delta: int): map<nat, Stream> {
    map id | id in streams ::
      if Live(streams[id]) then streams[id].(window := streams[id].window + delta) else streams[id]
  }

  /** One SETTINGS frame as h2 takes it: a dictionary, validated, then applied, then acknowledged. */
  function ReceiveSettings(c: Connection, entries: seq<Entry>): Received {
    var values := Effective(entries);
    if FirstInvalid(entries).Some? then Terminate(c, FirstInvalid(entries).value)
    else if INITIAL_WINDOW_SIZE in values && Overflows(c, values[INITIAL_WINDOW_SIZE])
      then Terminate(c, FLOW_CONTROL_ERROR)
    else
      var delta: int := if INITIAL_WINDOW_SIZE in values
                   then (values[INITIAL_WINDOW_SIZE] as int) - Setting(c, INITIAL_WINDOW_SIZE) else 0;
      var encoder := if HEADER_TABLE_SIZE in values
                     then Hpack.Resize(c.encoder, values[HEADER_TABLE_SIZE]) else c.encoder;
      var applied := c.(remote := c.remote + values, streams := Shift(c.streams, delta), encoder := encoder);
      Received(Queue(applied, [SettingsAck]), [])
  }

  // ------------------------------------------------------------ header blocks

  function FieldBytes(fields: Fields): nat {
    if fields == [] then 0
    else |fields[0].0| + |fields[0].1| + 32 + FieldBytes(fields[1..])
  }

  /** The budget on decoded fields, over all blocks of a connection. */
  predicate OverBudget(before: nat, fields: Fields) { before + FieldBytes(fields) > MAX_DECODED_HEADER_BYTES }

  function SetPhase(c: Connection, id: nat, phase: Phase): Connection
    requires id in c.streams
  {
    c.(streams := c.streams[id := c.streams[id].(phase := phase)])
  }

  /** A frame on a stream that was reset is answered with RST_STREAM; on one that ended, it is fatal. */
  function OnClosed(c: Connection, id: nat): Received
    requires id in c.streams
  {
    if c.streams[id].phase.ClosedByReset? then Received(Queue(c, [ResetSent(id, STREAM_CLOSED)]), [])
    else Terminate(c, STREAM_CLOSED)
  }

  /** DATA or HEADERS after END_STREAM: h2 resets the stream and reports it. */
  function OnHalfClosed(c: Connection, id: nat): Received
    requires id in c.streams
  {
    Received(Queue(SetPhase(c, id, ClosedByReset), [ResetSent(id, STREAM_CLOSED)]), [StreamReset(id)])
  }

  function AfterEnd(c: Connection, id: nat): Connection
    requires id in c.streams
  {
    SetPhase(c, id, if c.streams[id].phase.HalfClosedLocal? then ClosedByEnd else HalfClosedRemote)
  }

  function OpenStream(c: Connection, id: nat, fields: Fields, endStream: bool): Received
  {
    var phase := if endStream then HalfClosedRemote else Open;
    Received(c.(highest := id, streams := c.streams[id := Stream(phase, Setting(c, INITIAL_WINDOW_SIZE))]),
             [RequestReceived(id, fields, endStream)] + if endStream then [StreamEnded(id)] else [])
  }

  /** A decoded block: trailers, a new request, or a block on a stream that cannot take one. */
  function OnFields(c: Connection, id: nat, fields: Fields, endStream: bool): Received {
    if id in c.streams then
      if c.streams[id].phase.HalfClosedRemote? then OnHalfClosed(c, id)
      else if !Live(c.streams[id]) then OnClosed(c, id)
      else if !endStream then Terminate(c, PROTOCOL_ERROR)
      else Received(AfterEnd(c, id), [TrailersReceived(id, fields), StreamEnded(id)])
    else if id % 2 == 0 || id <= c.highest then Terminate(c, PROTOCOL_ERROR)
    else OpenStream(c, id, fields, endStream)
  }

  function HeaderBlock(env: Env, c: Connection, id: nat, endStream: bool, block: Bytes): Received {
    if id !in c.streams && OpenCount(c) + 1 > MAX_OPEN_STREAMS then Terminate(c, PROTOCOL_ERROR)
    else
      match env.decode(c.decoded, block)
      case Corrupt => Terminate(c, COMPRESSION_ERROR)
      case Oversized => Terminate(c, ENHANCE_YOUR_CALM)
      case Decoded(fields) =>
        var d := c.(decoded := c.decoded + [block], decodedBytes := c.decodedBytes + FieldBytes(fields));
        if OverBudget(c.decodedBytes, fields) then Terminate(d, ENHANCE_YOUR_CALM)
        else OnFields(d, id, fields, endStream)
  }

  // ----------------------------------------------------------------- one frame

  function ReceiveData(c: Connection, id: nat, data: Bytes, flow: nat, endStream: bool): Received {
    if id !in c.streams then Terminate(c, PROTOCOL_ERROR)
    else if c.streams[id].phase.HalfClosedRemote? then OnHalfClosed(c, id)
    else if !Live(c.streams[id]) then OnClosed(c, id)
    else if endStream then Received(AfterEnd(c, id), [DataReceived(id, data, flow), StreamEnded(id)])
    else Received(c, [DataReceived(id, data, flow)])
  }

  function ReceiveReset(c: Connection, id: nat): Received {
    if id in c.streams && Live(c.streams[id])
    then Received(SetPhase(c, id, ClosedByReset), [StreamReset(id)])
    else Received(c, [])
  }

  function ReceiveCredit(c: Connection, id: nat, increment: nat): Received {
    if id == 0 then
      if c.window + increment > MAX_WINDOW then Terminate(c, FLOW_CONTROL_ERROR)
      else Received(c.(window := c.window + increment), [])
    else if id !in c.streams then
      if id > c.highest then Terminate(c, PROTOCOL_ERROR) else Received(c, [])
    else if !Live(c.streams[id]) then Received(c, [])
    else
      var s := c.streams[id];
      if s.window + increment > MAX_WINDOW
      then Received(Queue(SetPhase(c, id, ClosedByReset), [ResetSent(id, FLOW_CONTROL_ERROR)]), [StreamReset(id)])
      else Received(c.(streams := c.streams[id := s.(window := s.window + increment)]), [])
  }

  function ReceiveContinuation(env: Env, c: Connection, block: Bytes, endHeaders: bool): Received
  {
    match c.pending
    case None => Terminate(c, PROTOCOL_ERROR)
    case Some(p) =>
      if p.frames + 1 > CONTINUATION_BACKLOG then Terminate(c, PROTOCOL_ERROR)
      else if !endHeaders then Received(c.(pending := Some(p.(block := p.block + block, frames := p.frames + 1))), [])
      else HeaderBlock(env, c.(pending := None), p.stream, p.endStream, p.block + block)
  }

  /** `receive_data` on exactly one frame, after the captured `frames`. Types the session never forwards are
      ignored here. */
  function ReceiveFrame(env: Env, c: Connection, frames: seq<ParsedFrame>, f: ParsedFrame): Received
  {
    var id := f.header.streamId;
    if env.refuses(c, frames, f).Some? then Terminate(c, env.refuses(c, frames, f).value)
    else
      match f.payload
      case Continuation(block, endHeaders) => ReceiveContinuation(env, c, block, endHeaders)
      case Headers(block, _, endStream, endHeaders, _) =>
        if c.pending.Some? then Terminate(c, PROTOCOL_ERROR)
        else if endHeaders then HeaderBlock(env, c, id, endStream, block)
        else Received(c.(pending := Some(Pending(id, endStream, block, 1))), [])
      case Data(data, endStream, _) => ReceiveData(c, id, data, f.header.length, endStream)
      case RstStream(_) => ReceiveReset(c, id)
      case WindowUpdate(increment) => ReceiveCredit(c, id, increment)
      case Ping(data, ack) => Received(if ack then c else Queue(c, [PingAck(data)]), [])
      case _ => Received(c, [])
  }

  // ------------------------------------------------------------- what is sent

  /** Informational and final response heads; None is the ProtocolError for a stream that cannot send. */
  function SendHeaders(env: Env, c: Connection, id: nat, status: nat, endStream: bool): Option<Connection> {
    if id !in c.streams || !(c.streams[id].phase.Open? || c.streams[id].phase.HalfClosedRemote?) then None
    else if 100 <= status < 200 && endStream then None
    else
      var sent := Queue(c.(encoder := Hpack.Encoded(c.encoder, env.indexed(c.encoder, status))),
                        [Head(env, c, id, status, endStream)]);
      Some(if endStream then AfterSend(sent, id) else sent)
  }

  /** A response head as it leaves: its table updates first, then its block. */
  function Head(env: Env, c: Connection, id: nat, status: nat, endStream: bool): OutFrame {
    HeadersSent(id, status, Hpack.Updates(c.encoder), env.indexed(c.encoder, status), endStream)
  }

  function AfterSend(c: Connection, id: nat): Connection
    requires id in c.streams
  {
    SetPhase(c, id, if c.streams[id].phase.HalfClosedRemote? then ClosedByEnd else HalfClosedLocal)
  }

  /** Section 6.9: a sender is bound by the stream window, the connection window and the frame size. */
  function SendRoom(c: Connection, id: nat): int
    requires id in c.streams
  {
    var window := if c.streams[id].window < c.window then c.streams[id].window else c.window;
    if window < Setting(c, MAX_FRAME_SIZE) then window else Setting(c, MAX_FRAME_SIZE)
  }

  function SendData(c: Connection, id: nat, data: Bytes, endStream: bool): Option<Connection> {
    if id !in c.streams || !(c.streams[id].phase.Open? || c.streams[id].phase.HalfClosedRemote?) then None
    else if |data| > SendRoom(c, id) then None
    else
      var s := c.streams[id];
      var sent := c.(window := c.window - |data|, streams := c.streams[id := s.(window := s.window - |data|)]);
      var queued := Queue(sent, [DataSent(id, data, endStream)]);
      Some(if endStream then AfterSend(queued, id) else queued)
  }

  function ResetStream(c: Connection, id: nat, code: int): Connection {
    if id in c.streams then Queue(SetPhase(c, id, ClosedByReset), [ResetSent(id, code)]) else c
  }

  function Credits(updates: seq<(nat, nat)>): seq<OutFrame> {
    seq(|updates|, i requires 0 <= i < |updates| => CreditSent(updates[i].0, updates[i].1))
  }

  function Acknowledge(env: Env, c: Connection, flow: nat, id: nat): Connection {
    Queue(c.(credits := c.credits + [(flow, id)]), Credits(env.replenish(c.credits, flow, id)))
  }
}
