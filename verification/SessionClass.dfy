/** The session as the program writes it: an object whose methods update its fields, each method
    proved to do what the step functions of `SessionSpec` say. */
module Sessions {
  import opened Wire
  import opened Frames
  import opened H2
  import opened FrameReaders
  import Spec = SessionSpec
  import Adapter
  import Decimal
  import opened SessionInvariant
  import opened FlowControl
  import opened SessionTheorems
  import opened SessionLife

  type Raised = Spec.Raised

  class Http2Session {
    var buffer: Bytes
    var captureBytes: nat
    var captureEntries: nat
    var firstFrame: bool
    var continuationStream: Option<nat>
    var headerBlockBytes: nat
    var prioritizedIdle: set<nat>
    var requestReady: bool
    var requestBytes: nat
    var expectedLength: Option<nat>
    var cancelled: bool
    var initialized: bool
    var closed: bool
    var connection: Connection
    var capture: Spec.Capture
    var written: seq<OutFrame>

    constructor ()
      ensures View() == Spec.FRESH_SESSION && !initialized
    {
      buffer, captureBytes, captureEntries, firstFrame := [], 0, 0, true;
      continuationStream, headerBlockBytes, prioritizedIdle := None, 0, {};
      requestReady, requestBytes, expectedLength, cancelled, initialized, closed := false, 0, None, false, false, false;
      connection, capture, written := H2.FRESH, Spec.FRESH_CORE.capture, [];
    }

    function CoreView(): Spec.Core
      reads this
    {
      Spec.Core(captureEntries, firstFrame, continuationStream, headerBlockBytes, prioritizedIdle, requestReady,
                requestBytes, expectedLength, cancelled, closed, connection, capture, written)
    }

    function View(): Spec.Session
      reads this
    {
      Spec.Session(buffer, captureBytes, CoreView())
    }

    // ------------------------------------------------------- output and failure

    method Flush()
      modifies this
      ensures View() == old(View()).(core := Spec.Flush(old(CoreView()))) && initialized == old(initialized)
    {
      var data := connection.outbound;
      connection := connection.(outbound := []);
      if data != [] {
        written := written + data;
      } else {
        assert written + data == written;
      }
    }

    /** The first close says GOAWAY and no later one does: a session in order has then said it once, with this
        code, and one that had said it before stays with what it said. Nothing is left unsent. */
    method Close(code: int)
      modifies this
      ensures View() == old(View()).(core := Spec.Close(old(CoreView()), code)) && initialized == old(initialized)
      ensures closed && connection.outbound == []
      ensures old(Good(CoreView())) ==> Ended(CoreView(), code) && Parting(CoreView(), written, code)
      ensures forall said: int :: old(Ended(CoreView(), said)) ==> Ended(CoreView(), said)
    {
      ghost var before := CoreView();
      CloseOutcome(before, code);
      hide Good, Ended, Parting;
      if !closed {
        var last := if capture.streamId.Some? then capture.streamId.value else 0;
        connection := Queue(connection, [GoawaySent(last, code)]);
        closed := true;
      }
      Flush();
    }

    method Fail(code: int) returns (raised: Raised)
      modifies this
      ensures Spec.Step(CoreView(), raised) == Spec.Fail(old(CoreView()), code)
      ensures buffer == old(buffer) && captureBytes == old(captureBytes) && initialized == old(initialized)
    {
      Close(code);
      raised := Spec.Protocol(code);
    }

    method CheckCancelled() returns (raised: Raised)
      ensures raised == Spec.Liveness(CoreView())
    {
      if cancelled || closed {
        return Spec.Reset;
      }
      return Spec.Quiet;
    }

    method CheckPriorityLimit() returns (raised: Raised)
      modifies this
      ensures Spec.Step(CoreView(), raised) ==
              if Spec.OverPriorityLimit(old(CoreView())) then Spec.Fail(old(CoreView()), PROTOCOL_ERROR)
              else Spec.Step(old(CoreView()), Spec.Quiet)
      ensures buffer == old(buffer) && captureBytes == old(captureBytes) && initialized == old(initialized)
    {
      if |prioritizedIdle| + OpenCount(connection) > MAX_OPEN_STREAMS {
        raised := Fail(PROTOCOL_ERROR);
      } else {
        raised := Spec.Quiet;
      }
    }

    // --------------------------------------------------------------- one event

    /** The rest of RequestReceived, once the fields are known to be valid. */
    method AcceptRequest(env: Env, id: nat, fields: Fields, ended: bool) returns (raised: Raised)
      modifies this
      ensures Spec.Step(CoreView(), raised) == Spec.AcceptRequest(env, old(CoreView()), id, fields, ended)
      ensures buffer == old(buffer) && captureBytes == old(captureBytes) && initialized == old(initialized)
    {
      hide Spec.Declared, Spec.Expectations, Spec.OnlyContinue, Spec.Lookup, SendHeaders, Text;
      capture := capture.(streamId := Some(id), headers := Some(fields));
      var declared := Spec.Declared(fields);
      if declared.Some? {
        expectedLength := declared;
        if declared.value > Decimal.MAX_REQUEST_BODY {
          raised := Fail(ENHANCE_YOUR_CALM);
          return;
        }
      }
      var expectations := Spec.Expectations(fields);
      if !Spec.OnlyContinue(expectations) {
        capture := capture.(expectationFailed := true);
        requestReady := true;
      } else if Spec.Lookup(fields, Text(":method")) == Some(Text("CONNECT")) {
        requestReady := true;
      } else if expectations != [] && !ended {
        var sent := SendHeaders(env, connection, id, 100, false);
        if sent.None? {
          return Spec.Protocol(PROTOCOL_ERROR);
        }
        connection := sent.value;
      }
      return Spec.Quiet;
    }

    method OnRequest(env: Env, id: nat, fields: Fields, ended: bool) returns (raised: Raised)
      modifies this
      ensures Spec.Step(CoreView(), raised) == Spec.OnRequest(env, old(CoreView()), id, fields, ended)
      ensures buffer == old(buffer) && captureBytes == old(captureBytes) && initialized == old(initialized)
    {
      hide Spec.AcceptRequest, Spec.ValidFields, ResetStream;
      prioritizedIdle := set i | i in prioritizedIdle && i > id;
      if capture.streamId.Some? {
        connection := ResetStream(connection, id, REFUSED_STREAM);
        return Spec.Quiet;
      }
      raised := CheckPriorityLimit();
      if raised != Spec.Quiet {
        return;
      }
      if !Spec.ValidFields(env, fields, false) {
        raised := Fail(PROTOCOL_ERROR);
        return;
      }
      raised := AcceptRequest(env, id, fields, ended);
    }

    method ProcessEvent(env: Env, event: Event) returns (raised: Raised)
      modifies this
      ensures Spec.Step(CoreView(), raised) == Spec.ProcessEvent(env, old(CoreView()), event)
      ensures buffer == old(buffer) && captureBytes == old(captureBytes) && initialized == old(initialized)
    {
      hide Spec.OnRequest, Spec.ValidFields, Acknowledge;
      raised := Spec.Quiet;
      match event
      case RequestReceived(id, fields, ended) =>
        raised := OnRequest(env, id, fields, ended);
      case TrailersReceived(id, fields) =>
        if !Spec.ValidFields(env, fields, true) {
          raised := Fail(PROTOCOL_ERROR);
          return;
        }
        if capture.streamId == Some(id) {
          capture := capture.(trailers := fields);
        }
      case DataReceived(id, data, flow) =>
        if capture.streamId == Some(id) {
          requestBytes := requestBytes + |data|;
          if requestBytes > Decimal.MAX_REQUEST_BODY {
            raised := Fail(ENHANCE_YOUR_CALM);
            return;
          }
        }
        connection := Acknowledge(env, connection, flow, id);
      case StreamEnded(id) =>
        if capture.streamId == Some(id) {
          if expectedLength.Some? && expectedLength.value != requestBytes {
            raised := Fail(PROTOCOL_ERROR);
            return;
          }
          requestReady := true;
        }
      case StreamReset(id) =>
        if capture.streamId == Some(id) {
          cancelled := true;
        }
    }

    method ProcessEvents(env: Env, events: seq<Event>) returns (raised: Raised)
      modifies this
      ensures Spec.Step(CoreView(), raised) == Spec.ProcessEvents(env, old(CoreView()), events)
      ensures buffer == old(buffer) && captureBytes == old(captureBytes) && initialized == old(initialized)
    {
      hide Spec.ProcessEvent;
      raised := Spec.Quiet;
      assert events[0..] == events;
      for k := 0 to |events|
        invariant raised == Spec.Quiet
        invariant Spec.ProcessEvents(env, CoreView(), events[k..]) == Spec.ProcessEvents(env, old(CoreView()), events)
        invariant buffer == old(buffer) && captureBytes == old(captureBytes) && initialized == old(initialized)
      {
        assert events[k..][0] == events[k] && events[k..][1..] == events[k + 1..];
        raised := ProcessEvent(env, events[k]);
        if raised != Spec.Quiet {
          return;
        }
      }
    }

    // --------------------------------------------------------------- one frame

    /** HEADERS with the priority flag are rebuilt without their priority and padding; every other frame is
        handed on as it came. */
    method StripEnvelope(frame: ParsedFrame) returns (handed: ParsedFrame)
      requires Spec.Sane(frame)
      ensures handed == Spec.Forwarded(frame)
    {
      if frame.header.kind != HEADERS || !HasPriority(frame.header.flags) || !frame.payload.Headers? {
        return frame;
      }
      var x, id := frame.payload, frame.header.streamId;
      var wire := BuildHeadersFrame(id, x.block, x.endStream, x.endHeaders);
      var header := FrameHeader(|x.block|, HEADERS, HeaderFlags(x.endStream, x.endHeaders), id);
      return ParsedFrame(header, Headers(x.block, None, x.endStream, x.endHeaders, false), wire.value);
    }

    /** Hands a frame to h2, handles what comes back, and flushes. */
    method Forward(env: Env, frame: ParsedFrame) returns (raised: Raised)
      requires Spec.Sane(frame)
      modifies this
      ensures Spec.Step(CoreView(), raised) == Spec.Forward(env, old(CoreView()), frame)
      ensures buffer == old(buffer) && captureBytes == old(captureBytes) && initialized == old(initialized)
    {
      hide Spec.ProcessEvents, ReceiveFrame, Adapter.ApplySettings;
      var handed := StripEnvelope(frame);
      hide Spec.Forwarded, Spec.Sane;
      var answer: Received;
      if frame.header.kind == SETTINGS && frame.payload.Settings? && !frame.payload.ack {
        answer := Adapter.ApplySettingsInOrder(connection, frame.payload.entries);
      } else {
        answer := ReceiveFrame(env, connection, capture.frames, handed);
      }
      connection := answer.c;
      match answer {
        case Broken(_) => return Spec.Runtime;
        case Refused(_, code) => raised := Spec.Protocol(code);
        case Received(_, events) => raised := ProcessEvents(env, events);
      }
      if raised.Quiet? {
        Flush();
      } else if raised.Protocol? && !closed && connection.outbound != [] {
        Flush();
        closed := true;
      }
    }

    method CheckFirstFrame(frame: ParsedFrame) returns (raised: Raised)
      modifies this
      ensures Spec.Step(CoreView(), raised) == Spec.OnFirstFrame(old(CoreView()), frame)
      ensures buffer == old(buffer) && captureBytes == old(captureBytes) && initialized == old(initialized)
    {
      if firstFrame {
        if frame.header.kind != SETTINGS || Ack(frame.header.flags) {
          raised := Fail(PROTOCOL_ERROR);
          return;
        }
        firstFrame := false;
        if frame.payload.Settings? {
          capture := capture.(initialSettings := Some(frame.payload.entries));
        }
      }
      return Spec.Quiet;
    }

    method CheckHeaderBlock(h: FrameHeader, ghost frame: ParsedFrame) returns (raised: Raised)
      requires h == frame.header
      modifies this
      ensures Spec.Step(CoreView(), raised) == Spec.OnHeaderBlock(old(CoreView()), frame)
      ensures buffer == old(buffer) && captureBytes == old(captureBytes) && initialized == old(initialized)
    {
      if continuationStream.Some? && (h.kind != CONTINUATION || h.streamId != continuationStream.value) {
        raised := Fail(PROTOCOL_ERROR);
        return;
      }
      if h.kind == HEADERS || h.kind == CONTINUATION {
        headerBlockBytes := headerBlockBytes + h.length;
        if headerBlockBytes > Spec.MAX_HEADER_BLOCK {
          raised := Fail(ENHANCE_YOUR_CALM);
          return;
        }
        if EndHeaders(h.flags) {
          continuationStream := None;
          headerBlockBytes := 0;
        } else {
          continuationStream := Some(h.streamId);
        }
      }
      return Spec.Quiet;
    }

    method ProcessFrame(env: Env, frame: ParsedFrame) returns (raised: Raised)
      requires Spec.Sane(frame)
      modifies this
      ensures Spec.Step(CoreView(), raised) == Spec.ProcessFrame(env, old(CoreView()), frame)
      ensures buffer == old(buffer) && captureBytes == old(captureBytes) && initialized == old(initialized)
    {
      hide Spec.Dispatch, Spec.Sane, Spec.OnFirstFrame, Spec.OnHeaderBlock;
      raised := CheckFirstFrame(frame);
      if raised.Quiet? {
        raised := CheckHeaderBlock(frame.header, frame);
        if raised.Quiet? {
          raised := Dispatch(env, frame);
        }
      }
    }

    /** The frame types that never reach h2, and those that do. */
    method Dispatch(env: Env, frame: ParsedFrame) returns (raised: Raised)
      requires Spec.Sane(frame)
      modifies this
      ensures Spec.Step(CoreView(), raised) == Spec.Dispatch(env, old(CoreView()), frame)
      ensures buffer == old(buffer) && captureBytes == old(captureBytes) && initialized == old(initialized)
    {
      hide Spec.Forward, Spec.Sane;
      raised := Spec.Quiet;
      var h := frame.header;
      if h.kind == ALTSVC || h.kind == ORIGIN {
        return;
      }
      if frame.payload.Unknown? && frame.payload.parseError.Some? {
        raised := Fail(frame.payload.parseError.value);
        return;
      }
      if h.kind == PUSH_PROMISE {
        raised := Fail(PROTOCOL_ERROR);
        return;
      }
      if h.kind == RST_STREAM {
        var highest := if h.streamId % 2 == 1 then connection.highest else 0;
        if h.streamId > highest {
          raised := Fail(PROTOCOL_ERROR);
          return;
        }
      }
      if h.kind == PRIORITY {
        return;
      }
      if frame.payload.PriorityUpdate? {
        var id := frame.payload.prioritized;
        if id % 2 == 0 {
          raised := Fail(PROTOCOL_ERROR);
          return;
        }
        if id > connection.highest {
          prioritizedIdle := prioritizedIdle + {id};
        } else if id !in connection.streams || !Live(connection.streams[id]) {
          return;
        }
        raised := CheckPriorityLimit();
        return;
      }
      if frame.payload.Goaway? {
        if frame.payload.errorCode != NO_ERROR {
          cancelled := true;
        }
        return;
      }
      raised := Forward(env, frame);
    }

    // ------------------------------------------------------------------ chunks

    /** One frame cut off the buffer: parsed, counted, captured, processed. */
    method TakeFrame(env: Env, wire: Bytes) returns (raised: Raised)
      modifies this
      ensures Spec.Step(CoreView(), raised) == Spec.TakeFrame(env, old(CoreView()), wire)
      ensures buffer == old(buffer) && captureBytes == old(captureBytes) && initialized == old(initialized)
    {
      hide FrameSpec, Spec.ProcessFrame, Spec.Sane;
      var room := Some(Spec.MAX_CAPTURE_ENTRIES - captureEntries);
      var reader := new FrameReader(wire, Spec.SERVER_MAX_FRAME_SIZE, false, true, room);
      assert wire[0..] == wire;
      var parsed := reader.ParseFrame();
      if parsed.Err? {
        raised := Fail(parsed.code);
        return;
      }
      captureEntries := captureEntries + reader.entriesRead;
      if |capture.frames| >= Spec.MAX_CAPTURE_FRAMES {
        raised := Fail(ENHANCE_YOUR_CALM);
        return;
      }
      Spec.ParsedIsSane(wire, room.value);
      capture := capture.(frames := capture.frames + [parsed.value]);
      raised := ProcessFrame(env, parsed.value);
    }

    /** Cuts frames off the buffer as long as it holds a complete one. */
    method DrainBuffer(env: Env) returns (raised: Raised)
      modifies this
      ensures Spec.Outcome(View(), raised) == Spec.Drain(env, old(View())) && initialized == old(initialized)
    {
      hide Spec.TakeFrame, Spec.Close;
      while |buffer| >= FRAME_HEADER_SIZE
        invariant Spec.Drain(env, View()) == Spec.Drain(env, old(View())) && initialized == old(initialized)
        decreases |buffer|
      {
        var length := U24(buffer[..3]);
        if length > Spec.SERVER_MAX_FRAME_SIZE {
          raised := Fail(FRAME_SIZE_ERROR);
          return;
        }
        var frameEnd := FRAME_HEADER_SIZE + length;
        if |buffer| < frameEnd {
          break;
        }
        var wire := buffer[..frameEnd];
        buffer := buffer[frameEnd..];
        raised := TakeFrame(env, wire);
        if raised != Spec.Quiet {
          return;
        }
      }
      return Spec.Quiet;
    }

    /** One read has the effect the stream semantics give. A session in order stays in order with every octet
        accounted for, or fails with one GOAWAY, or is reset. */
    method Receive(env: Env, data: Bytes) returns (raised: Raised)
      modifies this
      ensures Spec.Outcome(View(), raised) == Spec.Receive(env, old(View()), data) && initialized == old(initialized)
      ensures old(Good(CoreView()) && Unsent(connection)) ==> ReadWell(old(View()), [data], Spec.Outcome(View(), raised))
    {
      hide Spec.Drain, Spec.Close, Spec.Flush, Good, Unsent, ReadWell;
      if Good(CoreView()) && Unsent(connection) { OneRead(env, View(), data); }
      if data == [] {
        return Spec.Reset;
      }
      captureBytes := captureBytes + |data|;
      if captureBytes > Spec.MAX_CAPTURE_BYTES {
        raised := Fail(ENHANCE_YOUR_CALM);
        return;
      }
      buffer := buffer + data;
      raised := DrainBuffer(env);
      if raised != Spec.Quiet {
        return;
      }
      Flush();
      raised := CheckCancelled();
    }

    /** The first call writes our SETTINGS before anything is read, and leaves the session in order with every
        octet accounted for, or failed with one GOAWAY, or reset. A second call is refused and changes nothing. */
    method Initialize(env: Env, incoming: Bytes) returns (raised: Raised)
      modifies this
      ensures initialized
      ensures old(initialized) ==> raised == Spec.Runtime && View() == old(View())
      ensures !old(initialized) ==> Spec.Outcome(View(), raised) == Spec.Initialize(env, old(View()), incoming)
      ensures !old(initialized) && old(View()) == Spec.FRESH_SESSION ==> RunWell(incoming, [], Spec.Outcome(View(), raised))
    {
      hide Spec.Receive, Spec.Close, RunWell, Good, Unsent, ReadWell;
      if View() == Spec.FRESH_SESSION {
        EveryRun(env, incoming, []);
        StartIsRun(env, incoming);
      }
      if initialized {
        return Spec.Runtime;
      }
      initialized := true;
      connection := Queue(connection, [SettingsSent]);
      Flush();
      if !(Spec.PREFACE <= incoming) {
        raised := Fail(PROTOCOL_ERROR);
        return;
      }
      var remaining := incoming[|Spec.PREFACE|..];
      if remaining == [] {
        return Spec.Quiet;
      }
      raised := Receive(env, remaining);
    }

    /** Reads until there is a request that can be answered, at most once per octet of capture budget. */
    method ReceiveRequest(env: Env, peer: Spec.Peer, start: nat) returns (raised: Raised, taken: nat)
      modifies this
      ensures Spec.Sent(View(), raised, taken) == Spec.ReadRequest(env, old(View()), peer, start)
      ensures old(Good(CoreView()) && Unsent(connection)) ==> Awaited(old(View()), Waits(env, old(View()), peer, start), peer, start, Spec.Sent(View(), raised, taken))
    {
      hide Spec.Receive, Good, Unsent, ReadWell, Awaited;
      if Good(CoreView()) && Unsent(connection) { RequestIsAwaited(env, View(), peer, start); }
      taken := start;
      while !requestReady
        invariant Spec.ReadRequest(env, View(), peer, taken) == Spec.ReadRequest(env, old(View()), peer, start)
        decreases Spec.Budget(View())
      {
        ghost var before := View();
        raised := Receive(env, peer(taken));
        taken := taken + 1;
        if raised != Spec.Quiet {
          return;
        }
        Spending(env, before, peer(taken - 1));
      }
      raised := CheckCancelled();
    }

    /** The response: its head, then the body as the windows allow, reading while they do not. To a request
        that can be answered it is delivered whole, every DATA frame within the windows of its moment, unless
        the peer breaks the protocol, cancels the request or ends its stream. What is read meanwhile is captured. */
    method SendResponse(env: Env, content: Bytes, status: nat, peer: Spec.Peer, start: nat)
      returns (raised: Raised, taken: nat)
      modifies this
      ensures Spec.Sent(View(), raised, taken) == Spec.SendResponse(env, old(View()), content, status, peer, start)
      ensures Responded(old(View()), Spec.Sent(View(), raised, taken), content, status, peer, start)
    {
      hide Spec.Receive, SendHeaders, SendData, Spec.Flush, Spec.Liveness, Spec.SendBody, Responded;
      ResponseOutcome(env, View(), content, status, peer, start);
      taken := start;
      raised := CheckCancelled();
      if raised != Spec.Quiet {
        return;
      }
      if capture.streamId.None? || !requestReady {
        return Spec.Runtime, taken;
      }
      var id := capture.streamId.value;
      var body := Spec.ResponseBody(content, status);
      var head := SendHeaders(env, connection, id, status, body == []);
      if head.None? {
        return Spec.Protocol(PROTOCOL_ERROR), taken;
      }
      connection := head.value;
      Flush();
      raised, taken := SendBody(env, id, body, peer, start);
    }

    method SendBody(env: Env, id: nat, body: Bytes, peer: Spec.Peer, start: nat) returns (raised: Raised, taken: nat)
      modifies this
      ensures Spec.Sent(View(), raised, taken) == Spec.SendBody(env, old(View()), id, body, 0, peer, start)
    {
      hide Spec.Receive, SendData, Spec.Flush, Spec.Liveness, SendRoom;
      taken := start;
      var offset := 0;
      while offset < |body|
        invariant offset <= |body|
        invariant Spec.SendBody(env, View(), id, body, offset, peer, taken) == Spec.SendBody(env, old(View()), id, body, 0, peer, start)
        decreases Spec.Budget(View()) + (|body| - offset)
      {
        raised := CheckCancelled();
        if raised != Spec.Quiet {
          return;
        }
        if id !in connection.streams {
          return Spec.Protocol(PROTOCOL_ERROR), taken;
        }
        var available := SendRoom(connection, id);
        if available <= 0 {
          ghost var before := View();
          raised := Receive(env, peer(taken));
          taken := taken + 1;
          if raised != Spec.Quiet {
            return;
          }
          Spending(env, before, peer(taken - 1));
          continue;
        }
        var stop := if offset + available < |body| then offset + available else |body|;
        var sent := SendData(connection, id, body[offset..stop], stop == |body|);
        if sent.None? {
          return Spec.Protocol(PROTOCOL_ERROR), taken;
        }
        connection := sent.value;
        Flush();
        offset := stop;
      }
      return Spec.Quiet, taken;
    }
  }

  lemma CloseOutcome(s: Spec.Core, code: int)
    ensures Spec.Close(s, code).closed && Spec.Close(s, code).conn.outbound == []
    ensures Good(s) ==> Ended(Spec.Close(s, code), code) && Parting(Spec.Close(s, code), Spec.Close(s, code).written, code)
    ensures forall said: int :: Ended(s, said) ==> Ended(Spec.Close(s, code), said)
  {
    assert s.written + [] == s.written;
    if Good(s) {
      GoodIsClean(s);
      CleanEnds(s, code);
    }
    hide Good;
  }

  lemma CleanEnds(s: Spec.Core, code: int)
    requires Clean(s)
    ensures Ended(Spec.Close(s, code), code) && Parting(Spec.Close(s, code), Spec.Close(s, code).written, code)
  {
    CleanCloses(s, code);
    assert s.conn.outbound == [];
  }

  /** Every chunk that arrives spends capture budget. */
  lemma Spending(env: Env, s: Spec.Session, data: Bytes)
    ensures var r := Spec.Receive(env, s, data); r.raised.Quiet? ==> Spec.Budget(r.session) < Spec.Budget(s)
  {
    hide Spec.Drain, Spec.Close;
  }
}
