/** Whole runs of a session: what every sequence of chunks keeps, and that chunking does not matter. */
module SessionRuns {
  import opened Wire
  import opened Frames
  import opened H2
  import opened H2Proofs
  import opened SessionSpec
  import opened SessionInvariant
  import opened SessionSteps
  import Adapter
  import Decimal

  // ------------------------------------------------------------ cutting frames

  /** The captured wire bytes, frame after frame. */
  function Raws(frames: seq<ParsedFrame>): Bytes {
    if frames == [] then [] else Raws(frames[..|frames| - 1]) + frames[|frames| - 1].raw
  }

  /** Everything received so far, put together again. */
  function Arrived(s: Session): Bytes { Raws(s.core.capture.frames) + s.buffer }

  /** Every octet of `data` is captured or buffered, and counted. */
  predicate Took(s: Session, data: Bytes, t: Session) {
    && Arrived(t) == Arrived(s) + data && t.captureBytes == s.captureBytes + |data|
    && (s.captureBytes <= MAX_CAPTURE_BYTES ==> t.captureBytes <= MAX_CAPTURE_BYTES)
  }

  /** What the peer delivers in the reads from `start` to before `stop`. */
  function Heard(peer: Peer, start: nat, stop: nat): Bytes
    requires start <= stop
    decreases stop - start
  {
    if start == stop then [] else peer(start) + Heard(peer, start + 1, stop)
  }

  lemma {:induction false} HeardAppend(peer: Peer, start: nat, middle: nat, stop: nat)
    requires start <= middle <= stop
    ensures Heard(peer, start, stop) == Heard(peer, start, middle) + Heard(peer, middle, stop)
    decreases middle - start
  {
    if start < middle { HeardAppend(peer, start + 1, middle, stop); }
  }

  lemma HeardNext(peer: Peer, stop: nat)
    ensures Heard(peer, 0, stop + 1) == Heard(peer, 0, stop) + peer(stop)
  {
    HeardAppend(peer, 0, stop, stop + 1);
    assert Heard(peer, stop + 1, stop + 1) == [];
    assert peer(stop) + [] == peer(stop);
  }

  lemma TookTwice(s: Session, a: Bytes, t: Session, b: Bytes, u: Session)
    requires Took(s, a, t) && Took(t, b, u)
    ensures Took(s, a + b, u)
  {
    assert Arrived(s) + a + b == Arrived(s) + (a + b);
  }

  lemma TookNothing(s: Session, t: Session)
    requires t.buffer == s.buffer && t.captureBytes == s.captureBytes && t.core.capture.frames == s.core.capture.frames
    ensures Took(s, [], t)
  {
    assert Arrived(s) + [] == Arrived(s);
  }

  predicate HasFrame(buffer: Bytes) {
    |buffer| >= FRAME_HEADER_SIZE && U24(buffer[..3]) <= SERVER_MAX_FRAME_SIZE && FrameEnd(buffer) <= |buffer|
  }

  predicate TooLong(buffer: Bytes) { |buffer| >= FRAME_HEADER_SIZE && U24(buffer[..3]) > SERVER_MAX_FRAME_SIZE }

  lemma CutIsComplete(buffer: Bytes)
    requires HasFrame(buffer)
    ensures var wire := buffer[..FrameEnd(buffer)]; Complete(wire, SERVER_MAX_FRAME_SIZE) && |wire| == FrameEnd(wire)
  {
    assert buffer[..FrameEnd(buffer)][..3] == buffer[..3];
  }

  /** What `Drain` does with a state that satisfies the invariant. */
  ghost predicate Drained(s: Session, r: Outcome) {
    match r.raised
    case Quiet =>
      && Inv(r.session.core) && Arrived(r.session) == Arrived(s)
      && !HasFrame(r.session.buffer) && !TooLong(r.session.buffer)
    case Protocol(code) => Ended(r.session.core, code)
    case _ => false
  }

  lemma {:induction false} DrainKeeps(env: Env, s: Session)
    requires Inv(s.core)
    ensures Drained(s, Drain(env, s))
    decreases |s.buffer|
  {
    hide Inv, Ended, TakeFrame;
    if TooLong(s.buffer) {
      InvEnds(s.core, FRAME_SIZE_ERROR);
    } else if HasFrame(s.buffer) {
      var stop := FrameEnd(s.buffer);
      var wire := s.buffer[..stop];
      var r := TakeFrame(env, s.core, wire);
      var t := s.(buffer := s.buffer[stop..], core := r.core);
      CutIsComplete(s.buffer);
      FrameTaken(env, s.core, wire);
      if r.raised.Quiet? {
        RawsNext(s, t, wire);
        DrainKeeps(env, t);
      }
    }
  }

  lemma RawsNext(s: Session, t: Session, wire: Bytes)
    requires s.buffer == wire + t.buffer
    requires |t.core.capture.frames| == |s.core.capture.frames| + 1
    requires s.core.capture.frames == t.core.capture.frames[..|s.core.capture.frames|]
    requires t.core.capture.frames[|s.core.capture.frames|].raw == wire
    ensures Arrived(t) == Arrived(s)
  {
    assert Raws(t.core.capture.frames) == Raws(s.core.capture.frames) + wire;
  }

  lemma InvEnds(s: Core, code: int)
    requires Inv(s)
    ensures Ended(Close(s, code), code)
  {
    EndsIfClean(s, code);
  }

  // ------------------------------------------------------------------- chunks

  lemma FlushNothing(s: Core)
    requires Inv(s)
    ensures Flush(s) == s
  {
    assert s.written + [] == s.written;
  }

  /** One chunk: nothing is lost, the invariant holds and the request is alive, or the run is over. */
  lemma ChunkKeeps(env: Env, s: Session, data: Bytes)
    requires Inv(s.core)
    ensures var r := Receive(env, s, data);
            match r.raised
            case Quiet =>
              && Inv(r.session.core) && !r.session.core.cancelled && Took(s, data, r.session)
              && !HasFrame(r.session.buffer) && !TooLong(r.session.buffer)
            case Protocol(code) => Ended(r.session.core, code)
            case Reset => Inv(r.session.core) && (data == [] || r.session.core.cancelled) && Took(s, data, r.session)
            case Runtime => false
  {
    hide Inv, Ended, Drain, Close, Flush, HasFrame, TooLong;
    if data == [] {
      assert Arrived(s) + data == Arrived(s);
    } else {
      var t := s.(captureBytes := s.captureBytes + |data|);
      InvEnds(t.core, ENHANCE_YOUR_CALM);
      var u := t.(buffer := t.buffer + data);
      DrainKeeps(env, u);
      assert Arrived(u) == Arrived(s) + data;
      var r := Drain(env, u);
      if r.raised.Quiet? {
        FlushNothing(r.session.core);
        InvOpen(r.session.core);
      }
    }
  }

  lemma InvOpen(s: Core)
    requires Inv(s)
    ensures !s.closed
  {
  }

  /** Cutting frames off a longer buffer continues where cutting the shorter one stopped. */
  lemma {:induction false} DrainAppend(env: Env, s: Session, data: Bytes)
    ensures var r, whole := Drain(env, s), Drain(env, s.(buffer := s.buffer + data));
            whole == if r.raised.Quiet? then Drain(env, r.session.(buffer := r.session.buffer + data))
                     else Outcome(r.session.(buffer := r.session.buffer + data), r.raised)
    decreases |s.buffer|
  {
    hide TakeFrame, Close;
    if |s.buffer| >= FRAME_HEADER_SIZE {
      assert (s.buffer + data)[..3] == s.buffer[..3];
      if HasFrame(s.buffer) {
        var stop := FrameEnd(s.buffer);
        assert (s.buffer + data)[..stop] == s.buffer[..stop];
        assert (s.buffer + data)[stop..] == s.buffer[stop..] + data;
        var r := TakeFrame(env, s.core, s.buffer[..stop]);
        var t := s.(buffer := s.buffer[stop..], core := r.core);
        DrainAppend(env, t, data);
      }
    }
  }

  lemma {:induction false} DrainIgnoresCount(env: Env, s: Session, n: nat)
    ensures Drain(env, s.(captureBytes := n)) ==
            Outcome(Drain(env, s).session.(captureBytes := n), Drain(env, s).raised)
    decreases |s.buffer|
  {
    hide TakeFrame, Close;
    if HasFrame(s.buffer) {
      var stop := FrameEnd(s.buffer);
      var r := TakeFrame(env, s.core, s.buffer[..stop]);
      DrainIgnoresCount(env, s.(buffer := s.buffer[stop..], core := r.core), n);
    }
  }

  // ------------------------------------------------ what is decided stays decided

  /** Nothing that carries a body or ends a stream has been written or queued meanwhile, and the client's settings
      are still in order. */
  predicate Mute(s: Core, t: Core) {
    && BodyFrames(t.written + t.conn.outbound) == BodyFrames(s.written + s.conn.outbound)
    && (Settled(s.conn) ==> Settled(t.conn))
  }

  lemma HushedIsMute(s: Core, t: Core)
    requires t.written == s.written && Hushed(s.conn, t.conn)
    ensures Mute(s, t)
  {
    BodyFramesAppend(s.written, s.conn.outbound);
    BodyFramesAppend(t.written, t.conn.outbound);
  }

  lemma CloseIsMute(s: Core, code: int)
    ensures Mute(s, Close(s, code)) && Mute(s, Flush(s))
  {
    hide BodyFrames;
    var last := if s.capture.streamId.Some? then s.capture.streamId.value else 0;
    var d := Queue(s.conn, [GoawaySent(last, code)]);
    QueueHushed(s.conn, d, [GoawaySent(last, code)]);
    HushedIsMute(s, s.(closed := true, conn := d));
    assert s.written + s.conn.outbound + [] == s.written + s.conn.outbound;
    assert s.written + d.outbound + [] == s.written + d.outbound;
  }

  lemma SettingsHushed(c: Connection, entries: seq<Entry>)
    ensures Hushed(c, ReceiveSettings(c, entries).c)
  {
    hide BodyFrames, Settled;
    if Settled(c) { Adapter.ReceivedSettles(c, entries); }
    AnswerHushed(c, ReceiveSettings(c, entries));
  }

  lemma {:induction false} ReplayHushed(c: Connection, entries: seq<Entry>, i: nat)
    requires i < |entries|
    ensures Hushed(c, Adapter.Replay(c, entries, i).c)
    decreases |entries| - i
  {
    SettingsHushed(c, [entries[i]]);
    var r := ReceiveSettings(c, [entries[i]]);
    hide ReceiveSettings;
    if r.Received? && i < |entries| - 1 && r.c.outbound == [SettingsAck] {
      AckDiscarded(r.c);
      ReplayHushed(r.c.(outbound := []), entries, i + 1);
    }
  }

  lemma AckDiscarded(c: Connection)
    requires c.outbound == [SettingsAck]
    ensures Hushed(c, c.(outbound := []))
  {
    PlainHasNone([SettingsAck]);
  }

  lemma ApplyHushed(c: Connection, entries: seq<Entry>)
    ensures Hushed(c, Adapter.ApplySettings(c, entries).c)
  {
    hide BodyFrames, ReceiveSettings, Adapter.Replay, Adapter.Working, Adapter.TableSizes, Adapter.DistinctIds;
    var w := Adapter.Working(Setting(c, HEADER_TABLE_SIZE), entries);
    var d := c.(tableChanges := c.tableChanges + |Adapter.TableSizes(w)|);
    SettingsHushed(d, w);
    Adapter.DistinctOrNot(w);
    if w != [] { ReplayHushed(d, w, 0); }
    if c.tableChanges + |Adapter.TableSizes(w)| > MAX_HEADER_TABLE_SIZE_CHANGES { AnswerHushed(c, Terminate(c, ENHANCE_YOUR_CALM)); }
  }

  /** Cancellation is final, the accepted request is never replaced, captured frames and output only grow, and
      no body is sent. */
  predicate Onward(s: Core, t: Core) {
    && s.capture.frames <= t.capture.frames && s.written <= t.written && Mute(s, t)
    && (s.cancelled ==> t.cancelled)
    && (s.requestReady ==> t.requestReady)
    && (s.capture.streamId.Some? ==> t.capture.streamId == s.capture.streamId && t.capture.headers == s.capture.headers)
  }

  lemma {:induction false} EventsOnward(env: Env, s: Core, events: seq<Event>)
    ensures Onward(s, ProcessEvents(env, s, events).core)
    decreases |events|
  {
    hide BodyFrames;
    if events != [] {
      EventOnward(env, s, events[0]);
      hide ProcessEvent;
      var r := ProcessEvent(env, s, events[0]);
      if r.raised.Quiet? { EventsOnward(env, r.core, events[1..]); }
    }
  }

  lemma CloseOnward(s: Core, t: Core, code: int)
    requires Onward(s, t)
    ensures Onward(s, Close(t, code)) && Onward(s, Flush(t))
  {
    hide BodyFrames;
    CloseIsMute(t, code);
  }

  lemma SameLogs(s: Core, t: Core)
    requires t.capture.frames == s.capture.frames && t.written == s.written && t.cancelled == s.cancelled
    requires (s.requestReady ==> t.requestReady) && s.capture.streamId.None? && Hushed(s.conn, t.conn)
    ensures Onward(s, t)
  {
    hide BodyFrames;
    HushedIsMute(s, t);
  }

  lemma ContinueHushed(env: Env, c: Connection, id: nat)
    ensures var d := SendHeaders(env, c, id, 100, false); d.Some? ==> Hushed(c, d.value)
  {
    hide BodyFrames;
    var d := SendHeaders(env, c, id, 100, false);
    if d.Some? { QueueHushed(c, d.value, [Head(env, c, id, 100, false)]); }
  }

  lemma AcceptOnward(env: Env, s: Core, t: Core, id: nat, fields: Fields, ended: bool)
    requires s.capture.streamId.None? && t == s.(idle := t.idle)
    ensures Onward(s, AcceptRequest(env, t, id, fields, ended).core)
  {
    hide Declared, Expectations, OnlyContinue, Lookup, SendHeaders, Text, Close, Onward;
    var r := AcceptRequest(env, t, id, fields, ended);
    var u := t.(capture := t.capture.(streamId := Some(id), headers := Some(fields)),
                expected := if Declared(fields).Some? then Declared(fields) else t.expected);
    SameLogs(s, u);
    ContinueHushed(env, t.conn, id);
    if Declared(fields).Some? && Declared(fields).value > Decimal.MAX_REQUEST_BODY {
      CloseOnward(s, u, ENHANCE_YOUR_CALM);
    } else {
      SameLogs(s, r.core);
    }
  }

  lemma RequestOnward(env: Env, s: Core, id: nat, fields: Fields, ended: bool)
    ensures Onward(s, OnRequest(env, s, id, fields, ended).core)
  {
    hide ValidFields, OverPriorityLimit, AcceptRequest, Close, BodyFrames;
    var t := ForgetIdle(s, id);
    CloseOnward(s, t, PROTOCOL_ERROR);
    if id in s.conn.streams {
      var d := ResetStream(s.conn, id, REFUSED_STREAM);
      QueueHushed(s.conn, d, [ResetSent(id, REFUSED_STREAM)]);
      HushedIsMute(s, t.(conn := d));
    }
    if s.capture.streamId.None? { AcceptOnward(env, s, t, id, fields, ended); }
  }

  lemma DataOnward(env: Env, s: Core, id: nat, data: Bytes, flow: nat)
    ensures Onward(s, OnData(env, s, id, data, flow).core)
  {
    hide Close, BodyFrames;
    CloseOnward(s, CountData(s, id, data), ENHANCE_YOUR_CALM);
    var d := Acknowledge(env, s.conn, flow, id);
    QueueHushed(s.conn, d, Credits(env.replenish(s.conn.credits, flow, id)));
    HushedIsMute(s, CountData(s, id, data).(conn := d));
  }

  lemma EventOnward(env: Env, s: Core, e: Event)
    ensures Onward(s, ProcessEvent(env, s, e).core)
  {
    hide OnRequest, OnData, ValidFields, Close, BodyFrames, Settled;
    match e
    case RequestReceived(id, fields, ended) => RequestOnward(env, s, id, fields, ended);
    case TrailersReceived(_, _) => CloseOnward(s, s, PROTOCOL_ERROR);
    case DataReceived(id, data, flow) => DataOnward(env, s, id, data, flow);
    case StreamEnded(_) => CloseOnward(s, s, PROTOCOL_ERROR);
    case StreamReset(_) =>
  }

  lemma FrameOnward(env: Env, s: Core, wire: Bytes)
    ensures Onward(s, TakeFrame(env, s, wire).core)
  {
    hide FrameSpec, Sane, ProcessFrame, BodyFrames, Close;
    var r := FrameSpec(wire, SERVER_MAX_FRAME_SIZE, false, true, Some(MAX_CAPTURE_ENTRIES - s.entries));
    ParsedIsSane(wire, MAX_CAPTURE_ENTRIES - s.entries);
    if r.Rejected? {
      CloseOnward(s, s, r.code);
    } else {
      CloseOnward(s, s.(entries := s.entries + r.used), ENHANCE_YOUR_CALM);
      ProcessOnward(env, s.(entries := s.entries + r.used, capture := s.capture.(frames := s.capture.frames + [r.frame])), r.frame);
    }
  }

  lemma ProcessOnward(env: Env, s: Core, f: ParsedFrame)
    requires Sane(f)
    ensures Onward(s, ProcessFrame(env, s, f).core)
  {
    hide Dispatch, Sane, OnFirstFrame, OnHeaderBlock, BodyFrames;
    var a := OnFirstFrame(s, f);
    FirstOnward(s, f);
    if a.raised.Quiet? {
      BlockOnward(a.core, f);
      var b := OnHeaderBlock(a.core, f);
      if b.raised.Quiet? { DispatchOnward(env, b.core, f); }
    }
  }

  lemma FirstOnward(s: Core, f: ParsedFrame)
    ensures Onward(s, OnFirstFrame(s, f).core)
  {
    hide Close, BodyFrames;
    CloseOnward(s, s, PROTOCOL_ERROR);
  }

  lemma BlockOnward(s: Core, f: ParsedFrame)
    ensures Onward(s, OnHeaderBlock(s, f).core)
  {
    hide Close, BodyFrames;
    CloseOnward(s, s, PROTOCOL_ERROR);
    CloseOnward(s, s.(headerBlockBytes := s.headerBlockBytes + f.header.length), ENHANCE_YOUR_CALM);
  }

  lemma DispatchOnward(env: Env, s: Core, f: ParsedFrame)
    requires Sane(f)
    ensures Onward(s, Dispatch(env, s, f).core)
  {
    hide Forward, OverPriorityLimit, Sane, Close, BodyFrames;
    ForwardOnward(env, s, f);
    CloseOnward(s, s, PROTOCOL_ERROR);
    if f.payload.Unknown? && f.payload.parseError.Some? { CloseOnward(s, s, f.payload.parseError.value); }
    if f.payload.PriorityUpdate? { CloseOnward(s, s.(idle := s.idle + {f.payload.prioritized}), PROTOCOL_ERROR); }
  }

  lemma OnwardTwice(a: Core, b: Core, c: Core)
    requires Onward(a, b) && Onward(b, c)
    ensures Onward(a, c)
  {
    hide BodyFrames, Settled;
  }

  lemma HushedIsOnward(s: Core, d: Connection)
    requires Hushed(s.conn, d)
    ensures Onward(s, s.(conn := d))
  {
    hide BodyFrames, Settled;
    HushedIsMute(s, s.(conn := d));
  }

  /** Whatever comes of h2's answer, the session goes on from `t`. */
  lemma AnswerOnward(s: Core, t: Core, code: int)
    requires Onward(s, t)
    ensures Onward(s, Flush(t)) && Onward(s, AfterProtocolError(t, code).core)
  {
    hide BodyFrames, Settled;
    CloseOnward(s, t, code);
  }

  lemma ForwardOnward(env: Env, s: Core, f: ParsedFrame)
    requires Sane(f)
    ensures Onward(s, Forward(env, s, f).core)
  {
    hide ReceiveFrame, Adapter.ApplySettings, ProcessEvents, Sane, Forwarded, Onward, Hushed, Flush, AfterProtocolError;
    var settings := f.header.kind == SETTINGS && f.payload.Settings? && !f.payload.ack;
    var r := if settings then Adapter.ApplySettings(s.conn, f.payload.entries)
             else ReceiveFrame(env, s.conn, s.capture.frames, Forwarded(f));
    if settings { ApplyHushed(s.conn, f.payload.entries); } else { FrameHushed(env, s.conn, s.capture.frames, Forwarded(f)); }
    var t := s.(conn := r.c);
    HushedIsOnward(s, r.c);
    if r.Refused? {
      AnswerOnward(s, t, r.code);
    } else if r.Received? {
      EventsOnward(env, t, r.events);
      var u := ProcessEvents(env, t, r.events);
      OnwardTwice(s, t, u.core);
      AnswerOnward(s, u.core, if u.raised.Protocol? then u.raised.code else NO_ERROR);
    }
  }

  lemma {:induction false} DrainOnward(env: Env, s: Session)
    ensures Onward(s.core, Drain(env, s).session.core)
    decreases |s.buffer|
  {
    hide TakeFrame, BodyFrames;
    CloseOnward(s.core, s.core, FRAME_SIZE_ERROR);
    if HasFrame(s.buffer) {
      var stop := FrameEnd(s.buffer);
      var r := TakeFrame(env, s.core, s.buffer[..stop]);
      FrameOnward(env, s.core, s.buffer[..stop]);
      if r.raised.Quiet? { DrainOnward(env, s.(buffer := s.buffer[stop..], core := r.core)); }
    }
  }

  // ------------------------------------------------- chunking does not matter

  /** All of the bytes in one buffer. */
  function AtOnce(env: Env, s: Session, data: Bytes): Outcome {
    Drain(env, s.(buffer := s.buffer + data, captureBytes := s.captureBytes + |data|))
  }

  ghost predicate Nonempty(chunks: seq<Bytes>) { forall i :: 0 <= i < |chunks| ==> chunks[i] != [] }

  /** The octets up to the k-th cut raise nothing by themselves and leave the request cancelled. */
  ghost predicate CutAfterCancel(env: Env, s: Session, chunks: seq<Bytes>, k: nat)
    requires k <= |chunks|
  {
    var r := AtOnce(env, s, Concat(chunks[..k]));
    r.raised.Quiet? && r.session.core.cancelled
  }

  /** A run stops for a cancellation if and only if a cut falls after the cancelling frame, with nothing
      failing in between; the state is then that of the octets up to the cut. */
  ghost predicate StopsAtCut(env: Env, s: Session, chunks: seq<Bytes>, w: Outcome) {
    && (w.raised.Reset? <==> exists k :: 0 <= k <= |chunks| && CutAfterCancel(env, s, chunks, k))
    && (w.raised.Reset? ==>
          exists k :: 0 <= k <= |chunks| && CutAfterCancel(env, s, chunks, k)
                      && w.session == AtOnce(env, s, Concat(chunks[..k])).session)
  }

  /** A chunked run next to the same bytes at once. */
  ghost predicate Matches(w: Outcome, whole: Outcome) {
    match w.raised
    case Quiet => whole == w && !w.session.core.cancelled
    case Protocol(code) => whole.raised == Protocol(code) && whole.session.core == w.session.core
    case Reset => w.session.core.cancelled && whole.session.core.cancelled && Onward(w.session.core, whole.session.core)
    case Runtime => false
  }

  /** Between chunks: the invariant, a live request, and no complete frame left in the buffer. */
  ghost predicate Waiting(s: Session) {
    Inv(s.core) && !s.core.cancelled && !HasFrame(s.buffer) && !TooLong(s.buffer)
  }

  lemma NextChunk(env: Env, s: Session, front: Bytes, r: Outcome, last: Bytes)
    requires Waiting(s) && r == AtOnce(env, s, front) && r.raised.Quiet? && Waiting(r.session) && last != []
    requires s.captureBytes + |front| + |last| <= MAX_CAPTURE_BYTES
    ensures var w, whole := Receive(env, r.session, last), AtOnce(env, r.session, last);
            Matches(w, whole) && (w.raised.Reset? ==> whole == Outcome(w.session, Quiet))
    ensures AtOnce(env, s, front + last) == AtOnce(env, r.session, last)
  {
    hide Inv, Ended, Drain, HasFrame, TooLong, TakeFrame, Close;
    AtOnceAppend(env, s, front, last);
    var t := r.session.(buffer := r.session.buffer + last, captureBytes := r.session.captureBytes + |last|);
    DrainKeeps(env, t);
    var d := Drain(env, t);
    if d.raised.Quiet? {
      FlushNothing(d.session.core);
      InvOpen(d.session.core);
    }
  }

  lemma AtOnceAppend(env: Env, s: Session, front: Bytes, last: Bytes)
    ensures var r := AtOnce(env, s, front);
            AtOnce(env, s, front + last) ==
              if r.raised.Quiet? then AtOnce(env, r.session, last)
              else Outcome(r.session.(buffer := r.session.buffer + last, captureBytes := r.session.captureBytes + |last|), r.raised)
  {
    hide Drain, TakeFrame, Close;
    var a := s.(buffer := s.buffer + front, captureBytes := s.captureBytes + |front|);
    var n := s.captureBytes + |front| + |last|;
    DrainAppend(env, a, last);
    assert s.buffer + front + last == s.buffer + (front + last);
    DrainIgnoresCount(env, a.(buffer := a.buffer + last), n);
    var r := Drain(env, a);
    DrainIgnoresCount(env, r.session.(buffer := r.session.buffer + last), n);
  }

  lemma {:induction false} ChunksAreOne(env: Env, s: Session, chunks: seq<Bytes>)
    requires Waiting(s) && Nonempty(chunks) && s.captureBytes + |Concat(chunks)| <= MAX_CAPTURE_BYTES
    ensures Matches(ReceiveAll(env, s, chunks), AtOnce(env, s, Concat(chunks)))
    ensures StopsAtCut(env, s, chunks, ReceiveAll(env, s, chunks))
    ensures ReceiveAll(env, s, chunks).raised.Quiet? ==> Waiting(ReceiveAll(env, s, chunks).session)
    decreases |chunks|
  {
    hide Inv, Ended, Receive, HasFrame, TooLong, Drain, TakeFrame, Close, StopsAtCut, AtOnce;
    if chunks == [] {
      NothingNew(env, s);
      NoCut(env, s);
    } else {
      var front, last := chunks[..|chunks| - 1], chunks[|chunks| - 1];
      assert chunks == front + [last];
      ConcatOne(front, last);
      ChunksAreOne(env, s, front);
      var r := ReceiveAll(env, s, front);
      var o := AtOnce(env, s, Concat(front));
      AtOnceAppend(env, s, Concat(front), last);
      if r.raised.Quiet? {
        NextChunk(env, s, Concat(front), r, last);
        ChunkKeeps(env, r.session, last);
        LastCut(env, s, front, last, r, Receive(env, r.session, last));
      } else {
        EarlierCut(env, s, front, last, r);
        if r.raised.Reset? && o.raised.Quiet? { AtOnceOnward(env, o.session, last); }
      }
    }
  }

  lemma AtOnceOnward(env: Env, s: Session, data: Bytes)
    ensures Onward(s.core, AtOnce(env, s, data).session.core)
  {
    hide Drain;
    DrainOnward(env, s.(buffer := s.buffer + data, captureBytes := s.captureBytes + |data|));
  }

  lemma NoCut(env: Env, s: Session)
    requires AtOnce(env, s, []) == Outcome(s, Quiet) && !s.core.cancelled
    ensures StopsAtCut(env, s, [], Outcome(s, Quiet))
  {
    hide AtOnce;
    var none: seq<Bytes> := [];
    assert forall k :: 0 <= k <= |none| ==> none[..k] == none;
  }

  /** The last read decides, if the earlier ones went well. */
  lemma LastCut(env: Env, s: Session, front: seq<Bytes>, last: Bytes, r: Outcome, w: Outcome)
    requires StopsAtCut(env, s, front, r) && r.raised.Quiet?
    requires Matches(w, AtOnce(env, s, Concat(front + [last])))
    requires w.raised.Reset? ==> AtOnce(env, s, Concat(front + [last])) == Outcome(w.session, Quiet)
    ensures StopsAtCut(env, s, front + [last], w)
  {
    hide AtOnce, Concat, Onward;
    var all := front + [last];
    assert all[..|all|] == all;
    forall k | 0 <= k <= |all| ensures CutAfterCancel(env, s, all, k) ==> k == |all| && w.raised.Reset? {
      if k <= |front| {
        assert all[..k] == front[..k];
        assert !CutAfterCancel(env, s, front, k);
      }
    }
    if w.raised.Reset? { assert CutAfterCancel(env, s, all, |all|); }
  }

  /** An earlier stop stays the stop, and an earlier failure excludes a later one. */
  lemma EarlierCut(env: Env, s: Session, front: seq<Bytes>, last: Bytes, r: Outcome)
    requires StopsAtCut(env, s, front, r) && Matches(r, AtOnce(env, s, Concat(front))) && !r.raised.Quiet?
    requires !AtOnce(env, s, Concat(front)).raised.Quiet? ==> !AtOnce(env, s, Concat(front + [last])).raised.Quiet?
    ensures StopsAtCut(env, s, front + [last], r)
  {
    hide AtOnce, Concat, Onward;
    var all := front + [last];
    assert all[..|all|] == all;
    forall k | 0 <= k <= |front| ensures CutAfterCancel(env, s, all, k) == CutAfterCancel(env, s, front, k) {
      assert all[..k] == front[..k];
    }
    if r.raised.Reset? {
      var k :| 0 <= k <= |front| && CutAfterCancel(env, s, front, k) && r.session == AtOnce(env, s, Concat(front[..k])).session;
      assert CutAfterCancel(env, s, all, k) && all[..k] == front[..k];
    } else {
      assert !CutAfterCancel(env, s, all, |all|);
    }
  }

  lemma NothingNew(env: Env, s: Session)
    requires !HasFrame(s.buffer) && !TooLong(s.buffer)
    ensures AtOnce(env, s, []) == Outcome(s, Quiet)
  {
    assert s.buffer + [] == s.buffer;
  }

  // ------------------------------------------------------------ from the start

  /** The session once our own SETTINGS are on the wire. */
  const BEGAN := FRESH_SESSION.(core := Flush(FRESH_CORE.(conn := Queue(H2.FRESH, [SettingsSent]))))

  lemma BeganWaits()
    ensures Waiting(BEGAN)
  {
    GoawaysOne([], SettingsSent);
    assert [] + [SettingsSent] == [SettingsSent];
    assert BEGAN.core.written == [SettingsSent];
    assert OpenStreams(BEGAN.core.conn) == {};
  }

  /** A connection: what came with the preface, then one chunk per read. */
  function Run(env: Env, incoming: Bytes, chunks: seq<Bytes>): Outcome {
    var r := Initialize(env, FRESH_SESSION, incoming);
    if r.raised != Quiet then r else ReceiveAll(env, r.session, chunks)
  }

  function Rest(incoming: Bytes): seq<Bytes> {
    if |incoming| <= |PREFACE| then [] else [incoming[|PREFACE|..]]
  }

  lemma InitializeIsReceive(env: Env, incoming: Bytes)
    requires PREFACE <= incoming
    ensures Initialize(env, FRESH_SESSION, incoming) == ReceiveAll(env, BEGAN, Rest(incoming))
  {
    hide Receive;
    if |incoming| > |PREFACE| {
      var rest := incoming[|PREFACE|..];
      assert Rest(incoming)[..0] == [];
    }
  }

  lemma {:induction false} ReceiveAllSplit(env: Env, s: Session, a: seq<Bytes>, b: seq<Bytes>)
    ensures var r := ReceiveAll(env, s, a);
            ReceiveAll(env, s, a + b) == if r.raised != Quiet then r else ReceiveAll(env, r.session, b)
    decreases |b|
  {
    hide Receive;
    if b == [] {
      assert a + b == a;
    } else {
      var n := |b| - 1;
      assert (a + b)[..|a + b| - 1] == a + b[..n];
      ReceiveAllSplit(env, s, a, b[..n]);
    }
  }

  lemma RunIsReceive(env: Env, incoming: Bytes, chunks: seq<Bytes>)
    requires PREFACE <= incoming
    ensures Run(env, incoming, chunks) == ReceiveAll(env, BEGAN, Rest(incoming) + chunks)
    ensures Concat(Rest(incoming) + chunks) == incoming[|PREFACE|..] + Concat(chunks)
    ensures Nonempty(chunks) ==> Nonempty(Rest(incoming) + chunks)
  {
    InitializeIsReceive(env, incoming);
    ReceiveAllSplit(env, BEGAN, Rest(incoming), chunks);
    ConcatAppend(Rest(incoming), chunks);
    if Rest(incoming) != [] {
      assert Rest(incoming)[1..] == [];
      assert Concat(Rest(incoming)) == incoming[|PREFACE|..] + Concat([]);
    }
    hide ReceiveAll, Initialize;
  }

  lemma CutsAreOrdered(env: Env, s: Session, front: Bytes, longer: Bytes)
    requires AtOnce(env, s, front).raised.Quiet? && front <= longer
    ensures Onward(AtOnce(env, s, front).session.core, AtOnce(env, s, longer).session.core)
  {
    hide AtOnce, Onward;
    AtOnceAppend(env, s, front, longer[|front|..]);
    assert front + longer[|front|..] == longer;
    AtOnceOnward(env, AtOnce(env, s, front).session, longer[|front|..]);
  }

  lemma ConcatCut(chunks: seq<Bytes>, k: nat)
    requires k <= |chunks|
    ensures Concat(chunks) == Concat(chunks[..k]) + Concat(chunks[k..])
  {
    hide Concat;
    assert chunks[..k] + chunks[k..] == chunks;
    ConcatAppend(chunks[..k], chunks[k..]);
  }

  lemma CutIsPrefix(chunks: seq<Bytes>, k: nat)
    requires k <= |chunks|
    ensures Concat(chunks[..k]) <= Concat(chunks)
  {
    hide Concat;
    ConcatCut(chunks, k);
  }

  /** Of two stops in one stream the earlier one is on the way to the later one. */
  lemma StopsAreOrdered(env: Env, s: Session, chunks: seq<Bytes>, v: Outcome, chunks2: seq<Bytes>, w: Outcome)
    requires Concat(chunks) == Concat(chunks2) && v.raised.Reset? && w.raised.Reset?
    requires StopsAtCut(env, s, chunks, v) && StopsAtCut(env, s, chunks2, w)
    ensures Onward(v.session.core, w.session.core) || Onward(w.session.core, v.session.core)
  {
    hide AtOnce, Onward, Concat;
    var i :| 0 <= i <= |chunks| && CutAfterCancel(env, s, chunks, i) && v.session == AtOnce(env, s, Concat(chunks[..i])).session;
    var j :| 0 <= j <= |chunks2| && CutAfterCancel(env, s, chunks2, j) && w.session == AtOnce(env, s, Concat(chunks2[..j])).session;
    var p, q := Concat(chunks[..i]), Concat(chunks2[..j]);
    CutIsPrefix(chunks, i);
    CutIsPrefix(chunks2, j);
    if |p| <= |q| { CutsAreOrdered(env, s, p, q); } else { CutsAreOrdered(env, s, q, p); }
  }

  /** Two outcomes for the same octets: the same state, unless a cancellation stopped a run at a cut, on the
      way to where the other one stopped. */
  ghost predicate Agrees(a: Outcome, b: Outcome) {
    var s, t := a.session.core, b.session.core;
    match a.raised
    case Quiet => b == a
    case Protocol(_) => if b.raised.Reset? then t.cancelled && Onward(t, s) else b.raised == a.raised && t == s
    case Reset =>
      if b.raised.Reset? then s.cancelled && t.cancelled && (Onward(s, t) || Onward(t, s))
      else b.raised.Protocol? && s.cancelled && Onward(s, t)
    case Runtime => false
  }

  /** Chunk independence. For every byte stream within the capture limit, a split into non-empty chunks
      that ends without failure or cancellation gives the state of any other split; two splits that fail do so
      alike, with the same code, frames, session state and output. Only a cancellation stops a run early, and
      exactly where a cut falls after it: on a prefix of the other run's frames and output. */
  lemma ChunkingDoesNotMatter(env: Env, incoming: Bytes, chunks: seq<Bytes>, incoming2: Bytes, chunks2: seq<Bytes>)
    requires PREFACE <= incoming && PREFACE <= incoming2 && Nonempty(chunks) && Nonempty(chunks2)
    requires incoming + Concat(chunks) == incoming2 + Concat(chunks2)
    requires |incoming + Concat(chunks)| - |PREFACE| <= MAX_CAPTURE_BYTES
    ensures Agrees(Run(env, incoming, chunks), Run(env, incoming2, chunks2))
    ensures StopsAtCut(env, BEGAN, Rest(incoming) + chunks, Run(env, incoming, chunks))
  {
    hide Run, ReceiveAll, AtOnce, Waiting, Onward, StopsAtCut, Concat;
    var n := |PREFACE|;
    assert incoming[n..] + Concat(chunks) == (incoming + Concat(chunks))[n..];
    assert incoming2[n..] + Concat(chunks2) == (incoming2 + Concat(chunks2))[n..];
    BeganWaits();
    RunIsReceive(env, incoming, chunks);
    RunIsReceive(env, incoming2, chunks2);
    ChunksAreOne(env, BEGAN, Rest(incoming) + chunks);
    ChunksAreOne(env, BEGAN, Rest(incoming2) + chunks2);
    var v, w := Run(env, incoming, chunks), Run(env, incoming2, chunks2);
    if v.raised.Reset? && w.raised.Reset? {
      StopsAreOrdered(env, BEGAN, Rest(incoming) + chunks, v, Rest(incoming2) + chunks2, w);
    }
  }
}
