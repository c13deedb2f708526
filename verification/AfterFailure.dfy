/** What a frame can do to a session that has already failed: exactly when h2 could make it say GOAWAY again. */
module AfterFailure {
  import opened Wire
  import opened Frames
  import opened H2
  import opened H2Proofs
  import opened SessionSpec
  import opened SessionInvariant
  import opened SessionRuns
  import opened SessionLife
  import Adapter
  import FrameProofs

  // ------------------------------------------------------------- the condition

  /** Frames the session deals with itself. */
  predicate KeptBack(s: Core, f: ParsedFrame) {
    || f.header.kind in {ALTSVC, ORIGIN, PUSH_PROMISE, PRIORITY}
    || (f.payload.Unknown? && f.payload.parseError.Some?) || IdleReset(s, f)
    || f.payload.PriorityUpdate? || f.payload.Goaway?
  }

  datatype Handed = Kept | Handed(core: Core, frame: ParsedFrame)

  /** The frame that reaches h2, and the session at that point, if one does. Nothing here depends on h2. */
  function HandedOver(s: Core, wire: Bytes): (r: Handed)
    ensures r.Handed? ==> Sane(r.frame) && r.core.conn == s.conn && !KeptBack(r.core, r.frame)
  {
    ParsedIsSane(wire, MAX_CAPTURE_ENTRIES - s.entries);
    match FrameSpec(wire, SERVER_MAX_FRAME_SIZE, false, true, Some(MAX_CAPTURE_ENTRIES - s.entries))
    case Rejected(_, _) => Kept
    case Frame(f, used) =>
      if |s.capture.frames| >= MAX_CAPTURE_FRAMES then Kept
      else
        var t := s.(entries := s.entries + used, capture := s.capture.(frames := s.capture.frames + [f]));
        var a := OnFirstFrame(t, f);
        var b := OnHeaderBlock(a.core, f);
        if a.raised != Quiet || b.raised != Quiet || KeptBack(b.core, f) then Kept else Handed(b.core, f)
  }

  predicate IsSettings(f: ParsedFrame) { f.header.kind == SETTINGS && f.payload.Settings? && !f.payload.ack }

  /** A frame that reaches h2 and that h2 may refuse: SETTINGS only if an entry is at fault or there were too
      many table sizes, any other frame on grounds of h2's own. */
  ghost predicate Provokes(s: Core, wire: Bytes) {
    var h := HandedOver(s, wire);
    && h.Handed?
    && (IsSettings(h.frame) ==>
          Adapter.SomeFaulty(s.conn, h.frame.payload.entries) || Adapter.TooManyChanges(s.conn, h.frame.payload.entries))
  }

  // ------------------------------------------------------------------ GOAWAYs

  /** Failed, and everything said or about to be said is one GOAWAY with this code. */
  ghost predicate SaidOnce(s: Core, code: int) {
    s.closed && Goaways(s.written) == [code] && Goaways(s.conn.outbound) == []
  }

  lemma CloseSaysNothing(s: Core, code: int, last: int)
    requires SaidOnce(s, code)
    ensures Goaways(Close(s, last).written) == [code] && SaidOnce(Close(s, last), code) && SaidOnce(Flush(s), code)
  {
    GoawaysAppend(s.written, s.conn.outbound);
  }

  lemma SettingsSay(c: Connection, entries: seq<Entry>)
    requires Goaways(c.outbound) == []
    ensures var r := ReceiveSettings(c, entries);
            && !r.Broken? && (r.Received? ==> r.events == [])
            && Goaways(r.c.outbound) == if r.Refused? then [r.code] else []
  {
    var r := ReceiveSettings(c, entries);
    if r.Refused? { GoawaysOne(c.outbound, GoawaySent(c.highest, r.code)); } else { GoawaysOne(c.outbound, SettingsAck); }
  }

  lemma {:induction false} ReplaySays(c: Connection, entries: seq<Entry>, i: nat)
    requires Goaways(c.outbound) == [] && i < |entries|
    ensures var r := Adapter.Replay(c, entries, i);
            (r.Received? ==> r.events == []) && Goaways(r.c.outbound) == if r.Refused? then [r.code] else []
    decreases |entries| - i
  {
    hide ReceiveSettings;
    SettingsSay(c, [entries[i]]);
    var r := ReceiveSettings(c, [entries[i]]);
    if r.Received? && i < |entries| - 1 && r.c.outbound == [SettingsAck] {
      ReplaySays(r.c.(outbound := []), entries, i + 1);
    }
  }

  lemma ApplySays(c: Connection, entries: seq<Entry>)
    requires Goaways(c.outbound) == []
    ensures var r := Adapter.ApplySettings(c, entries);
            (r.Received? ==> r.events == []) && Goaways(r.c.outbound) == if r.Refused? then [r.code] else []
  {
    hide ReceiveSettings, Adapter.Replay, Adapter.Working, Adapter.TableSizes, Adapter.DistinctIds, Goaways;
    var w := Adapter.Working(Setting(c, HEADER_TABLE_SIZE), entries);
    var d := c.(tableChanges := c.tableChanges + |Adapter.TableSizes(w)|);
    GoawaysOne(c.outbound, GoawaySent(c.highest, ENHANCE_YOUR_CALM));
    SettingsSay(d, w);
    Adapter.DistinctOrNot(w);
    if w != [] { ReplaySays(d, w, 0); }
  }

  // ------------------------------------------------------- both halves, exactly

  /** Every step before h2 leaves it at one GOAWAY, whether the frame is handed over or not. */
  lemma BeforeH2(env: Env, s: Core, wire: Bytes, code: int)
    requires SaidOnce(s, code)
    ensures var h, r := HandedOver(s, wire), TakeFrame(env, s, wire);
            if h.Handed? then SaidOnce(h.core, code) && r == Forward(env, h.core, h.frame) else SaidOnce(r.core, code)
  {
    hide FrameSpec, Forward, OnFirstFrame, OnHeaderBlock, Dispatch, KeptBack, Close;
    ParsedIsSane(wire, MAX_CAPTURE_ENTRIES - s.entries);
    match FrameSpec(wire, SERVER_MAX_FRAME_SIZE, false, true, Some(MAX_CAPTURE_ENTRIES - s.entries))
    case Rejected(failure, _) => CloseSaysNothing(s, code, failure);
    case Frame(f, used) =>
      CloseSaysNothing(s.(entries := s.entries + used), code, ENHANCE_YOUR_CALM);
      var t := s.(entries := s.entries + used, capture := s.capture.(frames := s.capture.frames + [f]));
      var a := OnFirstFrame(t, f);
      var b := OnHeaderBlock(a.core, f);
      ChecksSayNothing(t, f, code);
      ChecksSayNothing(a.core, f, code);
      if a.raised.Quiet? && b.raised.Quiet? { KeptBackSaysNothing(env, b.core, f, code); }
  }

  lemma ChecksSayNothing(s: Core, f: ParsedFrame, code: int)
    requires SaidOnce(s, code)
    ensures SaidOnce(OnFirstFrame(s, f).core, code) && SaidOnce(OnHeaderBlock(s, f).core, code)
    ensures OnFirstFrame(s, f).core.conn.outbound == [] || OnFirstFrame(s, f).core.conn == s.conn
    ensures OnFirstFrame(s, f).raised.Quiet? ==> OnFirstFrame(s, f).core.conn == s.conn
    ensures OnHeaderBlock(s, f).raised.Quiet? ==> OnHeaderBlock(s, f).core.conn == s.conn
  {
    hide Goaways;
    CloseSaysNothing(s, code, PROTOCOL_ERROR);
    CloseSaysNothing(s.(headerBlockBytes := s.headerBlockBytes + f.header.length), code, ENHANCE_YOUR_CALM);
  }

  lemma KeptBackSaysNothing(env: Env, s: Core, f: ParsedFrame, code: int)
    requires SaidOnce(s, code) && Sane(f)
    ensures if KeptBack(s, f) then SaidOnce(Dispatch(env, s, f).core, code) else Dispatch(env, s, f) == Forward(env, s, f)
  {
    hide Forward, Goaways, Close, Sane, OverPriorityLimit;
    CloseSaysNothing(s, code, PROTOCOL_ERROR);
    if f.payload.Unknown? && f.payload.parseError.Some? { CloseSaysNothing(s, code, f.payload.parseError.value); }
    if f.payload.PriorityUpdate? { CloseSaysNothing(s.(idle := s.idle + {f.payload.prioritized}), code, PROTOCOL_ERROR); }
  }

  /** Without provocation the session stays at its one GOAWAY, whatever h2 decides and however it is closed. */
  lemma UnprovokedStaysQuiet(env: Env, s: Core, wire: Bytes, code: int, last: int)
    requires Ended(s, code) && Settled(s.conn) && !Provokes(s, wire)
    ensures Goaways(Close(TakeFrame(env, s, wire).core, last).written) == [code]
  {
    hide Forward, HandedOver, TakeFrame, Goaways, Close, Sane, Settled, Adapter.SomeFaulty, Adapter.TooManyChanges,
         Adapter.ApplySettings, Adapter.InWireOrder;
    NothingQueued(s, code);
    BeforeH2(env, s, wire, code);
    var h, r := HandedOver(s, wire), TakeFrame(env, s, wire);
    if h.Handed? {
      Adapter.SettingsTakeEffectInWireOrder(s.conn, h.frame.payload.entries);
      AcceptedSettingsSayNothing(env, h.core, h.frame, code);
    }
    CloseSaysNothing(r.core, code, last);
  }

  lemma NothingQueued(s: Core, code: int)
    requires Ended(s, code)
    ensures SaidOnce(s, code) && s.conn.outbound == []
  {
  }

  lemma AcceptedSettingsSayNothing(env: Env, s: Core, f: ParsedFrame, code: int)
    requires SaidOnce(s, code) && Sane(f) && IsSettings(f) && !Adapter.ApplySettings(s.conn, f.payload.entries).Refused?
    ensures SaidOnce(Forward(env, s, f).core, code)
  {
    hide Adapter.ApplySettings, Goaways, ProcessEvent;
    ApplySays(s.conn, f.payload.entries);
    var r := Adapter.ApplySettings(s.conn, f.payload.entries);
    CloseSaysNothing(s.(conn := r.c), code, NO_ERROR);
  }

  /** An h2 that refuses every frame. */
  const STRICT := Env((_, _) => Corrupt, (_, _, _) => Some(PROTOCOL_ERROR), (_, _, _) => [], (_, _) => [], (_, _) => true)

  /** With provocation, some h2 makes the session say GOAWAY a second time when it is closed. */
  lemma ProvokedSaysItTwice(s: Core, wire: Bytes, code: int, last: int)
    requires Ended(s, code) && Settled(s.conn) && Provokes(s, wire)
    ensures exists again :: Goaways(Close(TakeFrame(STRICT, s, wire).core, last).written) == [code, again]
  {
    hide Forward, HandedOver, TakeFrame, Goaways, Sane, Close, Settled, Adapter.SomeFaulty, Adapter.TooManyChanges,
         Adapter.ApplySettings, Adapter.InWireOrder;
    NothingQueued(s, code);
    BeforeH2(STRICT, s, wire, code);
    var h := HandedOver(s, wire);
    if IsSettings(h.frame) { Adapter.SettingsTakeEffectInWireOrder(s.conn, h.frame.payload.entries); }
    RefusedSaysItTwice(h.core, h.frame, code, last);
  }

  lemma RefusedSaysItTwice(s: Core, f: ParsedFrame, code: int, last: int)
    requires SaidOnce(s, code) && Sane(f)
    requires IsSettings(f) ==> Adapter.ApplySettings(s.conn, f.payload.entries).Refused?
    ensures exists again :: Goaways(Close(Forward(STRICT, s, f).core, last).written) == [code, again]
  {
    hide Adapter.ApplySettings, ProcessEvents;
    var r := if IsSettings(f) then Adapter.ApplySettings(s.conn, f.payload.entries) else ReceiveFrame(STRICT, s.conn, s.capture.frames, Forwarded(f));
    if IsSettings(f) { ApplySays(s.conn, f.payload.entries); }
    else { GoawaysOne(s.conn.outbound, GoawaySent(s.conn.highest, PROTOCOL_ERROR)); }
    GoawaysAppend(s.written, r.c.outbound);
    assert Goaways(Close(Forward(STRICT, s, f).core, last).written) == [code, r.code];
  }

  lemma HarmlessIffUnprovoked(s: Core, wire: Bytes, code: int)
    requires Ended(s, code) && Settled(s.conn)
    ensures !Provokes(s, wire) <==>
            forall env: Env, last: int :: Goaways(Close(TakeFrame(env, s, wire).core, last).written) == [code]
  {
    hide TakeFrame, Provokes, Goaways, Close, Ended, Settled;
    if Provokes(s, wire) {
      ProvokedSaysItTwice(s, wire, code, NO_ERROR);
      assert Goaways(Close(TakeFrame(STRICT, s, wire).core, NO_ERROR).written) != [code];
    } else {
      forall env: Env, last: int ensures Goaways(Close(TakeFrame(env, s, wire).core, last).written) == [code] {
        UnprovokedStaysQuiet(env, s, wire, code, last);
      }
    }
  }

  /** One GOAWAY is promised only as long as nothing is read after the failure. Exactly: for a session that
      failed in some run, a further frame is harmless for every h2 if and only if it does not provoke. */
  lemma ReadingOnIsHarmlessIffUnprovoked(env: Env, incoming: Bytes, calls: seq<Call>, wire: Bytes)
    requires Serve(env, incoming, calls).session.core.closed
    ensures var r := Serve(env, incoming, calls);
            && r.raised.Protocol?
            && (!Provokes(r.session.core, wire) <==>
                forall h2: Env, last: int ::
                  Goaways(Close(TakeFrame(h2, r.session.core, wire).core, last).written) == [r.raised.code])
  {
    hide Serve, Intake, TakeFrame, Provokes, Goaways, Close, Ended, Settled;
    ServeSpoken(env, incoming, calls);
    var r := Serve(env, incoming, calls);
    HarmlessIffUnprovoked(r.session.core, wire, r.raised.code);
  }

  const OCTETS: Bytes := [0, 0, 0, 0, 0, 0, 0, 0]

  /** The plainest case: a PING after a failure, once the client's SETTINGS have been seen. */
  lemma PingProvokes(s: Core, code: int)
    requires Ended(s, code) && !s.firstFrame && s.continuation.None? && |s.capture.frames| < MAX_CAPTURE_FRAMES
    ensures Provokes(s, FrameBytes(PING, 0, 0, OCTETS))
    ensures exists again :: Goaways(Close(TakeFrame(STRICT, s, FrameBytes(PING, 0, 0, OCTETS)).core, NO_ERROR).written) == [code, again]
  {
    hide FrameSpec, TakeFrame, Goaways, Close;
    var h, room := FrameHeader(8, PING, 0, 0), Some(MAX_CAPTURE_ENTRIES - s.entries);
    FrameProofs.BuiltFrameParses(h, OCTETS, Ping(OCTETS, false), 0, SERVER_MAX_FRAME_SIZE, false, true, room);
    NothingQueued(s, code);
    BeforeH2(STRICT, s, FrameBytes(PING, 0, 0, OCTETS), code);
    var handed := HandedOver(s, FrameBytes(PING, 0, 0, OCTETS));
    RefusedSaysItTwice(handed.core, handed.frame, code, NO_ERROR);
  }

  // ------------------------------------------------- a run that gets there

  /** The client's SETTINGS, and a reset of a stream that was never opened. */
  const HELLO: Bytes := FrameBytes(SETTINGS, 0, 0, [])
  const BLUNDER: Bytes := FrameBytes(RST_STREAM, 0, 1, [0, 0, 0, 0])

  lemma HelloParses(room: Option<int>)
    requires !Overdrawn(0, room)
    ensures var h := FrameHeader(0, SETTINGS, 0, 0);
            FrameSpec(HELLO, SERVER_MAX_FRAME_SIZE, false, true, room) ==
            Frame(ParsedFrame(h, Settings(false, Some(map[]), []), HELLO), 0)
  {
    var none: seq<Entry> := [];
    assert RenderEntries(none) == [] && Effective(none) == map[];
    FrameProofs.SettingsRoundTrip(none, [], SERVER_MAX_FRAME_SIZE, false, true, room);
  }

  lemma BlunderParses(room: Option<int>)
    ensures var h := FrameHeader(4, RST_STREAM, 0, 1);
            FrameSpec(BLUNDER, SERVER_MAX_FRAME_SIZE, false, true, room) ==
            Frame(ParsedFrame(h, RstStream(0), BLUNDER), 0)
  {
    var h := FrameHeader(4, RST_STREAM, 0, 1);
    FrameProofs.BuiltFrameParses(h, [0, 0, 0, 0], RstStream(0), 0, SERVER_MAX_FRAME_SIZE, false, true, room);
  }

  /** After the client's empty SETTINGS nothing has changed but that they were seen and acknowledged. */
  lemma HelloTaken(env: Env)
    ensures var r := TakeFrame(env, BEGAN.core, HELLO);
            && r.raised.Quiet? && !r.core.firstFrame && r.core.continuation.None? && |r.core.capture.frames| == 1
            && r.core.entries == 0 && r.core.conn.highest == 0
  {
    hide FrameSpec;
    HelloParses(Some(MAX_CAPTURE_ENTRIES));
    var none: seq<Entry> := [];
    assert Adapter.Working(4096, none) == none && Adapter.TableSizes(none) == [];
    assert Effective(none) == map[] && FirstInvalid(none).None?;
    hide Effective, FirstInvalid, Adapter.Working, Adapter.TableSizes;
  }

  lemma BlunderTaken(env: Env, s: Core)
    requires !s.firstFrame && s.continuation.None? && |s.capture.frames| == 1 && s.entries == 0 && s.conn.highest == 0
    ensures var r := TakeFrame(env, s, BLUNDER);
            && r.raised == Protocol(PROTOCOL_ERROR) && !r.core.firstFrame && r.core.continuation.None?
            && |r.core.capture.frames| == 2
  {
    hide FrameSpec;
    BlunderParses(Some(MAX_CAPTURE_ENTRIES));
  }

  lemma BuiltFrameIsCut(kind: byte, streamId: nat, payload: Bytes, more: Bytes)
    requires |payload| <= SERVER_MAX_FRAME_SIZE && streamId <= MAX_STREAM_ID
    ensures var wire := FrameBytes(kind, 0, streamId, payload);
            && HasFrame(wire + more) && FrameEnd(wire + more) == |wire|
            && (wire + more)[..|wire|] == wire && (wire + more)[|wire|..] == more
  {
    var wire := FrameBytes(kind, 0, streamId, payload);
    FrameProofs.BuiltFrameIsRead(kind, 0, streamId, payload);
    assert (wire + more)[..3] == wire[..3];
  }

  lemma DrainOne(env: Env, s: Session, wire: Bytes, more: Bytes)
    requires s.buffer == wire + more && HasFrame(s.buffer) && FrameEnd(s.buffer) == |wire|
    ensures var r := TakeFrame(env, s.core, wire);
            var t := s.(buffer := more, core := r.core);
            Drain(env, s) == if r.raised != Quiet then Outcome(t, r.raised) else Drain(env, t)
  {
    hide TakeFrame, Close;
    assert s.buffer[..|wire|] == wire && s.buffer[|wire|..] == more;
  }

  lemma BlunderDrains(env: Env)
    ensures var data := HELLO + BLUNDER;
            var r := Drain(env, BEGAN.(buffer := data, captureBytes := |data|));
            && r.raised == Protocol(PROTOCOL_ERROR) && !r.session.core.firstFrame && r.session.core.continuation.None?
            && |r.session.core.capture.frames| == 2
  {
    hide TakeFrame, Drain, FrameBytes, HasFrame, FrameEnd;
    HelloTaken(env);
    var a := TakeFrame(env, BEGAN.core, HELLO).core;
    BlunderTaken(env, a);
    var data := HELLO + BLUNDER;
    var s := BEGAN.(buffer := data, captureBytes := |data|);
    BuiltFrameIsCut(SETTINGS, 0, [], BLUNDER);
    BuiltFrameIsCut(RST_STREAM, 1, [0, 0, 0, 0], []);
    assert BLUNDER + [] == BLUNDER;
    DrainOne(env, s, HELLO, BLUNDER);
    DrainOne(env, s.(buffer := BLUNDER, core := a), BLUNDER, []);
  }

  lemma ServeReceives(env: Env, data: Bytes)
    requires data != []
    ensures Serve(env, PREFACE + data, []) == Receive(env, BEGAN, data)
  {
    hide Receive, Text;
    assert PREFACE <= PREFACE + data && (PREFACE + data)[|PREFACE|..] == data;
  }

  /** Such sessions exist: after SETTINGS and a reset of a stream that was never opened, a PING would provoke. */
  lemma FailedSessionIsReached(env: Env)
    ensures var r := Serve(env, PREFACE + (HELLO + BLUNDER), []);
            && r.raised == Protocol(PROTOCOL_ERROR) && r.session.core.closed
            && Provokes(r.session.core, FrameBytes(PING, 0, 0, OCTETS))
  {
    hide Provokes, Text, FrameBytes, Receive, Drain, Serve, Inv, Ended, HasFrame, TooLong, Took;
    var data := HELLO + BLUNDER;
    BlunderDrains(env);
    ReceivesAll(env, data);
    ServeReceives(env, data);
    BeganWaits();
    ChunkKeeps(env, BEGAN, data);
    var s := Receive(env, BEGAN, data).session.core;
    EndedIsClosed(s, PROTOCOL_ERROR);
    PingProvokes(s, PROTOCOL_ERROR);
  }

  lemma ReceivesAll(env: Env, data: Bytes)
    requires 0 < |data| <= MAX_CAPTURE_BYTES && !Drain(env, BEGAN.(buffer := data, captureBytes := |data|)).raised.Quiet?
    ensures Receive(env, BEGAN, data) == Drain(env, BEGAN.(buffer := data, captureBytes := |data|))
  {
    hide Drain;
    assert [] + data == data;
  }
}
