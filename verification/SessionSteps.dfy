/** One frame, whatever it is: the session invariant survives it, or it is answered with one GOAWAY. */
module SessionSteps {
  import opened Wire
  import opened Frames
  import opened H2
  import opened H2Proofs
  import opened SessionSpec
  import opened SessionInvariant
  import Adapter
  import FrameProofs
  import Hpack

  // --------------------------------------------------------------- the parser

  /** A frame as the forensic parser delivers it: typed by its header, or kept raw with an error. */
  predicate Typed(f: ParsedFrame) {
    if f.payload.Unknown? && f.payload.parseError.Some? then f.payload.kind == f.header.kind
    else Heads(f.header, f.payload)
  }

  lemma ParsedIsTyped(wire: Bytes, room: nat)
    ensures var r := FrameSpec(wire, SERVER_MAX_FRAME_SIZE, false, true, Some(room));
            r.Frame? ==>
              && Typed(r.frame) && Sane(r.frame) && EntryCount(r.frame.payload) <= r.used <= room
              && r.frame.raw <= wire && (Complete(wire, SERVER_MAX_FRAME_SIZE) && |wire| == FrameEnd(wire) ==> r.frame.raw == wire)
  {
    ParsedIsSane(wire, room);
    hide Sane;
    if Complete(wire, SERVER_MAX_FRAME_SIZE) {
      var h, p := HeaderOf(wire), wire[FRAME_HEADER_SIZE..FrameEnd(wire)];
      hide PayloadSpec, FrameProofs.Denotes;
      FrameProofs.EntriesStayInBudget(h, p, false, Some(room));
      if PayloadSpec(h, p, false, Some(room)).Parsed? {
        FrameProofs.AcceptedIsDenoted(h, p, false, Some(room));
        DenotedHeads(h, p, PayloadSpec(h, p, false, Some(room)).payload);
      }
      assert |wire| == FrameEnd(wire) ==> wire[..FrameEnd(wire)] == wire;
    }
  }

  lemma DenotedHeads(h: FrameHeader, p: Bytes, x: Payload)
    requires FrameProofs.Denotes(h, p, x, false)
    ensures Heads(h, x) && (x.Unknown? ==> x.parseError.None?)
  {
  }

  // ------------------------------------------------------------ header blocks

  lemma ContiguousNext(frames: seq<ParsedFrame>, f: ParsedFrame)
    requires Contiguous(frames)
    requires match BlockAfter(frames)
             case NoBlock => f.header.kind != CONTINUATION
             case OpenBlock(id, _) => f.header.kind == CONTINUATION && f.header.streamId == id
    ensures Contiguous(frames + [f])
  {
    forall i | 0 <= i < |frames + [f]|
      ensures match BlockAfter((frames + [f])[..i])
              case NoBlock => (frames + [f])[i].header.kind != CONTINUATION
              case OpenBlock(id, _) => (frames + [f])[i].header.kind == CONTINUATION && (frames + [f])[i].header.streamId == id
    {
      assert (frames + [f])[..i] == if i < |frames| then frames[..i] else frames;
    }
  }

  /** The block check accepts a frame only where section 6.10 of RFC 9113 does, a lone CONTINUATION aside. */
  lemma BlockChecked(s: Core, past: seq<ParsedFrame>, f: ParsedFrame)
    requires Silent(s) && BlockInv(s, past)
    ensures var r := OnHeaderBlock(s, f);
            && (r.raised.Quiet? ==>
                  && r.core == s.(continuation := r.core.continuation, headerBlockBytes := r.core.headerBlockBytes)
                  && (s.continuation.Some? ==> f.header.kind == CONTINUATION && f.header.streamId == s.continuation.value)
                  && (if !Blocky(f.header) then r.core == s
                      else r.core.continuation == if EndHeaders(f.header.flags) then None else Some(f.header.streamId))
                  && ((f.header.kind == CONTINUATION ==> s.continuation.Some?) ==> BlockInv(r.core, past + [f])))
            && (!r.raised.Quiet? ==> r.raised.Protocol? && Ended(r.core, r.raised.code))
  {
    hide Ended, Silent, BlockInv, Close;
    var r := OnHeaderBlock(s, f);
    CloseEnds(s, PROTOCOL_ERROR);
    BlockCountedEnds(s, f);
    if r.raised.Quiet? && (f.header.kind == CONTINUATION ==> s.continuation.Some?) { BlockNext(s, r.core, past, f); }
  }

  lemma BlockCountedEnds(s: Core, f: ParsedFrame)
    requires Silent(s)
    ensures Ended(Close(s.(headerBlockBytes := s.headerBlockBytes + f.header.length), ENHANCE_YOUR_CALM), ENHANCE_YOUR_CALM)
  {
    hide Ended, Close;
    CloseEnds(s.(headerBlockBytes := s.headerBlockBytes + f.header.length), ENHANCE_YOUR_CALM);
  }

  lemma BlockNext(s: Core, t: Core, past: seq<ParsedFrame>, f: ParsedFrame)
    requires BlockInv(s, past) && OnHeaderBlock(s, f) == Step(t, Quiet)
    requires f.header.kind == CONTINUATION ==> s.continuation.Some?
    ensures BlockInv(t, past + [f])
  {
    hide Close, Contiguous, BlockAfter, EndHeaders;
    ContiguousNext(past, f);
    BlockAfterNext(past, f);
  }

  lemma BlockAfterNext(frames: seq<ParsedFrame>, f: ParsedFrame)
    ensures var earlier, h := BlockAfter(frames), f.header;
            BlockAfter(frames + [f]) ==
              if !Blocky(h) then earlier
              else if EndHeaders(h.flags) then NoBlock
              else OpenBlock(h.streamId, h.length + if earlier.OpenBlock? then earlier.bytes else 0)
  {
    assert (frames + [f])[..|frames|] == frames;
  }

  // ------------------------------------------------------------- forwarded frames

  lemma ForwardedSame(c: Connection, d: Connection, x: Shape, f: ParsedFrame)
    requires Sane(f)
    ensures Explains(x, c, Forwarded(f)) ==> Explains(x, c, f)
    ensures PendingFollows(c, d, Forwarded(f)) ==> PendingFollows(c, d, f)
  {
  }

  /** Between the parser and h2: what `Forward` starts from. */
  ghost predicate Set(s: Core, past: seq<ParsedFrame>, f: ParsedFrame) {
    Clean(s) && Ready(s, past, f) && Sane(f)
  }

  /** What a frame leaves behind: all of it but the block, or one GOAWAY. */
  ghost predicate Passed(s: Core, past: seq<ParsedFrame>, f: ParsedFrame, r: Step) {
    match r.raised
    case Quiet =>
      && Clean(r.core) && ConnInv(r.core) && IdleInv(r.core) && BodyInv(r.core, past + [f], None)
      && Kept(s, r.core) && PendingFollows(s.conn, r.core.conn, f)
      && (!f.payload.PriorityUpdate? ==> Lighter(s, r.core))
    case Protocol(code) => Ended(r.core, code)
    case _ => false
  }

  lemma RefusalEnds(s: Core, c: Connection, code: int)
    requires Clean(s) && Goaways(c.outbound) == [code] && c.outbound != []
    ensures var r := AfterProtocolError(s.(conn := c), code); r.raised == Protocol(code) && Ended(r.core, code)
  {
    GoawaysAppend(s.written, c.outbound);
  }

  /** After the events: flush, or let the error through. */
  function Settle(t: Step): Step {
    match t.raised
    case Quiet => Step(Flush(t.core), Quiet)
    case Protocol(code) => AfterProtocolError(t.core, code)
    case _ => t
  }

  lemma HandledPasses(s: Core, d: Connection, past: seq<ParsedFrame>, f: ParsedFrame, t: Step)
    requires Handled(s, d, past, f, t) && PendingFollows(s.conn, d, f)
    ensures Passed(s, past, f, Settle(t))
  {
    if t.raised.Quiet? {
      FlushCleans(t.core);
      FlushKeeps(t.core, past + [f]);
    }
    hide BodyInv, IdleInv, ConnInv, Goaways;
  }

  lemma FlushKeeps(s: Core, frames: seq<ParsedFrame>)
    ensures ConnInv(s) ==> ConnInv(Flush(s))
    ensures IdleInv(s) ==> IdleInv(Flush(s))
    ensures BodyInv(s, frames, None) ==> BodyInv(Flush(s), frames, None)
  {
    hide Declared, LengthsValid, IsConnect, BodyBytes, OpenCount;
    SamePhasesOpenCount(s.conn, Flush(s).conn);
  }

  lemma AnswerHandled(env: Env, s: Core, d: Connection, events: seq<Event>, past: seq<ParsedFrame>, f: ParsedFrame, x: Shape)
    requires Ready(s, past, f) && Silent(s.(conn := d)) && ConnInv(s.(conn := d))
    requires Fits(x, s.conn, d, events) && Explains(x, s.conn, f)
    ensures Handled(s, d, past, f, ProcessEvents(env, s.(conn := d), events))
  {
    hide Handled, Ready, Silent, ConnInv, ProcessEvents;
    match x
    case Calm => HandledCalm(env, s, d, past, f);
    case Opens(_, _, _) => HandledOpens(env, s, d, past, f, x);
    case Trails(_, _) => HandledTrails(env, s, d, past, f, x);
    case Carries(_, _, _, _) => HandledCarries(env, s, d, past, f, x);
    case Resets(id) => HandledResets(env, s, d, past, f, id);
  }

  lemma FitsKeepsStreamsOk(x: Shape, c: Connection, d: Connection, events: seq<Event>)
    requires Fits(x, c, d, events) && StreamsOk(c)
    ensures StreamsOk(d)
  {
    assert forall id :: id in d.streams ==> PhaseOf(d, id).Some?;
    assert forall id :: PhaseOf(c, id).Some? ==> id in c.streams;
  }

  lemma FrameForwarded(env: Env, s: Core, past: seq<ParsedFrame>, f: ParsedFrame)
    requires Set(s, past, f) && !(f.header.kind == SETTINGS && f.payload.Settings? && !f.payload.ack)
    ensures Passed(s, past, f, Forward(env, s, f))
  {
    hide BodyInv, IdleInv, Handled, Passed, ReceiveFrame, ProcessEvents, AfterProtocolError, Goaways, PendingFollows, Explains;
    var g := Forwarded(f);
    var r := ReceiveFrame(env, s.conn, s.capture.frames, g);
    FrameIsAnswered(env, s.conn, s.capture.frames, g);
    GoawaysNone();
    if r.Refused? {
      RefusalEnds(s, r.c, r.code);
      EndedPasses(s, past, f, AfterProtocolError(s.(conn := r.c), r.code));
    } else {
      var x :| Fits(x, s.conn, r.c, r.events) && Explains(x, s.conn, g);
      ForwardedSame(s.conn, r.c, x, f);
      FitsKeepsStreamsOk(x, s.conn, r.c, r.events);
      AnswerHandled(env, s, r.c, r.events, past, f, x);
      HandledPasses(s, r.c, past, f, ProcessEvents(env, s.(conn := r.c), r.events));
    }
  }

  lemma GoawaysNone()
    ensures Goaways([]) == []
  {
  }

  lemma EndedPasses(s: Core, past: seq<ParsedFrame>, f: ParsedFrame, r: Step)
    requires r.raised.Protocol? && Ended(r.core, r.raised.code)
    ensures Passed(s, past, f, r)
  {
  }

  lemma SettingsForwarded(env: Env, s: Core, past: seq<ParsedFrame>, f: ParsedFrame)
    requires Set(s, past, f) && f.header.kind == SETTINGS && f.payload.Settings? && !f.payload.ack
    ensures Passed(s, past, f, Forward(env, s, f))
  {
    hide BodyInv, IdleInv, Handled, Passed, ProcessEvents, AfterProtocolError;
    var entries := f.payload.entries;
    var r := Adapter.ApplySettings(s.conn, entries);
    Adapter.SettingsTakeEffectInWireOrder(s.conn, entries);
    hide Adapter.ApplySettings, Adapter.SomeFaulty, Adapter.TooManyChanges;
    if r.Refused? {
      GoawaysOne([], GoawaySent(s.conn.highest, r.code));
      assert [] + [GoawaySent(s.conn.highest, r.code)] == r.c.outbound;
      RefusalEnds(s, r.c, r.code);
      EndedPasses(s, past, f, AfterProtocolError(s.(conn := r.c), r.code));
    } else {
      Adapter.SettingsKeepSettled(s.conn, entries);
      GoawaysOne([], SettingsAck);
      assert [] + [SettingsAck] == r.c.outbound;
      SettingsKeepPhases(s.conn, entries);
      FitsKeepsStreamsOk(Calm, s.conn, r.c, []);
      HandledCalm(env, s, r.c, past, f);
      HandledPasses(s, r.c, past, f, ProcessEvents(env, s.(conn := r.c), []));
    }
  }

  lemma SettingsKeepPhases(c: Connection, entries: seq<Entry>)
    ensures SamePhases(c, Adapter.InWireOrder(c, entries)) && Adapter.InWireOrder(c, entries).pending == c.pending
  {
    hide Adapter.SupportedOnly, Adapter.WindowAfter, Adapter.TableSizes, Effective, Hpack.Effectual, Hpack.ResizeAll;
  }

  // ------------------------------------------------------------- every other frame

  /** A frame the session handles itself changes nothing h2 knows. */
  lemma AsidePasses(s: Core, t: Core, past: seq<ParsedFrame>, f: ParsedFrame)
    requires Set(s, past, f) && !f.payload.Data? && !f.payload.Headers? && !f.payload.Continuation?
    requires t == s.(idle := t.idle, cancelled := t.cancelled) && IdleInv(t) && (s.cancelled ==> t.cancelled)
    requires !f.payload.PriorityUpdate? ==> t.idle == s.idle
    ensures Passed(s, past, f, Step(t, Quiet))
  {
    hide Declared, LengthsValid, IsConnect, BodyBytes, OpenCount, IdleInv;
    DataKnownNext(s, s.conn, past, f);
    if s.capture.streamId.Some? { BodyBytesNext(past, f, s.capture.streamId.value); }
  }

  lemma PriorityUpdated(s: Core, past: seq<ParsedFrame>, f: ParsedFrame)
    requires Set(s, past, f) && f.payload.PriorityUpdate?
    ensures Passed(s, past, f, OnPriorityUpdate(s, f.payload.prioritized))
  {
    hide Ended, BodyInv, ConnInv, Goaways;
    var id := f.payload.prioritized;
    var r := OnPriorityUpdate(s, id);
    if r.raised.Quiet? {
      AsidePasses(s, r.core, past, f);
    } else {
      var t := if id % 2 == 1 && id > s.conn.highest then s.(idle := s.idle + {id}) else s;
      CloseEnds(t, PROTOCOL_ERROR);
    }
  }

  lemma FailPasses(s: Core, past: seq<ParsedFrame>, f: ParsedFrame, code: int)
    requires Clean(s)
    ensures Passed(s, past, f, Fail(s, code))
  {
    GoawaysNone();
    CloseEnds(s, code);
    hide Ended;
  }

  lemma Dispatched(env: Env, s: Core, past: seq<ParsedFrame>, f: ParsedFrame)
    requires Set(s, past, f) && Typed(f)
    ensures Passed(s, past, f, Dispatch(env, s, f))
  {
    hide Passed, Forward, OnPriorityUpdate, BodyInv, ConnInv, Goaways, Close;
    if f.payload.Unknown? && f.payload.parseError.Some? { FailPasses(s, past, f, f.payload.parseError.value); }
    if f.payload.PriorityUpdate? { PriorityUpdated(s, past, f); }
    FailPasses(s, past, f, PROTOCOL_ERROR);
    if f.payload.Goaway? {
      AsidePasses(s, if f.payload.errorCode != NO_ERROR then s.(cancelled := true) else s, past, f);
    }
    if f.header.kind in {ALTSVC, ORIGIN, PRIORITY} { AsidePasses(s, s, past, f); }
    if f.payload.Settings? && !f.payload.ack { SettingsForwarded(env, s, past, f); }
    else { FrameForwarded(env, s, past, f); }
  }

  /** Before the frame is looked at, but with the frame already captured. */
  ghost predicate Poised(s: Core, past: seq<ParsedFrame>, f: ParsedFrame) {
    Set(s, past, f) && Typed(f) && PendingInv(s) && BlockInv(s, past)
  }

  predicate SameWeight(s: Core, t: Core) {
    t.conn == s.conn && t.idle == s.idle && t.capture.streamId == s.capture.streamId
  }

  /** The first frame is a SETTINGS frame and no acknowledgement, and its entries, if they can be read, are
      recorded; a later one changes nothing of this. */
  predicate OpenedBy(s: Core, t: Core, f: ParsedFrame) {
    && !t.firstFrame
    && if !s.firstFrame then t.capture.initialSettings == s.capture.initialSettings
       else f.header.kind == SETTINGS && !Ack(f.header.flags) && (f.payload.Settings? ==> Opening(f, t.capture.initialSettings))
  }

  lemma FirstFrameChecked(s: Core, past: seq<ParsedFrame>, f: ParsedFrame)
    requires Poised(s, past, f)
    ensures var r := OnFirstFrame(s, f);
            && (r.raised.Quiet? ==>
                  && Poised(r.core, past, f) && r.core.entries == s.entries && SameWeight(s, r.core)
                  && OpenedBy(s, r.core, f))
            && (!r.raised.Quiet? ==> r.raised.Protocol? && Ended(r.core, r.raised.code))
  {
    hide Ended, Close, Poised;
    PoisedEnds(s, past, f);
    var r := OnFirstFrame(s, f);
    if r.raised.Quiet? { StillPoised(s, r.core, past, f); }
  }

  lemma PoisedEnds(s: Core, past: seq<ParsedFrame>, f: ParsedFrame)
    requires Poised(s, past, f)
    ensures Ended(Close(s, PROTOCOL_ERROR), PROTOCOL_ERROR)
  {
    hide Ended, Close;
    CloseEnds(s, PROTOCOL_ERROR);
  }

  lemma StillPoised(s: Core, t: Core, past: seq<ParsedFrame>, f: ParsedFrame)
    requires Poised(s, past, f)
    requires t == s.(firstFrame := t.firstFrame, capture := s.capture.(initialSettings := t.capture.initialSettings))
    ensures Poised(t, past, f)
  {
    hide Declared, LengthsValid, IsConnect, BodyBytes, OpenCount, Contiguous, BlockAfter, Typed, Goaways, Settled, StreamsOk;
  }

  /** The continuation the session expects is the block h2 is collecting. */
  lemma PendingAgrees(s: Core, t: Core, f: ParsedFrame, d: Connection)
    requires PendingInv(s) && PendingFollows(s.conn, d, f)
    requires Typed(f) && (Heads(f.header, f.payload) || f.header.kind in {ALTSVC, ORIGIN})
    requires s.continuation.Some? ==> f.header.kind == CONTINUATION && f.header.streamId == s.continuation.value
    requires if !Blocky(f.header) then t.continuation == s.continuation
             else t.continuation == if EndHeaders(f.header.flags) then None else Some(f.header.streamId)
    requires t.conn == d
    ensures PendingInv(t) && (f.header.kind == CONTINUATION ==> s.continuation.Some?)
  {
  }

  /** What one captured frame does to the invariant. */
  lemma FrameProcessed(env: Env, s: Core, past: seq<ParsedFrame>, f: ParsedFrame)
    requires Poised(s, past, f)
    ensures var r := ProcessFrame(env, s, f);
            match r.raised
            case Quiet =>
              && Clean(r.core) && ConnInv(r.core) && IdleInv(r.core) && PendingInv(r.core)
              && BlockInv(r.core, past + [f]) && BodyInv(r.core, past + [f], None)
              && r.core.entries == s.entries && r.core.capture.frames == past + [f]
              && OpenedBy(s, r.core, f) && (s.firstFrame ==> f.payload.Settings?)
              && (!f.payload.PriorityUpdate? ==> Lighter(s, r.core))
            case Protocol(code) => Ended(r.core, code)
            case _ => false
  {
    hide OnFirstFrame, OnHeaderBlock, Dispatch, Goaways, BodyInv, ConnInv, IdleInv;
    FirstFrameChecked(s, past, f);
    var a := OnFirstFrame(s, f);
    if a.raised.Quiet? {
      BlockChecked(a.core, past, f);
      var b := OnHeaderBlock(a.core, f);
      if b.raised.Quiet? {
        BlockLeaves(a.core, b.core, past, f);
        Dispatched(env, b.core, past, f);
        var r := Dispatch(env, b.core, f);
        if r.raised.Quiet? {
          DispatchNeedsType(env, b.core, f);
          PendingAgrees(a.core, r.core, f, r.core.conn);
          BlockKept(b.core, r.core, past + [f]);
        }
      }
    }
  }

  lemma BlockLeaves(s: Core, t: Core, past: seq<ParsedFrame>, f: ParsedFrame)
    requires Set(s, past, f)
    requires t == s.(continuation := t.continuation, headerBlockBytes := t.headerBlockBytes)
    ensures Set(t, past, f)
  {
    hide Declared, LengthsValid, IsConnect, BodyBytes, OpenCount, Goaways;
  }

  lemma BlockKept(s: Core, t: Core, frames: seq<ParsedFrame>)
    requires BlockInv(s, frames) && Kept(s, t)
    ensures BlockInv(t, frames)
  {
    hide Contiguous, BlockAfter;
  }

  /** A frame that could not be typed never gets past its error, advertisements aside. */
  lemma DispatchNeedsType(env: Env, s: Core, f: ParsedFrame)
    requires Sane(f) && Typed(f) && Dispatch(env, s, f).raised.Quiet?
    ensures Heads(f.header, f.payload) || f.header.kind in {ALTSVC, ORIGIN}
  {
    hide Forward, OnPriorityUpdate, Close;
  }

  lemma OpeningNext(s: Core, u: Core, t: Core, f: ParsedFrame)
    requires OpeningInv(s) && u == s.(entries := u.entries, capture := s.capture.(frames := s.capture.frames + [f]))
    requires OpenedBy(u, t, f) && (u.firstFrame ==> f.payload.Settings?) && t.capture.frames == u.capture.frames
    ensures OpeningInv(t)
  {
  }

  /** One frame off the wire: the invariant survives it and the frame is captured verbatim, or the
      session fails with exactly one GOAWAY that carries the code of the failure. After the request has
      been accepted, only PRIORITY_UPDATE can add to the streams that count. */
  lemma FrameTaken(env: Env, s: Core, wire: Bytes)
    requires Inv(s)
    ensures var r := TakeFrame(env, s, wire);
            match r.raised
            case Quiet =>
              && Inv(r.core) && |r.core.capture.frames| == |s.capture.frames| + 1
              && s.capture.frames == r.core.capture.frames[..|s.capture.frames|]
              && var f := r.core.capture.frames[|s.capture.frames|];
                 && (Complete(wire, SERVER_MAX_FRAME_SIZE) && |wire| == FrameEnd(wire) ==> f.raw == wire)
                 && (!f.payload.PriorityUpdate? ==> Lighter(s, r.core))
            case Protocol(code) => Ended(r.core, code)
            case _ => false
  {
    hide FrameSpec, ProcessFrame, Typed, Sane, Complete, Ended, Close, SumEntries,
         ConnInv, IdleInv, BodyInv, BlockInv, PendingInv, Weight, OpeningInv, OpenedBy;
    var past := s.capture.frames;
    var room := MAX_CAPTURE_ENTRIES - s.entries;
    ParsedIsTyped(wire, room);
    match FrameSpec(wire, SERVER_MAX_FRAME_SIZE, false, true, Some(room))
    case Rejected(code, _) => EndsIfClean(s, code);
    case Frame(f, used) =>
      var t := s.(entries := s.entries + used);
      EndsIfClean(t, ENHANCE_YOUR_CALM);
      if |past| < MAX_CAPTURE_FRAMES {
        var u := t.(capture := t.capture.(frames := past + [f]));
        CapturePoised(s, u, f);
        FrameProcessed(env, u, past, f);
        SumNext(past, f);
        WeighsSame(s, u);
        var r := ProcessFrame(env, u, f);
        if r.raised.Quiet? { OpeningNext(s, u, r.core, f); }
      }
  }

  lemma SumNext(frames: seq<ParsedFrame>, f: ParsedFrame)
    ensures SumEntries(frames + [f]) == SumEntries(frames) + EntryCount(f.payload) && (frames + [f])[..|frames|] == frames
  {
    assert (frames + [f])[..|frames|] == frames;
  }

  lemma WeighsSame(s: Core, t: Core)
    requires SameWeight(s, t)
    ensures Weight(t) == Weight(s)
  {
  }

  lemma EndsIfClean(s: Core, code: int)
    requires Clean(s)
    ensures Ended(Close(s, code), code)
  {
    GoawaysNone();
    CloseEnds(s, code);
  }

  lemma CapturePoised(s: Core, u: Core, f: ParsedFrame)
    requires Inv(s) && Sane(f) && Typed(f)
    requires u == s.(entries := u.entries, capture := s.capture.(frames := s.capture.frames + [f]))
    ensures Poised(u, s.capture.frames, f)
  {
    hide Declared, LengthsValid, IsConnect, BodyBytes, OpenCount, Contiguous, BlockAfter;
    GoawaysNone();
  }
}
