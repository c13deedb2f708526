/** What every frame keeps: the session invariant, and the one GOAWAY a failure sends. */
module SessionInvariant {
  import opened Wire
  import opened Frames
  import opened H2
  import opened H2Proofs
  import opened SessionSpec
  import Adapter
  import Decimal
  import HttpList

  // ------------------------------------------------------------------- output

  ghost predicate Silent(s: Core) {
    !s.closed && Goaways(s.written) == [] && Goaways(s.conn.outbound) == []
  }

  /** Nothing queued, nothing failed, no GOAWAY sent. */
  ghost predicate Clean(s: Core) { !s.closed && s.conn.outbound == [] && Goaways(s.written) == [] }

  /** Failed, and exactly one GOAWAY has been sent, with this code. */
  ghost predicate Ended(s: Core, code: int) {
    s.closed && s.conn.outbound == [] && Goaways(s.written) == [code]
  }

  lemma CloseEnds(s: Core, code: int)
    requires Silent(s)
    ensures Ended(Close(s, code), code)
  {
    var last := if s.capture.streamId.Some? then s.capture.streamId.value else 0;
    GoawaysOne(s.conn.outbound, GoawaySent(last, code));
    GoawaysAppend(s.written, s.conn.outbound + [GoawaySent(last, code)]);
  }

  lemma FlushCleans(s: Core)
    requires Silent(s)
    ensures Clean(Flush(s))
  {
    GoawaysAppend(s.written, s.conn.outbound);
  }

  // ------------------------------------------------------------ header blocks

  datatype Block = NoBlock | OpenBlock(stream: nat, bytes: nat)

  predicate Blocky(h: FrameHeader) { h.kind == HEADERS || h.kind == CONTINUATION }

  /** The header block left open by a list of frames, read off the frames alone. */
  function BlockAfter(frames: seq<ParsedFrame>): Block {
    if frames == [] then NoBlock
    else
      var earlier, h := BlockAfter(frames[..|frames| - 1]), frames[|frames| - 1].header;
      if !Blocky(h) then earlier
      else if EndHeaders(h.flags) then NoBlock
      else OpenBlock(h.streamId, h.length + if earlier.OpenBlock? then earlier.bytes else 0)
  }

  /** Section 6.10 of RFC 9113: nothing but CONTINUATION on the same stream inside a block, and no
      CONTINUATION outside one. */
  ghost predicate Contiguous(frames: seq<ParsedFrame>) {
    forall i :: 0 <= i < |frames| ==>
      match BlockAfter(frames[..i])
      case NoBlock => frames[i].header.kind != CONTINUATION
      case OpenBlock(id, _) => frames[i].header.kind == CONTINUATION && frames[i].header.streamId == id
  }

  ghost predicate BlockInv(s: Core, frames: seq<ParsedFrame>) {
    && Contiguous(frames)
    && s.headerBlockBytes <= MAX_HEADER_BLOCK
    && BlockAfter(frames) == (if s.continuation.None? then NoBlock else OpenBlock(s.continuation.value, s.headerBlockBytes))
    && (s.continuation.None? ==> s.headerBlockBytes == 0)
  }

  ghost predicate PendingInv(s: Core) {
    && (s.conn.pending.Some? <==> s.continuation.Some?)
    && (s.conn.pending.Some? ==> s.conn.pending.value.stream == s.continuation.value)
  }

  // ---------------------------------------------------------------- priorities

  ghost predicate IdleInv(s: Core) {
    && (forall i :: i in s.idle ==> i % 2 == 1 && i > s.conn.highest)
    && Weight(s) <= MAX_OPEN_STREAMS
  }

  /** Section 7.1 of RFC 9218: prioritised idle streams count together with open ones. */
  function Weight(s: Core): nat { |s.idle| + OpenCount(s.conn) }

  // ----------------------------------------------------------------- the body

  /** Body octets the captured frames carry for a stream. */
  function BodyBytes(frames: seq<ParsedFrame>, id: nat): nat {
    if frames == [] then 0
    else
      var f := frames[|frames| - 1];
      BodyBytes(frames[..|frames| - 1], id) +
      if f.payload.Data? && f.header.streamId == id then |f.payload.data| else 0
  }

  ghost predicate DataKnown(s: Core, frames: seq<ParsedFrame>) {
    forall i :: 0 <= i < |frames| && frames[i].payload.Data? ==> frames[i].header.streamId in s.conn.streams
  }

  predicate IsConnect(fields: Fields) { Lookup(fields, Text(":method")) == Some(Text("CONNECT")) }

  /** An expectation that cannot be met: the list cannot be read, or it asks for more than 100 (Continue). */
  predicate Unmet(fields: Fields) {
    match HttpList.Parse(ValuesOf(fields, Text("expect")))
    case None => true
    case Some(members) => exists i :: 0 <= i < |members| && Lower(members[i]) != Text("100-continue")
  }

  predicate LengthsValid(fields: Fields) { Decimal.LengthsAgree(ValuesOf(fields, CONTENT_LENGTH)) }

  /** The accepted request while its stream is neither reset nor abandoned. `due` says that the end of
      the stream has been reported but not handled yet. */
  ghost predicate RequestInv(s: Core, frames: seq<ParsedFrame>, id: nat, due: bool) {
    && s.capture.headers.Some?
    && PhaseOf(s.conn, id).Some? && PhaseOf(s.conn, id) != Some(ClosedByReset)
    && s.requestBytes == BodyBytes(frames, id)
    && (RemoteEnded(PhaseOf(s.conn, id).value) && s.expected.Some? && !due ==> s.expected.value == s.requestBytes)
    && (s.requestReady <==> s.capture.expectationFailed || IsConnect(s.capture.headers.value)
                            || (RemoteEnded(PhaseOf(s.conn, id).value) && !due))
  }

  ghost predicate BodyInv(s: Core, frames: seq<ParsedFrame>, due: Option<nat>) {
    && DataKnown(s, frames)
    && s.requestBytes <= Decimal.MAX_REQUEST_BODY
    && match s.capture.streamId
       case None => s.requestBytes == 0 && !s.requestReady && s.expected.None? && !s.capture.expectationFailed
       case Some(id) =>
         && s.capture.headers.Some? && id in s.conn.streams
         && LengthsValid(s.capture.headers.value) && s.expected == Declared(s.capture.headers.value)
         && (s.expected.Some? ==> s.expected.value <= Decimal.MAX_REQUEST_BODY)
         && (s.capture.expectationFailed <==> Unmet(s.capture.headers.value))
         && (!s.cancelled ==> RequestInv(s, frames, id, due == Some(id)))
  }

  // ------------------------------------------------------------ the invariant

  ghost predicate ConnInv(s: Core) {
    Settled(s.conn) && Adapter.Announced(s.conn.encoder) && StreamsOk(s.conn)
  }

  function SumEntries(frames: seq<ParsedFrame>): nat {
    if frames == [] then 0
    else SumEntries(frames[..|frames| - 1]) + EntryCount(frames[|frames| - 1].payload)
  }

  ghost predicate CaptureInv(s: Core) {
    && |s.capture.frames| <= MAX_CAPTURE_FRAMES
    && SumEntries(s.capture.frames) <= s.entries <= MAX_CAPTURE_ENTRIES
  }

  /** The client's SETTINGS, with its entries recorded. */
  predicate Opening(f: ParsedFrame, recorded: Option<seq<Entry>>) {
    f.header.kind == SETTINGS && !Ack(f.header.flags) && f.payload.Settings? && recorded == Some(f.payload.entries)
  }

  /** No frame opens a connection but the client's SETTINGS. */
  ghost predicate OpeningInv(s: Core) {
    if s.capture.frames == [] then s.firstFrame
    else !s.firstFrame && Opening(s.capture.frames[0], s.capture.initialSettings)
  }

  /** What holds between frames as long as nothing has been raised. */
  ghost predicate Inv(s: Core) {
    && Clean(s) && ConnInv(s) && CaptureInv(s) && OpeningInv(s) && IdleInv(s) && PendingInv(s)
    && BlockInv(s, s.capture.frames) && BodyInv(s, s.capture.frames, None)
  }

  /** Fields that event handling never touches. */
  ghost predicate Kept(s: Core, t: Core) {
    && t.entries == s.entries && t.firstFrame == s.firstFrame
    && t.continuation == s.continuation && t.headerBlockBytes == s.headerBlockBytes
    && t.capture.frames == s.capture.frames && t.capture.initialSettings == s.capture.initialSettings
  }

  /** Once a request has been accepted, streams only go away. */
  ghost predicate Lighter(s: Core, t: Core) { s.capture.streamId.Some? ==> Weight(t) <= Weight(s) }

  /** Before its events are handled: `s` still carries the request of the earlier frames. */
  ghost predicate Ready(s: Core, past: seq<ParsedFrame>, f: ParsedFrame) {
    Silent(s) && ConnInv(s) && IdleInv(s) && BodyInv(s, past, None) && s.capture.frames == past + [f]
  }

  ghost predicate Handled(s: Core, d: Connection, past: seq<ParsedFrame>, f: ParsedFrame, r: Step) {
    match r.raised
    case Quiet =>
      && Silent(r.core) && ConnInv(r.core) && IdleInv(r.core) && BodyInv(r.core, past + [f], None)
      && Kept(s, r.core) && r.core.conn.pending == d.pending && Lighter(s, r.core)
    case Protocol(code) => Ended(r.core, code)
    case _ => false
  }

  // ------------------------------------------------------------------ helpers

  lemma BodyBytesNext(frames: seq<ParsedFrame>, f: ParsedFrame, id: nat)
    ensures BodyBytes(frames + [f], id) ==
            BodyBytes(frames, id) + if f.payload.Data? && f.header.streamId == id then |f.payload.data| else 0
  {
    assert (frames + [f])[..|frames|] == frames;
  }

  lemma {:induction false} NoBodyYet(s: Core, frames: seq<ParsedFrame>, id: nat)
    requires DataKnown(s, frames) && id !in s.conn.streams
    ensures BodyBytes(frames, id) == 0
  {
    if frames != [] {
      var n := |frames| - 1;
      assert forall i :: 0 <= i < n ==> frames[..n][i] == frames[i];
      NoBodyYet(s, frames[..n], id);
    }
  }

  lemma DataKnownNext(s: Core, d: Connection, frames: seq<ParsedFrame>, f: ParsedFrame)
    requires DataKnown(s, frames)
    requires forall id :: id in s.conn.streams ==> id in d.streams
    requires f.payload.Data? ==> f.header.streamId in d.streams
    ensures DataKnown(s.(conn := d), frames + [f])
  {
  }

  // ------------------------------------------------- the five answers, handled

  lemma HandledCalm(env: Env, s: Core, d: Connection, past: seq<ParsedFrame>, f: ParsedFrame)
    requires Ready(s, past, f) && Silent(s.(conn := d)) && ConnInv(s.(conn := d))
    requires SamePhases(s.conn, d)
    requires f.payload.Data? ==> PhaseOf(s.conn, f.header.streamId) == Some(ClosedByReset)
    ensures Handled(s, d, past, f, ProcessEvents(env, s.(conn := d), []))
  {
    SameOpenCount(s.conn, d);
    assert forall id :: id in s.conn.streams ==> PhaseOf(d, id).Some?;
    DataKnownNext(s, d, past, f);
    if s.capture.streamId.Some? {
      BodyBytesNext(past, f, s.capture.streamId.value);
    }
  }

  /** A stream that ends or is reset makes room, and leaves the idle ones idle. */
  lemma MovedIdle(s: Core, d: Connection, id: nat, p: Phase)
    requires IdleInv(s) && OnlyMoved(s.conn, d, id, p) && Live(s.conn.streams[id])
    ensures IdleInv(s.(conn := d)) && Weight(s.(conn := d)) <= Weight(s)
  {
    hide OpenCount;
    MovedOpenCount(s.conn, d, id, p);
  }

  /** What the connection and the idle streams decide does not depend on the rest. */
  lemma Aside(s: Core, t: Core)
    requires t.conn == s.conn && t.idle == s.idle && t.closed == s.closed && t.written == s.written
    ensures Silent(t) == Silent(s) && ConnInv(t) == ConnInv(s) && IdleInv(t) == IdleInv(s) && Weight(t) == Weight(s)
  {
  }

  lemma HandledResets(env: Env, s: Core, d: Connection, past: seq<ParsedFrame>, f: ParsedFrame, id: nat)
    requires Ready(s, past, f) && Silent(s.(conn := d)) && ConnInv(s.(conn := d))
    requires Fits(Resets(id), s.conn, d, [StreamReset(id)]) && Explains(Resets(id), s.conn, f)
    ensures Handled(s, d, past, f, ProcessEvents(env, s.(conn := d), [StreamReset(id)]))
  {
    hide OnRequest, OnTrailers, OnData, OnEnd, Goaways, BodyInv, Silent, ConnInv, IdleInv, Weight;
    var t := if s.capture.streamId == Some(id) then s.(conn := d, cancelled := true) else s.(conn := d);
    MovedIdle(s, d, id, ClosedByReset);
    Aside(s.(conn := d), t);
    assert [StreamReset(id)][1..] == [];
    ResetBody(s, t, past, f, id);
  }

  lemma ResetBody(s: Core, t: Core, past: seq<ParsedFrame>, f: ParsedFrame, id: nat)
    requires BodyInv(s, past, None) && OnlyMoved(s.conn, t.conn, id, ClosedByReset) && Explains(Resets(id), s.conn, f)
    requires t == s.(conn := t.conn, cancelled := t.cancelled) && t.cancelled == (s.cancelled || s.capture.streamId == Some(id))
    ensures BodyInv(t, past + [f], None)
  {
    hide Declared, LengthsValid, IsConnect, Unmet, BodyBytes;
    assert forall j :: j in s.conn.streams ==> PhaseOf(t.conn, j).Some?;
    DataKnownNext(s, t.conn, past, f);
    if s.capture.streamId.Some? { BodyBytesNext(past, f, s.capture.streamId.value); }
  }

  /** Event handling in progress: everything but the body is as after the frame. */
  ghost predicate Midway(s: Core, t: Core, d: Connection, past: seq<ParsedFrame>, f: ParsedFrame, due: Option<nat>) {
    && Silent(t) && ConnInv(t) && IdleInv(t) && BodyInv(t, past + [f], due)
    && Kept(s, t) && t.conn.pending == d.pending && Lighter(s, t)
  }

  /** The optional END_STREAM event that follows DATA, trailers or a request. */
  lemma HandledEnd(env: Env, s: Core, t: Core, d: Connection, past: seq<ParsedFrame>, f: ParsedFrame, id: nat, ended: bool)
    requires Midway(s, t, d, past, f, if ended then Some(id) else None)
    requires ended && t.capture.streamId == Some(id) ==> PhaseOf(t.conn, id).Some? && RemoteEnded(PhaseOf(t.conn, id).value)
    ensures Handled(s, d, past, f, ProcessEvents(env, t, EndEvents(id, ended)))
  {
    EndHandled(env, t, id, ended);
    hide ProcessEvents, BodyInv, ConnInv, IdleInv, Silent, Weight, OnEnd;
    if ended {
      EndBody(t, past + [f], id);
      CloseEnds(t, PROTOCOL_ERROR);
    }
  }

  lemma EndHandled(env: Env, t: Core, id: nat, ended: bool)
    ensures ProcessEvents(env, t, EndEvents(id, ended)) == if ended then OnEnd(t, id) else Step(t, Quiet)
  {
    hide OnRequest, OnTrailers, OnData, OnEnd;
    if ended { assert EndEvents(id, ended)[1..] == []; }
  }

  /** The end of a stream that has been reported is then handled: the request is ready, or its length is wrong. */
  lemma EndBody(t: Core, frames: seq<ParsedFrame>, id: nat)
    requires BodyInv(t, frames, Some(id))
    requires t.capture.streamId == Some(id) ==> PhaseOf(t.conn, id).Some? && RemoteEnded(PhaseOf(t.conn, id).value)
    ensures var r := OnEnd(t, id);
            if r.raised.Quiet?
            then BodyInv(r.core, frames, None) && r.core == t.(requestReady := r.core.requestReady)
                 && (Silent(t) ==> Silent(r.core)) && (ConnInv(t) ==> ConnInv(r.core)) && (IdleInv(t) ==> IdleInv(r.core)) && Weight(r.core) == Weight(t)
            else r == Fail(t, PROTOCOL_ERROR)
  {
    hide Declared, LengthsValid, IsConnect, Unmet, Settled, Goaways, OpenCount, BodyBytes, Close, StreamsOk;
  }

  lemma EventsSplit(env: Env, s: Core, e: Event, rest: seq<Event>)
    ensures var r := ProcessEvent(env, s, e);
            ProcessEvents(env, s, [e] + rest) == if r.raised != Quiet then r else ProcessEvents(env, r.core, rest)
  {
    assert ([e] + rest)[1..] == rest;
  }

  lemma AcknowledgeIsSilent(env: Env, s: Core, flow: nat, id: nat)
    requires Silent(s)
    ensures Silent(s.(conn := Acknowledge(env, s.conn, flow, id)))
  {
    var credits := Credits(env.replenish(s.conn.credits, flow, id));
    NoGoaways(credits);
    GoawaysAppend(s.conn.outbound, credits);
  }

  lemma DataBody(s: Core, t: Core, past: seq<ParsedFrame>, f: ParsedFrame, x: Shape)
    requires BodyInv(s, past, None) && x.Carries? && Explains(x, s.conn, f)
    requires x.id in s.conn.streams && (s.conn.streams[x.id].phase.Open? || s.conn.streams[x.id].phase.HalfClosedLocal?)
    requires OnlyMoved(s.conn, t.conn, x.id, if x.ended then EndPhase(s.conn.streams[x.id].phase) else s.conn.streams[x.id].phase)
    requires t == s.(conn := t.conn, requestBytes := t.requestBytes)
    requires t.requestBytes == s.requestBytes + if s.capture.streamId == Some(x.id) then |x.data| else 0
    requires t.requestBytes <= Decimal.MAX_REQUEST_BODY
    ensures BodyInv(t, past + [f], if x.ended then Some(x.id) else None)
  {
    hide Declared, LengthsValid, IsConnect, Unmet, BodyBytes;
    assert forall j :: j in s.conn.streams ==> PhaseOf(t.conn, j).Some?;
    DataKnownNext(s, t.conn, past, f);
    if s.capture.streamId.Some? {
      BodyBytesNext(past, f, s.capture.streamId.value);
    }
  }

  /** Acknowledging data queues credit and changes nothing else that matters. */
  lemma AcknowledgeKeeps(env: Env, s: Core, flow: nat, id: nat)
    requires Silent(s) && ConnInv(s) && IdleInv(s)
    ensures var t := s.(conn := Acknowledge(env, s.conn, flow, id));
            && Silent(t) && ConnInv(t) && IdleInv(t) && Weight(t) == Weight(s)
            && t.conn.streams == s.conn.streams && t.conn.highest == s.conn.highest && t.conn.pending == s.conn.pending
  {
    hide Goaways;
    AcknowledgeIsSilent(env, s, flow, id);
    SamePhasesOpenCount(s.conn, Acknowledge(env, s.conn, flow, id));
  }

  lemma DataMidway(env: Env, s: Core, d: Connection, past: seq<ParsedFrame>, f: ParsedFrame, x: Shape)
    requires Ready(s, past, f) && Silent(s.(conn := d)) && ConnInv(s.(conn := d)) && x.Carries?
    requires Fits(x, s.conn, d, [DataReceived(x.id, x.data, x.flow)] + EndEvents(x.id, x.ended)) && Explains(x, s.conn, f)
    ensures var r := OnData(env, s.(conn := d), x.id, x.data, x.flow);
            && (r.raised.Quiet? ==>
                  && Midway(s, r.core, d, past, f, if x.ended then Some(x.id) else None)
                  && PhaseOf(r.core.conn, x.id) == PhaseOf(d, x.id))
            && (!r.raised.Quiet? ==> r.raised.Protocol? && Ended(r.core, r.raised.code))
  {
    BodyIsBounded(s, past);
    hide Goaways, Ended, Acknowledge, BodyInv, Silent, ConnInv, IdleInv, OnlyMoved, Weight, Fits, Explains, OnData, CountData, Midway;
    var t := CountData(s.(conn := d), x.id, x.data);
    var u := t.(conn := Acknowledge(env, d, x.flow, x.id));
    DataMakesRoom(s, d, x);
    DataCounted(s, d, t, x);
    OnDataIs(env, s.(conn := d), x.id, x.data, x.flow);
    CloseEnds(t, ENHANCE_YOUR_CALM);
    AcknowledgeKeeps(env, t, x.flow, x.id);
    StaysMoved(s.conn, d, u.conn, x);
    if t.requestBytes <= Decimal.MAX_REQUEST_BODY {
      DataBody(s, u, past, f, x);
      OnlyBodyMoved(s, u, d, past, f, if x.ended then Some(x.id) else None);
    }
  }

  lemma OnDataIs(env: Env, s: Core, id: nat, data: Bytes, flow: nat)
    requires s.requestBytes <= Decimal.MAX_REQUEST_BODY
    ensures var t := CountData(s, id, data);
            OnData(env, s, id, data, flow) ==
              if t.requestBytes > Decimal.MAX_REQUEST_BODY then Fail(t, ENHANCE_YOUR_CALM)
              else Step(t.(conn := Acknowledge(env, t.conn, flow, id)), Quiet)
  {
  }

  lemma OnlyBodyMoved(s: Core, u: Core, d: Connection, past: seq<ParsedFrame>, f: ParsedFrame, due: Option<nat>)
    requires u == s.(conn := u.conn, requestBytes := u.requestBytes) && u.conn.pending == d.pending
    requires Silent(u) && ConnInv(u) && IdleInv(u) && BodyInv(u, past + [f], due) && Weight(u) <= Weight(s)
    ensures Midway(s, u, d, past, f, due)
  {
  }

  lemma BodyIsBounded(s: Core, frames: seq<ParsedFrame>)
    requires BodyInv(s, frames, None)
    ensures s.requestBytes <= Decimal.MAX_REQUEST_BODY
  {
  }

  function CountData(s: Core, id: nat, data: Bytes): Core {
    if s.capture.streamId == Some(id) then s.(requestBytes := s.requestBytes + |data|) else s
  }

  lemma DataMakesRoom(s: Core, d: Connection, x: Shape)
    requires IdleInv(s) && x.Carries? && Fits(x, s.conn, d, [DataReceived(x.id, x.data, x.flow)] + EndEvents(x.id, x.ended))
    ensures IdleInv(s.(conn := d)) && Weight(s.(conn := d)) <= Weight(s)
  {
    MovedIdle(s, d, x.id, PhaseOf(d, x.id).value);
  }

  lemma DataCounted(s: Core, d: Connection, t: Core, x: Shape)
    requires x.Carries? && t == CountData(s.(conn := d), x.id, x.data)
    requires Silent(s.(conn := d)) && ConnInv(s.(conn := d)) && IdleInv(s.(conn := d))
    ensures Silent(t) && ConnInv(t) && IdleInv(t) && Weight(t) == Weight(s.(conn := d))
    ensures t == s.(conn := d, requestBytes := t.requestBytes)
    ensures t.requestBytes == s.requestBytes + if s.capture.streamId == Some(x.id) then |x.data| else 0
  {
    Aside(s.(conn := d), t);
  }

  lemma StaysMoved(c: Connection, d: Connection, e: Connection, x: Shape)
    requires x.Carries? && Fits(x, c, d, [DataReceived(x.id, x.data, x.flow)] + EndEvents(x.id, x.ended))
    requires e.streams == d.streams && e.highest == d.highest
    ensures x.id in c.streams && (c.streams[x.id].phase.Open? || c.streams[x.id].phase.HalfClosedLocal?)
    ensures OnlyMoved(c, e, x.id, if x.ended then EndPhase(c.streams[x.id].phase) else c.streams[x.id].phase)
    ensures PhaseOf(e, x.id) == PhaseOf(d, x.id)
  {
  }

  lemma SamePhasesOpenCount(c: Connection, d: Connection)
    requires d.streams == c.streams
    ensures OpenCount(d) == OpenCount(c)
  {
    assert OpenStreams(d) == OpenStreams(c);
  }

  lemma HandledCarries(env: Env, s: Core, d: Connection, past: seq<ParsedFrame>, f: ParsedFrame, x: Shape)
    requires Ready(s, past, f) && Silent(s.(conn := d)) && ConnInv(s.(conn := d)) && x.Carries?
    requires Fits(x, s.conn, d, [DataReceived(x.id, x.data, x.flow)] + EndEvents(x.id, x.ended)) && Explains(x, s.conn, f)
    ensures Handled(s, d, past, f, ProcessEvents(env, s.(conn := d), [DataReceived(x.id, x.data, x.flow)] + EndEvents(x.id, x.ended)))
  {
    DataMidway(env, s, d, past, f, x);
    var r := OnData(env, s.(conn := d), x.id, x.data, x.flow);
    assert PhaseOf(d, x.id).Some? && (x.ended ==> RemoteEnded(PhaseOf(d, x.id).value));
    hide OnData, OnRequest, Midway, Ready, ConnInv, Silent, Fits;
    EventsSplit(env, s.(conn := d), DataReceived(x.id, x.data, x.flow), EndEvents(x.id, x.ended));
    if r.raised.Quiet? {
      HandledEnd(env, s, r.core, d, past, f, x.id, x.ended);
    }
  }

  lemma TrailersMidway(env: Env, s: Core, d: Connection, past: seq<ParsedFrame>, f: ParsedFrame, x: Shape)
    requires Ready(s, past, f) && Silent(s.(conn := d)) && ConnInv(s.(conn := d)) && x.Trails?
    requires Fits(x, s.conn, d, [TrailersReceived(x.id, x.fields), StreamEnded(x.id)]) && Explains(x, s.conn, f)
    ensures var r := OnTrailers(env, s.(conn := d), x.id, x.fields);
            && (r.raised.Quiet? ==> Midway(s, r.core, d, past, f, Some(x.id)) && r.core.conn == d)
            && (!r.raised.Quiet? ==> r.raised.Protocol? && Ended(r.core, r.raised.code))
  {
    hide Goaways, Ended, ValidFields, BodyInv, Silent, ConnInv, IdleInv, Weight;
    var t := s.(conn := d, capture := s.capture.(trailers := x.fields));
    MovedIdle(s, d, x.id, PhaseOf(d, x.id).value);
    CloseEnds(s.(conn := d), PROTOCOL_ERROR);
    Aside(s.(conn := d), t);
    TrailersBody(s, s.(conn := d), past, f, x);
    TrailersBody(s, t, past, f, x);
  }

  lemma TrailersBody(s: Core, t: Core, past: seq<ParsedFrame>, f: ParsedFrame, x: Shape)
    requires BodyInv(s, past, None) && x.Trails? && Explains(x, s.conn, f) && x.id in s.conn.streams
    requires s.conn.streams[x.id].phase.Open? || s.conn.streams[x.id].phase.HalfClosedLocal?
    requires OnlyMoved(s.conn, t.conn, x.id, EndPhase(s.conn.streams[x.id].phase))
    requires t == s.(conn := t.conn, capture := s.capture.(trailers := t.capture.trailers))
    ensures BodyInv(t, past + [f], Some(x.id))
  {
    hide Declared, LengthsValid, IsConnect, Unmet, BodyBytes;
    assert forall j :: j in s.conn.streams ==> PhaseOf(t.conn, j).Some?;
    DataKnownNext(s, t.conn, past, f);
    if s.capture.streamId.Some? { BodyBytesNext(past, f, s.capture.streamId.value); }
  }

  lemma HandledTrails(env: Env, s: Core, d: Connection, past: seq<ParsedFrame>, f: ParsedFrame, x: Shape)
    requires Ready(s, past, f) && Silent(s.(conn := d)) && ConnInv(s.(conn := d)) && x.Trails?
    requires Fits(x, s.conn, d, [TrailersReceived(x.id, x.fields), StreamEnded(x.id)]) && Explains(x, s.conn, f)
    ensures Handled(s, d, past, f, ProcessEvents(env, s.(conn := d), [TrailersReceived(x.id, x.fields), StreamEnded(x.id)]))
  {
    TrailersMidway(env, s, d, past, f, x);
    var r := OnTrailers(env, s.(conn := d), x.id, x.fields);
    assert RemoteEnded(PhaseOf(d, x.id).value);
    hide OnData, OnRequest, OnTrailers, Midway, Ready, ConnInv, Silent, Fits;
    EventsSplit(env, s.(conn := d), TrailersReceived(x.id, x.fields), EndEvents(x.id, true));
    assert [TrailersReceived(x.id, x.fields)] + EndEvents(x.id, true) == [TrailersReceived(x.id, x.fields), StreamEnded(x.id)];
    if r.raised.Quiet? {
      HandledEnd(env, s, r.core, d, past, f, x.id, true);
    }
  }

  // ------------------------------------------------------------- new requests

  lemma RefusedBody(s: Core, t: Core, past: seq<ParsedFrame>, f: ParsedFrame, due: Option<nat>)
    requires BodyInv(s, past, None) && s.capture.streamId.Some? && !f.payload.Data? && due != s.capture.streamId
    requires t == s.(conn := t.conn, idle := t.idle)
    requires forall j :: j in s.conn.streams ==> j in t.conn.streams && t.conn.streams[j].phase == s.conn.streams[j].phase
    ensures BodyInv(t, past + [f], due)
  {
    hide Declared, LengthsValid, IsConnect, Unmet, BodyBytes;
    DataKnownNext(s, t.conn, past, f);
    BodyBytesNext(past, f, s.capture.streamId.value);
  }

  /** Refusing a further stream forgets lower idle ones and leaves the accepted request alone. */
  lemma RefusedMidway(env: Env, s: Core, d: Connection, past: seq<ParsedFrame>, f: ParsedFrame, x: Shape)
    requires Ready(s, past, f) && Silent(s.(conn := d)) && ConnInv(s.(conn := d)) && x.Opens? && s.capture.streamId.Some?
    requires Fits(x, s.conn, d, [RequestReceived(x.id, x.fields, x.ended)] + EndEvents(x.id, x.ended)) && Explains(x, s.conn, f)
    ensures var r := OnRequest(env, s.(conn := d), x.id, x.fields, x.ended);
            && r.raised.Quiet? && r.core.capture.streamId == s.capture.streamId && s.capture.streamId != Some(x.id)
            && Midway(s, r.core, d, past, f, if x.ended then Some(x.id) else None)
            && OpenCount(r.core.conn) == OpenCount(s.conn) && r.core.idle <= s.idle
  {
    hide Declared, LengthsValid, IsConnect, Unmet, Goaways, BodyBytes, ValidFields, AcceptRequest;
    var u := ForgetIdle(s.(conn := d), x.id);
    var e := ResetStream(d, x.id, REFUSED_STREAM);
    GoawaysOne(d.outbound, ResetSent(x.id, REFUSED_STREAM));
    assert OpenStreams(e) == OpenStreams(s.conn);
    SubsetCard(u.idle, s.idle);
    RefusedBody(s, u.(conn := e), past, f, if x.ended then Some(x.id) else None);
    hide BodyInv;
  }

  lemma InterimIsSilent(env: Env, s: Core, id: nat)
    requires Silent(s) && Settled(s.conn) && Adapter.Announced(s.conn.encoder)
    requires id in s.conn.streams && s.conn.streams[id].phase.Open?
    ensures var c := SendHeaders(env, s.conn, id, 100, false);
            && c.Some? && Silent(s.(conn := c.value)) && Settled(c.value) && Adapter.Announced(c.value.encoder)
            && c.value.streams == s.conn.streams && c.value.highest == s.conn.highest && c.value.pending == s.conn.pending
  {
    GoawaysOne(s.conn.outbound, Head(env, s.conn, id, 100, false));
  }

  /** The freshly accepted request: no body yet, its length declared, its stream open for sending. */
  lemma AcceptedBody(s: Core, t: Core, past: seq<ParsedFrame>, f: ParsedFrame, x: Shape)
    requires BodyInv(s, past, None) && x.Opens? && s.capture.streamId.None? && !f.payload.Data?
    requires x.id !in s.conn.streams
    requires t.conn.streams == WithStream(s.conn, x.id, x.ended)
    requires t.capture.streamId == Some(x.id) && t.capture.headers == Some(x.fields)
    requires t.expected == Declared(x.fields) && (t.expected.Some? ==> t.expected.value <= Decimal.MAX_REQUEST_BODY)
    requires t.requestBytes == s.requestBytes && LengthsValid(x.fields)
    requires t.requestReady <==> t.capture.expectationFailed || IsConnect(x.fields)
    requires t.capture.expectationFailed <==> Unmet(x.fields)
    ensures BodyInv(t, past + [f], if x.ended then Some(x.id) else None)
  {
    hide Declared, LengthsValid, IsConnect, Unmet, BodyBytes;
    NoBodyYet(s, past, x.id);
    BodyBytesNext(past, f, x.id);
    DataKnownNext(s, t.conn, past, f);
  }

  ghost predicate Accepting(s: Core, u: Core, d: Connection, past: seq<ParsedFrame>, f: ParsedFrame, x: Shape) {
    && BodyInv(s, past, None) && x.Opens? && s.capture.streamId.None? && !f.payload.Data?
    && Silent(u) && ConnInv(u) && IdleInv(u) && Kept(s, u) && u.conn == d
    && x.id !in s.conn.streams
    && d.streams == WithStream(s.conn, x.id, x.ended)
    && u == s.(conn := d, idle := u.idle)
  }

  /** Only the streams of a connection matter for the body and the idle streams. */
  lemma SameStreamsSameBody(s: Core, t: Core, frames: seq<ParsedFrame>, due: Option<nat>)
    requires t == s.(conn := t.conn) && t.conn.streams == s.conn.streams && t.conn.highest == s.conn.highest
    ensures BodyInv(s, frames, due) ==> BodyInv(t, frames, due)
    ensures (IdleInv(s) ==> IdleInv(t)) && Weight(t) == Weight(s) && (StreamsOk(s.conn) ==> StreamsOk(t.conn))
  {
    hide Declared, LengthsValid, IsConnect, Unmet, BodyBytes, OpenCount;
    SamePhasesOpenCount(s.conn, t.conn);
  }

  lemma InterimMidway(env: Env, s: Core, u: Core, t: Core, d: Connection, past: seq<ParsedFrame>, f: ParsedFrame, x: Shape)
    requires Accepting(s, u, d, past, f, x) && !x.ended
    requires t.conn == d && Silent(t) && ConnInv(t) && IdleInv(t) && Kept(s, t)
    requires BodyInv(t, past + [f], None)
    ensures var c := SendHeaders(env, d, x.id, 100, false);
            c.Some? && Midway(s, t.(conn := c.value), d, past, f, None) && PhaseOf(c.value, x.id) == PhaseOf(d, x.id)
  {
    hide SendHeaders, Settled, Silent, Goaways, Weight, BodyInv, IdleInv, StreamsOk;
    InterimIsSilent(env, t, x.id);
    var e := SendHeaders(env, d, x.id, 100, false).value;
    SameStreamsSameBody(t, t.(conn := e), past + [f], None);
  }

  /** The session with the request noted, apart from what is sent. */
  function Noted(u: Core, x: Shape, unmet: bool, ready: bool): Core
    requires x.Opens?
  {
    u.(capture := u.capture.(streamId := Some(x.id), headers := Some(x.fields), expectationFailed := unmet),
       expected := Declared(x.fields), requestReady := ready)
  }

  lemma NotedMidway(s: Core, u: Core, d: Connection, past: seq<ParsedFrame>, f: ParsedFrame, x: Shape)
    requires Accepting(s, u, d, past, f, x) && LengthsValid(x.fields)
    requires Declared(x.fields).Some? ==> Declared(x.fields).value <= Decimal.MAX_REQUEST_BODY
    ensures var t := Noted(u, x, Unmet(x.fields), Unmet(x.fields) || IsConnect(x.fields));
            Midway(s, t, d, past, f, if x.ended then Some(x.id) else None)
  {
    hide Declared, LengthsValid, IsConnect, Unmet, Goaways, BodyBytes, OpenCount, Settled, StreamsOk;
    var t := Noted(u, x, Unmet(x.fields), Unmet(x.fields) || IsConnect(x.fields));
    AcceptedBody(s, t, past, f, x);
    hide BodyInv;
  }

  /** What accepting a request comes to, in terms of what it asks for. */
  lemma AcceptIs(env: Env, u: Core, x: Shape)
    requires x.Opens? && u.expected.None? && !u.requestReady && !u.capture.expectationFailed
    ensures var t := Noted(u, x, Unmet(x.fields), Unmet(x.fields) || IsConnect(x.fields));
            var bare := Noted(u, x, false, false);
            var r := AcceptRequest(env, u, x.id, x.fields, x.ended);
            if Declared(x.fields).Some? && Declared(x.fields).value > Decimal.MAX_REQUEST_BODY
            then r == Fail(bare, ENHANCE_YOUR_CALM)
            else if Unmet(x.fields) || IsConnect(x.fields) || Expectations(x.fields) == [] || x.ended then r == Step(t, Quiet)
            else var c := SendHeaders(env, u.conn, x.id, 100, false);
                 t == bare && r == if c.None? then Step(bare, Protocol(PROTOCOL_ERROR)) else Step(bare.(conn := c.value), Quiet)
  {
    UnmetIff(x.fields);
    hide Declared, Unmet, Close, Lookup, Text, Expectations, OnlyContinue, SendHeaders;
  }

  lemma AcceptedMidway(env: Env, s: Core, u: Core, d: Connection, past: seq<ParsedFrame>, f: ParsedFrame, x: Shape)
    requires Accepting(s, u, d, past, f, x) && LengthsValid(x.fields)
    ensures var r := AcceptRequest(env, u, x.id, x.fields, x.ended);
            && (r.raised.Quiet? ==>
                  && Midway(s, r.core, d, past, f, if x.ended then Some(x.id) else None)
                  && PhaseOf(r.core.conn, x.id) == PhaseOf(d, x.id))
            && (!r.raised.Quiet? ==> r.raised.Protocol? && Ended(r.core, r.raised.code))
  {
    hide Declared, LengthsValid, IsConnect, Unmet, Goaways, OpenCount, Ended, Expectations, SendHeaders, AcceptRequest,
         ConnInv, IdleInv, Close;
    AcceptIs(env, u, x);
    hide BodyInv;
    CloseEnds(Noted(u, x, false, false), ENHANCE_YOUR_CALM);
    if Declared(x.fields).Some? ==> Declared(x.fields).value <= Decimal.MAX_REQUEST_BODY {
      NotedMidway(s, u, d, past, f, x);
      if !x.ended && !Unmet(x.fields) && !IsConnect(x.fields) {
        InterimMidway(env, s, u, Noted(u, x, false, false), d, past, f, x);
      }
    }
  }

  lemma UnmetIff(fields: Fields)
    ensures Unmet(fields) <==> !OnlyContinue(Expectations(fields))
  {
    hide ValuesOf, Lower;
    assert Text("invalid expectation")[0] != Text("100-continue")[0];
    hide Text;
    match HttpList.Parse(ValuesOf(fields, Text("expect")))
    case None => assert Expectations(fields)[0] == Text("invalid expectation");
    case Some(members) =>
      var e := Expectations(fields);
      assert forall i :: 0 <= i < |members| ==> e[i] == Lower(members[i]);
  }

  lemma ValidLengths(env: Env, fields: Fields)
    requires ValidFields(env, fields, false)
    ensures LengthsValid(fields)
  {
  }

  lemma RequestMidway(env: Env, s: Core, d: Connection, past: seq<ParsedFrame>, f: ParsedFrame, x: Shape)
    requires Ready(s, past, f) && Silent(s.(conn := d)) && ConnInv(s.(conn := d)) && x.Opens? && s.capture.streamId.None?
    requires Fits(x, s.conn, d, [RequestReceived(x.id, x.fields, x.ended)] + EndEvents(x.id, x.ended)) && Explains(x, s.conn, f)
    ensures var r := OnRequest(env, s.(conn := d), x.id, x.fields, x.ended);
            && (r.raised.Quiet? ==>
                  && Midway(s, r.core, d, past, f, if x.ended then Some(x.id) else None)
                  && PhaseOf(r.core.conn, x.id) == PhaseOf(d, x.id))
            && (!r.raised.Quiet? ==> r.raised.Protocol? && Ended(r.core, r.raised.code))
  {
    hide Ended, Declared, LengthsValid, IsConnect, Unmet, Goaways, BodyBytes, ValidFields, AcceptRequest, Midway, Settled;
    var u := ForgetIdle(s.(conn := d), x.id);
    CloseEnds(u, PROTOCOL_ERROR);
    if !OverPriorityLimit(u) && ValidFields(env, x.fields, false) {
      ValidLengths(env, x.fields);
      AcceptedMidway(env, s, u, d, past, f, x);
    }
  }

  lemma HandledOpens(env: Env, s: Core, d: Connection, past: seq<ParsedFrame>, f: ParsedFrame, x: Shape)
    requires Ready(s, past, f) && Silent(s.(conn := d)) && ConnInv(s.(conn := d)) && x.Opens?
    requires Fits(x, s.conn, d, [RequestReceived(x.id, x.fields, x.ended)] + EndEvents(x.id, x.ended)) && Explains(x, s.conn, f)
    ensures Handled(s, d, past, f, ProcessEvents(env, s.(conn := d), [RequestReceived(x.id, x.fields, x.ended)] + EndEvents(x.id, x.ended)))
  {
    assert x.ended ==> RemoteEnded(PhaseOf(d, x.id).value);
    if s.capture.streamId.Some? { RefusedMidway(env, s, d, past, f, x); } else { RequestMidway(env, s, d, past, f, x); }
    var r := OnRequest(env, s.(conn := d), x.id, x.fields, x.ended);
    hide OnData, OnRequest, OnTrailers, Midway, Ready, ConnInv, Silent, Fits;
    EventsSplit(env, s.(conn := d), RequestReceived(x.id, x.fields, x.ended), EndEvents(x.id, x.ended));
    if r.raised.Quiet? {
      HandledEnd(env, s, r.core, d, past, f, x.id, x.ended);
    }
  }
}
