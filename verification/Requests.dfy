/** The request a session captures, read off the frames alone: header blocks put together from their frames and
    decoded in order, and what the session made of them. */
module Requests {
  import opened Wire
  import opened Frames
  import opened H2
  import opened H2Proofs
  import opened SessionSpec
  import opened SessionInvariant
  import opened SessionSteps
  import opened SessionRuns
  import opened SessionTheorems
  import opened SessionLife
  import opened Responses
  import opened Tallies
  import Adapter
  import HttpList

  // ------------------------------------------------------------------- blocks

  /** A header block with the stream and the END_STREAM flag of its HEADERS frame. */
  datatype Block = Block(stream: nat, endStream: bool, octets: Bytes)

  /** Finished blocks in order, and the one still open. */
  datatype Blocks = Blocks(done: seq<Block>, open: Option<Block>)

  function Add(b: Blocks, f: ParsedFrame): Blocks {
    match f.payload
    case Headers(block, _, endStream, endHeaders, _) =>
      var x := Block(f.header.streamId, endStream, block);
      if endHeaders then Blocks(b.done + [x], None) else Blocks(b.done, Some(x))
    case Continuation(block, endHeaders) =>
      if b.open.None? then b
      else
        var x := b.open.value.(octets := b.open.value.octets + block);
        if endHeaders then Blocks(b.done + [x], None) else Blocks(b.done, Some(x))
    case _ => b
  }

  function BlocksOf(frames: seq<ParsedFrame>): Blocks {
    if frames == [] then Blocks([], None) else Add(BlocksOf(frames[..|frames| - 1]), frames[|frames| - 1])
  }

  function AllOctets(blocks: seq<Block>): seq<Bytes> { seq(|blocks|, i requires 0 <= i < |blocks| => blocks[i].octets) }

  // ------------------------------------------------------------------ the story

  /** The fields of a block, decoded after the blocks before it. */
  function FieldsOf(env: Env, before: seq<Block>, b: Block): Option<Fields> {
    match env.decode(AllOctets(before), b.octets)
    case Decoded(fields) => Some(fields)
    case _ => None
  }

  /** The trailers: the fields of a later block on the stream of the first one. */
  function TrailersIn(env: Env, blocks: seq<Block>): Fields {
    if |blocks| <= 1 then []
    else
      var n := |blocks| - 1;
      if blocks[n].stream == blocks[0].stream && FieldsOf(env, blocks[..n], blocks[n]).Some?
      then FieldsOf(env, blocks[..n], blocks[n]).value
      else TrailersIn(env, blocks[..n])
  }

  /** The client asks for 100 (Continue) and can be given it. */
  predicate Waiting100(fields: Fields) {
    match HttpList.Parse(ValuesOf(fields, Text("expect")))
    case None => false
    case Some(members) =>
      && members != [] && (forall i :: 0 <= i < |members| ==> Lower(members[i]) == Text("100-continue"))
      && Lookup(fields, Text(":method")) != Some(Text("CONNECT"))
  }

  /** The streams on which an informational head went out, in order. */
  function Interims(out: seq<OutFrame>): seq<nat> {
    if out == [] then []
    else
      var earlier, f := Interims(out[..|out| - 1]), out[|out| - 1];
      if f.HeadersSent? && 100 <= f.status < 200 then earlier + [f.stream] else earlier
  }

  predicate SaysGoaway(frames: seq<ParsedFrame>) {
    exists i :: 0 <= i < |frames| && frames[i].payload.Goaway? && frames[i].payload.errorCode != 0
  }

  ghost predicate RequestReset(s: Core) {
    s.capture.streamId.Some? && PhaseOf(s.conn, s.capture.streamId.value) == Some(ClosedByReset)
  }

  /** The accepted request is the first block of the connection. */
  ghost predicate FirstBlock(env: Env, s: Core, blocks: seq<Block>) {
    if s.capture.streamId.None? then blocks == [] && s.conn.streams == map[] && s.capture.headers.None? && s.capture.trailers == []
    else
      && blocks != [] && s.capture.streamId == Some(blocks[0].stream)
      && FieldsOf(env, [], blocks[0]).Some? && s.capture.headers == FieldsOf(env, [], blocks[0])
  }

  /** One 100 (Continue) on its stream, exactly if it was asked for and a body may follow. */
  function Due100(env: Env, blocks: seq<Block>): seq<nat> {
    if blocks == [] || FieldsOf(env, [], blocks[0]).None? then []
    else if Waiting100(FieldsOf(env, [], blocks[0]).value) && !blocks[0].endStream then [blocks[0].stream]
    else []
  }

  ghost predicate PendingIs(p: Option<Pending>, open: Option<Block>) {
    match open
    case None => p.None?
    case Some(b) => p.Some? && p.value.stream == b.stream && p.value.endStream == b.endStream && p.value.block == b.octets
  }

  /** What the session has made of the frames. */
  ghost predicate Tells(env: Env, s: Core, frames: seq<ParsedFrame>) {
    var b := BlocksOf(frames);
    && s.conn.decoded == AllOctets(b.done) && PendingIs(s.conn.pending, b.open) && FirstBlock(env, s, b.done)
    && Interims(s.written + s.conn.outbound) == Due100(env, b.done)
    && (s.cancelled <==> SaysGoaway(frames) || RequestReset(s))
    && (!s.cancelled ==> s.capture.trailers == TrailersIn(env, b.done))
  }

  // -------------------------------------------------------------------- helpers

  lemma BlocksNext(frames: seq<ParsedFrame>, f: ParsedFrame)
    ensures BlocksOf(frames + [f]) == Add(BlocksOf(frames), f)
  {
    assert (frames + [f])[..|frames|] == frames;
  }

  lemma OctetsNext(blocks: seq<Block>, b: Block)
    ensures AllOctets(blocks + [b]) == AllOctets(blocks) + [b.octets]
  {
  }

  lemma TrailersNext(env: Env, blocks: seq<Block>, b: Block)
    requires blocks != []
    ensures TrailersIn(env, blocks + [b]) ==
            if b.stream == blocks[0].stream && FieldsOf(env, blocks, b).Some? then FieldsOf(env, blocks, b).value
            else TrailersIn(env, blocks)
  {
    assert (blocks + [b])[..|blocks|] == blocks;
  }

  lemma {:induction false} InterimsAppend(a: seq<OutFrame>, b: seq<OutFrame>)
    ensures Interims(a + b) == Interims(a) + Interims(b)
  {
    if b == [] {
      assert a + b == a;
    } else {
      InterimsAppend(a, b[..|b| - 1]);
      assert (a + b)[..|a + b| - 1] == a + b[..|b| - 1];
    }
  }

  predicate Headless(out: seq<OutFrame>) { forall i :: 0 <= i < |out| ==> !(out[i].HeadersSent? && 100 <= out[i].status < 200) }

  lemma {:induction false} HeadlessInterims(out: seq<OutFrame>)
    requires Headless(out)
    ensures Interims(out) == []
  {
    if out != [] { HeadlessInterims(out[..|out| - 1]); }
  }

  lemma GoawayNext(frames: seq<ParsedFrame>, f: ParsedFrame)
    ensures SaysGoaway(frames + [f]) <==> SaysGoaway(frames) || (f.payload.Goaway? && f.payload.errorCode != 0)
  {
    var all := frames + [f];
    assert all[|frames|] == f && forall i :: 0 <= i < |frames| ==> all[i] == frames[i];
  }

  // ------------------------------------------------------------------ h2's answer

  /** The block a frame completes. */
  function Finished(pending: Option<Pending>, f: ParsedFrame): Option<Block> {
    match f.payload
    case Headers(block, _, endStream, true, _) => Some(Block(f.header.streamId, endStream, block))
    case Continuation(block, true) =>
      if pending.None? then None else Some(Block(pending.value.stream, pending.value.endStream, pending.value.block + block))
    case _ => None
  }

  /** Nothing but the stream table, the blocks and plain frames may change. */
  ghost predicate Queues(c: Connection, d: Connection) { c.outbound <= d.outbound && Headless(d.outbound[|c.outbound|..]) }

  /** What an answer says about a finished block. */
  ghost predicate Decodes(env: Env, c: Connection, b: Block, d: Connection, events: seq<Event>) {
    && d.decoded == c.decoded + [b.octets] && env.decode(c.decoded, b.octets).Decoded?
    && var fields := env.decode(c.decoded, b.octets).fields;
       if b.stream !in c.streams then events == [RequestReceived(b.stream, fields, b.endStream)] + EndEvents(b.stream, b.endStream)
       else match c.streams[b.stream].phase
            case Open => events == [TrailersReceived(b.stream, fields), StreamEnded(b.stream)]
            case HalfClosedLocal => events == [TrailersReceived(b.stream, fields), StreamEnded(b.stream)]
            case HalfClosedRemote => events == [StreamReset(b.stream)]
            case ClosedByReset => events == []
            case ClosedByEnd => false
  }

  lemma BlockDecodes(env: Env, c: Connection, b: Block)
    ensures var r := HeaderBlock(env, c, b.stream, b.endStream, b.octets);
            r.Received? ==> Decodes(env, c, b, r.c, r.events) && Queues(c, r.c) && r.c.pending == c.pending
  {
    hide FieldBytes, OpenCount;
  }

  predicate Ordinary(e: Event) { !e.RequestReceived? && !e.TrailersReceived? }

  /** The open block h2 holds after a frame. */
  ghost predicate Holds(c: Connection, f: ParsedFrame, d: Connection) {
    match f.payload
    case Headers(block, _, endStream, endHeaders, _) =>
      c.pending.None? && PendingIs(d.pending, if endHeaders then None else Some(Block(f.header.streamId, endStream, block)))
    case Continuation(block, endHeaders) =>
      && c.pending.Some?
      && var p := c.pending.value;
         PendingIs(d.pending, if endHeaders then None else Some(Block(p.stream, p.endStream, p.block + block)))
    case _ => d.pending == c.pending
  }

  ghost predicate DecodesFinished(env: Env, c: Connection, f: ParsedFrame, d: Connection, events: seq<Event>) {
    match Finished(c.pending, f)
    case Some(b) => Decodes(env, c, b, d, events)
    case None => d.decoded == c.decoded && forall i :: 0 <= i < |events| ==> Ordinary(events[i])
  }

  ghost predicate AnswerTells(env: Env, c: Connection, f: ParsedFrame, d: Connection, events: seq<Event>) {
    Queues(c, d) && Holds(c, f, d) && DecodesFinished(env, c, f, d, events)
  }

  lemma FrameTells(env: Env, c: Connection, frames: seq<ParsedFrame>, f: ParsedFrame)
    ensures var r := ReceiveFrame(env, c, frames, f); r.Received? ==> AnswerTells(env, c, f, r.c, r.events)
  {
    hide HeaderBlock, Decodes, Live;
    match f.payload
    case Headers(block, _, endStream, endHeaders, _) => BlockDecodes(env, c, Block(f.header.streamId, endStream, block));
    case Continuation(block, _) =>
      if c.pending.Some? {
        var p := c.pending.value;
        var d := c.(pending := None);
        var b := Block(p.stream, p.endStream, p.block + block);
        BlockDecodes(env, d, b);
        SameDecodes(env, c, d, b);
      }
    case _ =>
  }

  lemma SameDecodes(env: Env, c: Connection, d: Connection, b: Block)
    requires d == c.(pending := d.pending)
    ensures forall e, events :: Decodes(env, d, b, e, events) ==> Decodes(env, c, b, e, events)
  {
  }

  // -------------------------------------------------------------------- the events

  /** How an event changes what is told, for a stream `id` that has just been opened or is known. */
  ghost predicate Ends(s: Core, t: Core) {
    && t.capture == s.capture && t.cancelled == s.cancelled && t.written == s.written
    && Interims(t.written + t.conn.outbound) == Interims(s.written + s.conn.outbound)
    && t.conn.decoded == s.conn.decoded && t.conn.pending == s.conn.pending && t.conn.streams == s.conn.streams
  }

  lemma QueuedInterims(s: Core, t: Core, frames: seq<OutFrame>)
    requires t.written == s.written && t.conn.outbound == s.conn.outbound + frames && Headless(frames)
    ensures Interims(t.written + t.conn.outbound) == Interims(s.written + s.conn.outbound)
  {
    assert t.written + t.conn.outbound == s.written + s.conn.outbound + frames;
    InterimsAppend(s.written + s.conn.outbound, frames);
    HeadlessInterims(frames);
  }

  lemma DataTells(env: Env, s: Core, id: nat, data: Bytes, flow: nat)
    ensures var r := OnData(env, s, id, data, flow); r.raised.Quiet? ==> Ends(s, r.core)
  {
    hide Close, Interims;
    var r := OnData(env, s, id, data, flow);
    if r.raised.Quiet? { QueuedInterims(s, r.core, Credits(env.replenish(s.conn.credits, flow, id))); }
  }

  lemma EndTells(env: Env, s: Core, id: nat, ended: bool)
    ensures var r := ProcessEvents(env, s, EndEvents(id, ended)); r.raised.Quiet? ==> Ends(s, r.core)
  {
    hide OnRequest, OnTrailers, OnData, Close, Interims;
    if ended { assert EndEvents(id, ended)[1..] == []; }
  }

  /** An accepted request is captured as it was received, and 100 (Continue) is queued exactly if it is due. */
  ghost predicate Accepted(s: Core, t: Core, id: nat, fields: Fields, ended: bool) {
    && t.capture == s.capture.(streamId := Some(id), headers := Some(fields), expectationFailed := t.capture.expectationFailed)
    && t.cancelled == s.cancelled && t.written == s.written
    && Interims(t.written + t.conn.outbound) ==
         Interims(s.written + s.conn.outbound) + (if Waiting100(fields) && !ended then [id] else [])
    && t.conn.decoded == s.conn.decoded && t.conn.pending == s.conn.pending && t.conn.streams == s.conn.streams
  }

  lemma Waiting100Iff(fields: Fields)
    ensures Waiting100(fields) <==>
            OnlyContinue(Expectations(fields)) && Expectations(fields) != [] && Lookup(fields, Text(":method")) != Some(Text("CONNECT"))
  {
    UnmetIff(fields);
    hide ValuesOf, Lower, Text, Lookup;
  }

  lemma InterimQueued(env: Env, s: Core, id: nat)
    requires SendHeaders(env, s.conn, id, 100, false).Some?
    ensures var c := SendHeaders(env, s.conn, id, 100, false).value;
            && Interims(s.written + c.outbound) == Interims(s.written + s.conn.outbound) + [id]
            && c.decoded == s.conn.decoded && c.pending == s.conn.pending && c.streams == s.conn.streams
  {
    var c := SendHeaders(env, s.conn, id, 100, false).value;
    var before := s.written + s.conn.outbound;
    assert s.written + c.outbound == before + [Head(env, s.conn, id, 100, false)];
    assert (before + [Head(env, s.conn, id, 100, false)])[..|before|] == before;
  }

  lemma AcceptTells(env: Env, s: Core, id: nat, fields: Fields, ended: bool)
    ensures var r := AcceptRequest(env, s, id, fields, ended); r.raised.Quiet? ==> Accepted(s, r.core, id, fields, ended)
  {
    hide Declared, Expectations, OnlyContinue, Lookup, Text, Close, Interims, Waiting100, SendHeaders;
    Waiting100Iff(fields);
    if SendHeaders(env, s.conn, id, 100, false).Some? { InterimQueued(env, s, id); }
  }

  lemma RequestTells(env: Env, s: Core, id: nat, fields: Fields, ended: bool)
    requires s.capture.streamId.None?
    ensures var r := OnRequest(env, s, id, fields, ended); r.raised.Quiet? ==> Accepted(s, r.core, id, fields, ended)
  {
    hide AcceptRequest, ValidFields, OverPriorityLimit, Close, Interims, Waiting100;
    AcceptTells(env, ForgetIdle(s, id), id, fields, ended);
  }

  lemma RefusalTells(env: Env, s: Core, id: nat, fields: Fields, ended: bool)
    requires s.capture.streamId.Some?
    ensures var t := OnRequest(env, s, id, fields, ended).core;
            && t.capture == s.capture && t.cancelled == s.cancelled && t.written == s.written
            && Interims(t.written + t.conn.outbound) == Interims(s.written + s.conn.outbound)
            && t.conn.decoded == s.conn.decoded && t.conn.pending == s.conn.pending
            && forall j :: j != id ==> PhaseOf(t.conn, j) == PhaseOf(s.conn, j)
  {
    hide AcceptRequest, ValidFields, OverPriorityLimit, Interims;
    var t := OnRequest(env, s, id, fields, ended).core;
    QueuedInterims(s, t, if id in s.conn.streams then [ResetSent(id, REFUSED_STREAM)] else []);
  }

  // ------------------------------------------------------------- from frame to frame

  /** What the rest of a state tells, once its blocks and its request's stream are known. */
  lemma TellsFrom(env: Env, s: Core, t: Core, past: seq<ParsedFrame>, f: ParsedFrame)
    requires Tells(env, s, past) && !f.payload.Goaway?
    requires t.conn.decoded == AllOctets(BlocksOf(past + [f]).done) && PendingIs(t.conn.pending, BlocksOf(past + [f]).open)
    requires FirstBlock(env, t, BlocksOf(past + [f]).done)
    requires Interims(t.written + t.conn.outbound) == Due100(env, BlocksOf(past + [f]).done)
    requires t.cancelled == (s.cancelled || (RequestReset(t) && !RequestReset(s)))
    requires RequestReset(s) ==> RequestReset(t)
    requires !t.cancelled ==> t.capture.trailers == TrailersIn(env, BlocksOf(past + [f]).done)
    ensures Tells(env, t, past + [f])
  {
    hide FirstBlock, Interims, TrailersIn, Due100, RequestReset, SaysGoaway, AllOctets, PendingIs, BlocksOf;
    GoawayNext(past, f);
  }

  function Newly(c: Connection, f: ParsedFrame): seq<Block> {
    match Finished(c.pending, f) case Some(b) => [b] case None => []
  }

  /** The blocks h2 has seen are the blocks of the frames. */
  lemma BlocksFollow(env: Env, c: Connection, d: Connection, past: seq<ParsedFrame>, f: ParsedFrame, events: seq<Event>)
    requires AnswerTells(env, c, f, d, events)
    requires c.decoded == AllOctets(BlocksOf(past).done) && PendingIs(c.pending, BlocksOf(past).open)
    ensures var b := BlocksOf(past + [f]);
            d.decoded == AllOctets(b.done) && PendingIs(d.pending, b.open) && b.done == BlocksOf(past).done + Newly(c, f)
  {
    BlocksNext(past, f);
    var b := BlocksOf(past);
    hide BlocksOf, AllOctets;
    if Finished(c.pending, f).Some? { OctetsNext(b.done, Finished(c.pending, f).value); }
    else { assert b.done + [] == b.done; }
  }

  lemma AnswerInterims(s: Core, d: Connection)
    requires Queues(s.conn, d)
    ensures Interims(s.written + d.outbound) == Interims(s.written + s.conn.outbound)
  {
    QueuedInterims(s, s.(conn := d), d.outbound[|s.conn.outbound|..]);
  }

  /** Once there is a request, later blocks do not change which one it is. */
  lemma StillFirst(env: Env, s: Core, t: Core, blocks: seq<Block>, more: seq<Block>)
    requires FirstBlock(env, s, blocks) && s.capture.streamId.Some?
    requires t.capture.streamId == s.capture.streamId && t.capture.headers == s.capture.headers
    ensures FirstBlock(env, t, blocks + more) && Due100(env, blocks + more) == Due100(env, blocks)
  {
    assert (blocks + more)[0] == blocks[0];
  }

  /** Nothing has been accepted yet and no stream is open: only a new stream can finish a block. */
  lemma StillNone(env: Env, s: Core, d: Connection, blocks: seq<Block>, f: ParsedFrame, events: seq<Event>)
    requires FirstBlock(env, s, blocks) && s.capture.streamId.None? && AnswerTells(env, s.conn, f, d, events)
    requires |events| == 0 || !events[0].RequestReceived?
    ensures Newly(s.conn, f) == [] && blocks + Newly(s.conn, f) == []
  {
  }

  /** A state with the same capture, told after one frame more. */
  lemma SameCapture(env: Env, s: Core, t: Core, past: seq<ParsedFrame>, f: ParsedFrame, more: seq<Block>)
    requires Tells(env, s, past) && !f.payload.Goaway? && t.capture == s.capture
    requires var b := BlocksOf(past + [f]);
             && b.done == BlocksOf(past).done + more && t.conn.decoded == AllOctets(b.done) && PendingIs(t.conn.pending, b.open)
    requires s.capture.streamId.None? ==> more == [] && t.conn.streams == map[]
    requires Interims(t.written + t.conn.outbound) == Interims(s.written + s.conn.outbound)
    requires t.cancelled == (s.cancelled || (RequestReset(t) && !RequestReset(s)))
    requires RequestReset(s) ==> RequestReset(t)
    requires !t.cancelled && s.capture.streamId.Some? ==>
               |more| <= 1 && forall i :: 0 <= i < |more| ==> Some(more[i].stream) != s.capture.streamId
    ensures Tells(env, t, past + [f])
  {
    hide BlocksOf, AllOctets, Interims, Due100, PendingIs, RequestReset, SaysGoaway, TrailersIn;
    var done := BlocksOf(past).done;
    if s.capture.streamId.Some? {
      StillFirst(env, s, t, done, more);
      if !t.cancelled {
        if more == [] { assert done + more == done; } else { TrailersNext(env, done, more[0]); assert more == [more[0]]; }
      }
    } else {
      assert done + more == done;
      NoTrailers(env);
    }
    hide FirstBlock;
    TellsFrom(env, s, t, past, f);
  }

  lemma NoTrailers(env: Env)
    ensures TrailersIn(env, []) == []
  {
  }

  lemma CalmTells(env: Env, s: Core, d: Connection, past: seq<ParsedFrame>, f: ParsedFrame)
    requires Tells(env, s, past) && !f.payload.Goaway? && AnswerTells(env, s.conn, f, d, []) && SamePhases(s.conn, d)
    ensures Tells(env, s.(conn := d), past + [f])
  {
    hide BlocksOf, AllOctets, Interims, Due100, PendingIs, SaysGoaway, TrailersIn;
    BlocksFollow(env, s.conn, d, past, f, []);
    AnswerInterims(s, d);
    if s.capture.streamId.None? {
      StillNone(env, s, d, BlocksOf(past).done, f, []);
      assert forall j :: j in d.streams ==> PhaseOf(d, j).Some?;
    }
    SameCapture(env, s, s.(conn := d), past, f, Newly(s.conn, f));
  }

  lemma CarriesTells(env: Env, s: Core, d: Connection, past: seq<ParsedFrame>, f: ParsedFrame, x: Shape, t: Core)
    requires Tells(env, s, past) && !f.payload.Goaway? && x.Carries?
    requires Fits(x, s.conn, d, [DataReceived(x.id, x.data, x.flow)] + EndEvents(x.id, x.ended))
    requires AnswerTells(env, s.conn, f, d, [DataReceived(x.id, x.data, x.flow)] + EndEvents(x.id, x.ended))
    requires Ends(s.(conn := d), t)
    ensures Tells(env, t, past + [f])
  {
    hide BlocksOf, AllOctets, Interims, Due100, PendingIs, SaysGoaway, TrailersIn;
    BlocksFollow(env, s.conn, d, past, f, [DataReceived(x.id, x.data, x.flow)] + EndEvents(x.id, x.ended));
    AnswerInterims(s, d);
    assert Newly(s.conn, f) == [] by { CarriesNoBlock(env, s.conn, f, d, x); }
    SameCapture(env, s, t, past, f, []);
  }

  lemma CarriesNoBlock(env: Env, c: Connection, f: ParsedFrame, d: Connection, x: Shape)
    requires x.Carries? && AnswerTells(env, c, f, d, [DataReceived(x.id, x.data, x.flow)] + EndEvents(x.id, x.ended))
    ensures Newly(c, f) == []
  {
    var events := [DataReceived(x.id, x.data, x.flow)] + EndEvents(x.id, x.ended);
    assert events[0] == DataReceived(x.id, x.data, x.flow);
  }

  lemma ResetsTells(env: Env, s: Core, d: Connection, past: seq<ParsedFrame>, f: ParsedFrame, id: nat)
    requires Tells(env, s, past) && !f.payload.Goaway? && Fits(Resets(id), s.conn, d, [StreamReset(id)])
    requires AnswerTells(env, s.conn, f, d, [StreamReset(id)])
    ensures var u := s.(conn := d);
            Tells(env, if s.capture.streamId == Some(id) then u.(cancelled := true) else u, past + [f])
  {
    hide BlocksOf, AllOctets, Interims, Due100, PendingIs, SaysGoaway, TrailersIn;
    BlocksFollow(env, s.conn, d, past, f, [StreamReset(id)]);
    AnswerInterims(s, d);
    var u := s.(conn := d);
    var t := if s.capture.streamId == Some(id) then u.(cancelled := true) else u;
    assert forall b :: b in Newly(s.conn, f) ==> b.stream == id by { ResetsBlock(env, s.conn, f, d, id); }
    SameCapture(env, s, t, past, f, Newly(s.conn, f));
  }

  lemma ResetsBlock(env: Env, c: Connection, f: ParsedFrame, d: Connection, id: nat)
    requires AnswerTells(env, c, f, d, [StreamReset(id)])
    ensures forall b :: b in Newly(c, f) ==> b.stream == id
  {
    if Finished(c.pending, f).Some? {
      var b := Finished(c.pending, f).value;
      var fields := env.decode(c.decoded, b.octets).fields;
      assert ([RequestReceived(b.stream, fields, b.endStream)] + EndEvents(b.stream, b.endStream))[0].RequestReceived?;
      assert [TrailersReceived(b.stream, fields), StreamEnded(b.stream)][0].TrailersReceived?;
      assert [StreamReset(id)][0] == StreamReset(id) && [StreamReset(b.stream)][0] == StreamReset(b.stream);
    }
  }

  /** A new stream: the first one is the request, any other is refused. */
  lemma OpensTells(env: Env, s: Core, d: Connection, past: seq<ParsedFrame>, f: ParsedFrame, x: Shape, t: Core)
    requires Tells(env, s, past) && !f.payload.Goaway? && x.Opens?
    requires Fits(x, s.conn, d, [RequestReceived(x.id, x.fields, x.ended)] + EndEvents(x.id, x.ended))
    requires AnswerTells(env, s.conn, f, d, [RequestReceived(x.id, x.fields, x.ended)] + EndEvents(x.id, x.ended))
    requires s.capture.streamId.None? && Accepted(s.(conn := d), t, x.id, x.fields, x.ended)
    ensures Tells(env, t, past + [f])
  {
    hide BlocksOf, AllOctets, Interims, PendingIs, SaysGoaway, Waiting100;
    BlocksFollow(env, s.conn, d, past, f, [RequestReceived(x.id, x.fields, x.ended)] + EndEvents(x.id, x.ended));
    AnswerInterims(s, d);
    OpensBlock(env, s.conn, f, d, x);
    var b := Newly(s.conn, f)[0];
    assert BlocksOf(past).done == [] && [] + [b] == [b];
    NoOctets();
    assert FieldsOf(env, [], b) == Some(x.fields);
    TellsFrom(env, s, t, past, f);
  }

  lemma NoOctets()
    ensures AllOctets([]) == []
  {
  }

  lemma OpensBlock(env: Env, c: Connection, f: ParsedFrame, d: Connection, x: Shape)
    requires x.Opens? && x.id !in c.streams
    requires AnswerTells(env, c, f, d, [RequestReceived(x.id, x.fields, x.ended)] + EndEvents(x.id, x.ended))
    ensures |Newly(c, f)| == 1
    ensures var b := Newly(c, f)[0]; b.stream == x.id && b.endStream == x.ended && env.decode(c.decoded, b.octets) == Decoded(x.fields)
  {
    var events := [RequestReceived(x.id, x.fields, x.ended)] + EndEvents(x.id, x.ended);
    assert events[0] == RequestReceived(x.id, x.fields, x.ended);
    if Finished(c.pending, f).Some? {
      var b := Finished(c.pending, f).value;
      var fields := env.decode(c.decoded, b.octets).fields;
      assert ([RequestReceived(b.stream, fields, b.endStream)] + EndEvents(b.stream, b.endStream))[0] == RequestReceived(b.stream, fields, b.endStream);
      assert [TrailersReceived(b.stream, fields), StreamEnded(b.stream)][0].TrailersReceived?;
      assert [StreamReset(b.stream)][0].StreamReset?;
    }
  }

  lemma RefusedTells(env: Env, s: Core, d: Connection, past: seq<ParsedFrame>, f: ParsedFrame, x: Shape, t: Core)
    requires Tells(env, s, past) && !f.payload.Goaway? && x.Opens? && s.capture.streamId.Some?
    requires Fits(x, s.conn, d, [RequestReceived(x.id, x.fields, x.ended)] + EndEvents(x.id, x.ended))
    requires AnswerTells(env, s.conn, f, d, [RequestReceived(x.id, x.fields, x.ended)] + EndEvents(x.id, x.ended))
    requires t.capture == s.capture && t.cancelled == s.cancelled && t.written == s.written && s.capture.streamId.value in s.conn.streams
    requires Interims(t.written + t.conn.outbound) == Interims(s.written + d.outbound)
    requires t.conn.decoded == d.decoded && t.conn.pending == d.pending
    requires forall j :: j != x.id ==> PhaseOf(t.conn, j) == PhaseOf(d, j)
    ensures Tells(env, t, past + [f])
  {
    hide BlocksOf, AllOctets, Interims, Due100, PendingIs, SaysGoaway, TrailersIn;
    BlocksFollow(env, s.conn, d, past, f, [RequestReceived(x.id, x.fields, x.ended)] + EndEvents(x.id, x.ended));
    AnswerInterims(s, d);
    OpensBlock(env, s.conn, f, d, x);
    SameCapture(env, s, t, past, f, Newly(s.conn, f));
  }

  lemma TrailsBlock(env: Env, c: Connection, f: ParsedFrame, d: Connection, x: Shape)
    requires x.Trails? && AnswerTells(env, c, f, d, [TrailersReceived(x.id, x.fields), StreamEnded(x.id)])
    ensures |Newly(c, f)| == 1
    ensures var b := Newly(c, f)[0]; b.stream == x.id && env.decode(c.decoded, b.octets) == Decoded(x.fields)
  {
    var events := [TrailersReceived(x.id, x.fields), StreamEnded(x.id)];
    assert events[0] == TrailersReceived(x.id, x.fields);
    if Finished(c.pending, f).Some? {
      var b := Finished(c.pending, f).value;
      var fields := env.decode(c.decoded, b.octets).fields;
      assert ([RequestReceived(b.stream, fields, b.endStream)] + EndEvents(b.stream, b.endStream))[0].RequestReceived?;
      assert [TrailersReceived(b.stream, fields), StreamEnded(b.stream)][0] == TrailersReceived(b.stream, fields);
      assert [StreamReset(b.stream)][0].StreamReset?;
    }
  }

  /** Trailers of the request's stream are captured as they were received. */
  lemma TrailsTells(env: Env, s: Core, d: Connection, past: seq<ParsedFrame>, f: ParsedFrame, x: Shape, t: Core)
    requires Tells(env, s, past) && !f.payload.Goaway? && x.Trails?
    requires Fits(x, s.conn, d, [TrailersReceived(x.id, x.fields), StreamEnded(x.id)])
    requires AnswerTells(env, s.conn, f, d, [TrailersReceived(x.id, x.fields), StreamEnded(x.id)])
    requires var u := s.(conn := d);
             Ends(if s.capture.streamId == Some(x.id) then u.(capture := s.capture.(trailers := x.fields)) else u, t)
    ensures Tells(env, t, past + [f])
  {
    hide BlocksOf, AllOctets, Interims, Due100, PendingIs, SaysGoaway, TrailersIn;
    BlocksFollow(env, s.conn, d, past, f, [TrailersReceived(x.id, x.fields), StreamEnded(x.id)]);
    AnswerInterims(s, d);
    TrailsBlock(env, s.conn, f, d, x);
    var done, b := BlocksOf(past).done, Newly(s.conn, f)[0];
    assert Newly(s.conn, f) == [b];
    if s.capture.streamId == Some(x.id) {
      StillFirst(env, s, t, done, [b]);
      TrailersNext(env, done, b);
      assert FieldsOf(env, done, b) == Some(x.fields);
      TellsFrom(env, s, t, past, f);
    } else {
      SameCapture(env, s, t, past, f, [b]);
    }
  }

  // ---------------------------------------------------------------- one whole frame

  lemma OpeningTold(env: Env, s: Core, d: Connection, past: seq<ParsedFrame>, f: ParsedFrame, x: Shape)
    requires Tells(env, s, past) && !f.payload.Goaway? && x.Opens?
    requires Fits(x, s.conn, d, [RequestReceived(x.id, x.fields, x.ended)] + EndEvents(x.id, x.ended))
    requires AnswerTells(env, s.conn, f, d, [RequestReceived(x.id, x.fields, x.ended)] + EndEvents(x.id, x.ended))
    requires s.capture.streamId.Some? ==> s.capture.streamId.value in s.conn.streams
    ensures var r := ProcessEvents(env, s.(conn := d), [RequestReceived(x.id, x.fields, x.ended)] + EndEvents(x.id, x.ended));
            r.raised.Quiet? ==> Tells(env, r.core, past + [f])
  {
    var u := s.(conn := d);
    var a := OnRequest(env, u, x.id, x.fields, x.ended);
    EventsSplit(env, u, RequestReceived(x.id, x.fields, x.ended), EndEvents(x.id, x.ended));
    hide OnRequest, ProcessEvents, Tells, AnswerTells, Fits, Interims, Waiting100;
    if a.raised.Quiet? {
      EndTells(env, a.core, x.id, x.ended);
      var t := ProcessEvents(env, a.core, EndEvents(x.id, x.ended)).core;
      if s.capture.streamId.None? {
        RequestTells(env, u, x.id, x.fields, x.ended);
        if ProcessEvents(env, a.core, EndEvents(x.id, x.ended)).raised.Quiet? { OpensTells(env, s, d, past, f, x, t); }
      } else {
        RefusalTells(env, u, x.id, x.fields, x.ended);
        if ProcessEvents(env, a.core, EndEvents(x.id, x.ended)).raised.Quiet? {
          SamePhasesBoth(a.core.conn, t.conn);
          RefusedTells(env, s, d, past, f, x, t);
        }
      }
    }
  }

  lemma SamePhasesBoth(c: Connection, d: Connection)
    requires d.streams == c.streams
    ensures forall j :: PhaseOf(d, j) == PhaseOf(c, j)
  {
  }

  lemma CarryingTold(env: Env, s: Core, d: Connection, past: seq<ParsedFrame>, f: ParsedFrame, x: Shape)
    requires Tells(env, s, past) && !f.payload.Goaway? && x.Carries?
    requires Fits(x, s.conn, d, [DataReceived(x.id, x.data, x.flow)] + EndEvents(x.id, x.ended))
    requires AnswerTells(env, s.conn, f, d, [DataReceived(x.id, x.data, x.flow)] + EndEvents(x.id, x.ended))
    ensures var r := ProcessEvents(env, s.(conn := d), [DataReceived(x.id, x.data, x.flow)] + EndEvents(x.id, x.ended));
            r.raised.Quiet? ==> Tells(env, r.core, past + [f])
  {
    var u := s.(conn := d);
    var a := OnData(env, u, x.id, x.data, x.flow);
    EventsSplit(env, u, DataReceived(x.id, x.data, x.flow), EndEvents(x.id, x.ended));
    hide OnData, ProcessEvents, Tells, AnswerTells, Fits, Interims;
    if a.raised.Quiet? {
      DataTells(env, u, x.id, x.data, x.flow);
      EndTells(env, a.core, x.id, x.ended);
      if ProcessEvents(env, a.core, EndEvents(x.id, x.ended)).raised.Quiet? {
        CarriesTells(env, s, d, past, f, x, ProcessEvents(env, a.core, EndEvents(x.id, x.ended)).core);
      }
    }
  }

  lemma TrailingTold(env: Env, s: Core, d: Connection, past: seq<ParsedFrame>, f: ParsedFrame, x: Shape)
    requires Tells(env, s, past) && !f.payload.Goaway? && x.Trails?
    requires Fits(x, s.conn, d, [TrailersReceived(x.id, x.fields), StreamEnded(x.id)])
    requires AnswerTells(env, s.conn, f, d, [TrailersReceived(x.id, x.fields), StreamEnded(x.id)])
    ensures var r := ProcessEvents(env, s.(conn := d), [TrailersReceived(x.id, x.fields), StreamEnded(x.id)]);
            r.raised.Quiet? ==> Tells(env, r.core, past + [f])
  {
    var u := s.(conn := d);
    var a := OnTrailers(env, u, x.id, x.fields);
    EventsSplit(env, u, TrailersReceived(x.id, x.fields), EndEvents(x.id, true));
    assert [TrailersReceived(x.id, x.fields)] + EndEvents(x.id, true) == [TrailersReceived(x.id, x.fields), StreamEnded(x.id)];
    hide ProcessEvents, Tells, AnswerTells, Fits, Interims, ValidFields;
    if a.raised.Quiet? {
      EndTells(env, a.core, x.id, true);
      if ProcessEvents(env, a.core, EndEvents(x.id, true)).raised.Quiet? {
        TrailsTells(env, s, d, past, f, x, ProcessEvents(env, a.core, EndEvents(x.id, true)).core);
      }
    }
  }

  lemma ResettingTold(env: Env, s: Core, d: Connection, past: seq<ParsedFrame>, f: ParsedFrame, id: nat)
    requires Tells(env, s, past) && !f.payload.Goaway? && Fits(Resets(id), s.conn, d, [StreamReset(id)])
    requires AnswerTells(env, s.conn, f, d, [StreamReset(id)])
    ensures var r := ProcessEvents(env, s.(conn := d), [StreamReset(id)]); Tells(env, r.core, past + [f])
  {
    hide Tells, AnswerTells, Fits, OnRequest, OnTrailers, OnData, OnEnd;
    assert [StreamReset(id)][1..] == [];
    ResetsTells(env, s, d, past, f, id);
  }

  lemma AnswerTold(env: Env, s: Core, d: Connection, events: seq<Event>, past: seq<ParsedFrame>, f: ParsedFrame, x: Shape)
    requires Tells(env, s, past) && !f.payload.Goaway? && Fits(x, s.conn, d, events) && AnswerTells(env, s.conn, f, d, events)
    requires s.capture.streamId.Some? ==> s.capture.streamId.value in s.conn.streams
    ensures var r := ProcessEvents(env, s.(conn := d), events); r.raised.Quiet? ==> Tells(env, r.core, past + [f])
  {
    hide Tells, AnswerTells;
    match x
    case Calm =>
      CalmTells(env, s, d, past, f);
      assert ProcessEvents(env, s.(conn := d), []) == Step(s.(conn := d), Quiet);
    case Opens(_, _, _) => OpeningTold(env, s, d, past, f, x);
    case Trails(_, _) => TrailingTold(env, s, d, past, f, x);
    case Carries(_, _, _, _) => CarryingTold(env, s, d, past, f, x);
    case Resets(id) => ResettingTold(env, s, d, past, f, id);
  }

  lemma FlushTells(env: Env, s: Core, frames: seq<ParsedFrame>)
    requires Tells(env, s, frames)
    ensures Tells(env, Flush(s), frames)
  {
    hide Interims, BlocksOf, TrailersIn, SaysGoaway, AllOctets, Due100, PendingIs;
    assert s.written + s.conn.outbound + [] == s.written + s.conn.outbound;
  }

  /** The frame as h2 gets it tells the same. */
  lemma ForwardedTells(env: Env, c: Connection, f: ParsedFrame, d: Connection, events: seq<Event>)
    requires Sane(f) && AnswerTells(env, c, Forwarded(f), d, events)
    ensures AnswerTells(env, c, f, d, events)
  {
    hide Decodes, Queues;
  }

  lemma SettingsTold(env: Env, s: Core, past: seq<ParsedFrame>, f: ParsedFrame)
    requires Tells(env, s, past) && f.payload.Settings? && ConnInv(s) && Clean(s)
    requires Adapter.ApplySettings(s.conn, f.payload.entries).Received?
    ensures Tells(env, s.(conn := Adapter.ApplySettings(s.conn, f.payload.entries).c), past + [f])
  {
    hide Tells, Adapter.ApplySettings, Adapter.SomeFaulty, Adapter.TooManyChanges;
    Adapter.SettingsTakeEffectInWireOrder(s.conn, f.payload.entries);
    var d := Adapter.InWireOrder(s.conn, f.payload.entries);
    SettingsAnswer(env, s.conn, f, d);
    CalmTells(env, s, d, past, f);
  }

  lemma SettingsAnswer(env: Env, c: Connection, f: ParsedFrame, d: Connection)
    requires f.payload.Settings? && c.outbound == [] && d == Adapter.InWireOrder(c, f.payload.entries)
    ensures AnswerTells(env, c, f, d, []) && SamePhases(c, d)
  {
    hide Adapter.SupportedOnly, Adapter.WindowAfter, Adapter.TableSizes, Effective;
  }

  lemma ForwardTold(env: Env, s: Core, past: seq<ParsedFrame>, f: ParsedFrame)
    requires Tells(env, s, past) && Set(s, past, f) && !f.payload.Goaway? && Forward(env, s, f).raised.Quiet?
    ensures Tells(env, Forward(env, s, f).core, past + [f])
  {
    hide Tells, Forward, AnswerTells, ReceiveFrame, ProcessEvents, Adapter.ApplySettings, Fits, Sane, Forwarded, ConnInv, IdleInv, Goaways,
         Flush;
    RequestKnown(s, past);
    hide BodyInv;
    if f.header.kind == SETTINGS && f.payload.Settings? && !f.payload.ack {
      var r := Adapter.ApplySettings(s.conn, f.payload.entries);
      ForwardQuiet(env, s, f, r);
      AppliedEvents(s.conn, f.payload.entries);
      SettingsTold(env, s, past, f);
      NoEvents(env, s.(conn := r.c));
      FlushTells(env, s.(conn := r.c), past + [f]);
    } else {
      var g := Forwarded(f);
      var r := ReceiveFrame(env, s.conn, s.capture.frames, g);
      ForwardQuiet(env, s, f, r);
      FrameTells(env, s.conn, s.capture.frames, g);
      ForwardedTells(env, s.conn, f, r.c, r.events);
      var x := ShapeOf(env, s.conn, s.capture.frames, g);
      AnswerTold(env, s, r.c, r.events, past, f, x);
      FlushTells(env, ProcessEvents(env, s.(conn := r.c), r.events).core, past + [f]);
    }
  }

  lemma AsideTold(env: Env, s: Core, t: Core, past: seq<ParsedFrame>, f: ParsedFrame)
    requires Tells(env, s, past) && !f.payload.Headers? && !f.payload.Continuation?
    requires t.conn == s.conn && t.capture == s.capture && t.written == s.written
    requires t.cancelled == (s.cancelled || (f.payload.Goaway? && f.payload.errorCode != 0))
    ensures Tells(env, t, past + [f])
  {
    BlocksNext(past, f);
    hide Interims, BlocksOf, TrailersIn, SaysGoaway, AllOctets, Due100, PendingIs;
    GoawayNext(past, f);
  }

  lemma DispatchTold(env: Env, s: Core, past: seq<ParsedFrame>, f: ParsedFrame)
    requires Tells(env, s, past) && Set(s, past, f) && Typed(f) && Dispatch(env, s, f).raised.Quiet?
    ensures Tells(env, Dispatch(env, s, f).core, past + [f])
  {
    hide Tells, Forward, OverPriorityLimit, Close, Ready, Goaways;
    var t := Dispatch(env, s, f).core;
    if f.header.kind in {ALTSVC, ORIGIN, PRIORITY} || f.payload.PriorityUpdate? || f.payload.Goaway? {
      AsideTold(env, s, t, past, f);
    } else {
      ForwardTold(env, s, past, f);
    }
  }

  lemma ChecksTell(env: Env, s: Core, t: Core, frames: seq<ParsedFrame>)
    requires Tells(env, s, frames) && t.conn == s.conn && t.written == s.written && t.cancelled == s.cancelled
    requires t.capture == s.capture.(frames := t.capture.frames, initialSettings := t.capture.initialSettings)
    ensures Tells(env, t, frames)
  {
    hide Interims, BlocksOf, TrailersIn, SaysGoaway, AllOctets, Due100, PendingIs;
  }

  lemma ProcessTold(env: Env, s: Core, past: seq<ParsedFrame>, f: ParsedFrame)
    requires Tells(env, s, past) && Poised(s, past, f) && ProcessFrame(env, s, f).raised.Quiet?
    ensures Tells(env, ProcessFrame(env, s, f).core, past + [f])
  {
    hide Tells, Dispatch, Poised, Set, Typed, Sane, Close;
    var a := OnFirstFrame(s, f);
    FirstFrameChecked(s, past, f);
    ChecksTell(env, s, a.core, past);
    PoisedIsSet(a.core, past, f);
    BlockChecked(a.core, past, f);
    var b := OnHeaderBlock(a.core, f);
    BlockLeaves(a.core, b.core, past, f);
    ChecksTell(env, a.core, b.core, past);
    DispatchTold(env, b.core, past, f);
  }

  /** One frame off the wire. */
  lemma FrameTold(env: Env, s: Core, wire: Bytes)
    requires Inv(s) && Tells(env, s, s.capture.frames) && TakeFrame(env, s, wire).raised.Quiet?
    ensures var t := TakeFrame(env, s, wire).core; Tells(env, t, t.capture.frames)
  {
    hide FrameSpec, ProcessFrame, Tells, Typed, Sane, Inv, Poised, Complete;
    var room := MAX_CAPTURE_ENTRIES - s.entries;
    EntriesFit(s);
    ParsedIsTyped(wire, room);
    var r := FrameSpec(wire, SERVER_MAX_FRAME_SIZE, false, true, Some(room));
    var f, past := r.frame, s.capture.frames;
    var u := s.(entries := s.entries + r.used, capture := s.capture.(frames := past + [f]));
    CapturePoised(s, u, f);
    ChecksTell(env, s, u, past);
    ProcessTold(env, u, past, f);
    FrameProcessed(env, u, past, f);
  }

  // ------------------------------------------------------------------------- runs

  ghost predicate Story(env: Env, s: Core) { Tells(env, s, s.capture.frames) && Counted(s, s.capture.frames) }

  lemma {:induction false} DrainTold(env: Env, s: Session)
    requires Inv(s.core) && Story(env, s.core) && Drain(env, s).raised.Quiet?
    ensures Story(env, Drain(env, s).session.core)
    decreases |s.buffer|
  {
    hide Inv, Tells, Counted, TakeFrame, Ended;
    if HasFrame(s.buffer) {
      var stop := FrameEnd(s.buffer);
      var wire := s.buffer[..stop];
      FrameTaken(env, s.core, wire);
      FrameTold(env, s.core, wire);
      FrameCounted(env, s.core, wire);
      DrainTold(env, s.(buffer := s.buffer[stop..], core := TakeFrame(env, s.core, wire).core));
    }
  }

  lemma ReceiveTold(env: Env, s: Session, data: Bytes)
    requires Inv(s.core) && Story(env, s.core) && !Receive(env, s, data).raised.Protocol?
    ensures Story(env, Receive(env, s, data).session.core)
  {
    hide Inv, Story, Drain, Ended, HasFrame, TooLong, Close;
    if data != [] {
      var t := s.(captureBytes := s.captureBytes + |data|, buffer := s.buffer + data);
      DrainKeeps(env, t);
      DrainTold(env, t);
      FlushNothing(Drain(env, t).session.core);
    }
  }

  /** Sending leaves the request alone. */
  lemma SendTold(env: Env, s: Core, d: Connection, id: nat, ended: bool, f: OutFrame)
    requires Story(env, s) && s.conn.outbound == [] && SendStep(s.conn, d, id, ended) && d.outbound == [f]
    requires !f.ResetSent? && (f.HeadersSent? ==> !(100 <= f.status < 200))
    ensures Story(env, Flush(s.(conn := d)))
  {
    hide BlocksOf, AllOctets, Due100, SaysGoaway, TrailersIn, Interims, PendingIs, Counted;
    SendCounted(s, d, id, ended, f);
    var t := Flush(s.(conn := d));
    QueuedInterims(s, s.(conn := d), [f]);
    assert t.written + t.conn.outbound == s.written + d.outbound;
    SentPhases(s.conn, d, id, ended);
  }

  lemma SendCounted(s: Core, d: Connection, id: nat, ended: bool, f: OutFrame)
    requires Counted(s, s.capture.frames) && SendStep(s.conn, d, id, ended) && s.conn.outbound == [] && d.outbound == [f] && !f.ResetSent?
    ensures Counted(Flush(s.(conn := d)), s.capture.frames)
  {
    hide Named, Carried, Credited, BodyBytes, Refusals;
    SentPhases(s.conn, d, id, ended);
    QueuedRefusals(s.written, [], [f]);
    assert [] + [f] == [f] && s.written + [f] + [] == s.written + [f];
    assert Others(d, s.capture.streamId) == Others(s.conn, s.capture.streamId) by { assert d.streams.Keys == s.conn.streams.Keys; }
    assert forall j :: j in s.conn.streams ==> j in d.streams.Keys;
  }

  lemma SentPhases(c: Connection, d: Connection, id: nat, ended: bool)
    requires SendStep(c, d, id, ended)
    ensures forall j :: PhaseOf(d, j) == Some(ClosedByReset) <==> PhaseOf(c, j) == Some(ClosedByReset)
    ensures c.streams == map[] ==> d.streams == map[]
  {
    assert forall j :: j in d.streams <==> j in c.streams.Keys;
  }

  lemma {:induction false} BodyTold(env: Env, s: Session, id: nat, body: Bytes, offset: nat, peer: Peer, taken: nat)
    requires Good(s.core) && Story(env, s.core) && offset <= |body|
    ensures var r := SendBody(env, s, id, body, offset, peer, taken); !r.session.core.closed ==> Story(env, r.session.core)
    decreases Budget(s) + (|body| - offset)
  {
    hide Good, Story, Receive, SendData, SendRoom, Flush, Liveness, Took, Settled;
    if offset < |body| && Liveness(s.core).Quiet? && id in s.core.conn.streams {
      if SendRoom(s.core.conn, id) <= 0 {
        ReadSpoken(env, s, peer(taken));
        var r := Receive(env, s, peer(taken));
        ReadTold(env, s, peer(taken));
        if r.raised.Quiet? {
          GoodIsOpen(r.session.core);
          BodyTold(env, r.session, id, body, offset, peer, taken + 1);
        }
      } else {
        var stop := StopAt(s.core.conn, id, body, offset);
        var data, ended := body[offset..stop], stop == |body|;
        if SendData(s.core.conn, id, data, ended).Some? {
          DataSpoken(s.core, id, data, ended);
          DataTold(env, s.core, id, data, ended);
          BodyTold(env, s.(core := Flush(s.core.(conn := SendData(s.core.conn, id, data, ended).value))), id, body, stop, peer, taken);
        }
      }
    }
  }

  lemma ReadTold(env: Env, s: Session, data: Bytes)
    requires Good(s.core) && Story(env, s.core)
    ensures var r := Receive(env, s, data); !r.session.core.closed ==> Story(env, r.session.core)
  {
    hide Story, Receive, Inv, HasFrame, TooLong, Took;
    ChunkKeeps(env, s, data);
    var r := Receive(env, s, data);
    if r.raised.Protocol? { EndedIsClosed(r.session.core, r.raised.code); } else { ReceiveTold(env, s, data); }
  }

  lemma DataTold(env: Env, s: Core, id: nat, data: Bytes, ended: bool)
    requires Good(s) && Story(env, s) && SendData(s.conn, id, data, ended).Some?
    ensures Story(env, Flush(s.(conn := SendData(s.conn, id, data, ended).value)))
  {
    CleanStart(s);
    DataIsSendStep(s.conn, id, data, ended);
    hide Story, Inv, SendStep, SendData, Flush;
    SendTold(env, s, SendData(s.conn, id, data, ended).value, id, ended, DataSent(id, data, ended));
  }

  lemma HeadTold(env: Env, s: Core, id: nat, status: nat, ended: bool)
    requires Good(s) && Story(env, s) && SendHeaders(env, s.conn, id, status, ended).Some? && !(100 <= status < 200)
    ensures Story(env, Flush(s.(conn := SendHeaders(env, s.conn, id, status, ended).value)))
  {
    CleanStart(s);
    HeadIsSendStep(env, s.conn, id, status, ended);
    hide Story, Inv, SendStep, SendHeaders, Flush;
    SendTold(env, s, SendHeaders(env, s.conn, id, status, ended).value, id, ended, Head(env, s.conn, id, status, ended));
  }

  lemma ResponseTold(env: Env, s: Session, content: Bytes, status: nat, peer: Peer, taken: nat)
    requires Good(s.core) && Story(env, s.core)
    ensures var r := SendResponse(env, s, content, status, peer, taken); !r.session.core.closed ==> Story(env, r.session.core)
  {
    hide Good, Story, SendBody, Flush;
    if s.core.capture.streamId.Some? {
      var id, body := s.core.capture.streamId.value, ResponseBody(content, status);
      if SendHeaders(env, s.core.conn, id, status, body == []).Some? {
        assert !(100 <= status < 200);
        hide SendHeaders;
        HeadSpoken(env, s.core, id, status, body == []);
        HeadTold(env, s.core, id, status, body == []);
        BodyTold(env, s.(core := Flush(s.core.(conn := SendHeaders(env, s.core.conn, id, status, body == []).value))), id, body, 0, peer, taken);
      }
    }
  }

  lemma BeganTold(env: Env)
    ensures Story(env, BEGAN.core)
  {
    BeganWritten();
    NoOctets();
    NoTrailers(env);
    HeadlessInterims([SettingsSent]);
    MildRefusals([SettingsSent]);
  }

  lemma StartTold(env: Env, incoming: Bytes)
    ensures var r := Initialize(env, FRESH_SESSION, incoming); !r.session.core.closed ==> Story(env, r.session.core)
  {
    hide Story, Receive, Text, Good;
    BeganIsGood();
    BeganTold(env);
    if PREFACE <= incoming && |incoming| > |PREFACE| { ReadTold(env, BEGAN, incoming[|PREFACE|..]); }
  }

  lemma {:induction false} ServeTold(env: Env, incoming: Bytes, calls: seq<Call>)
    ensures var r := Serve(env, incoming, calls); !r.session.core.closed ==> Story(env, r.session.core)
    decreases |calls|
  {
    hide Good, Story, Initialize, Receive, SendResponse, Whole;
    if calls == [] {
      StartTold(env, incoming);
    } else {
      var front, last := calls[..|calls| - 1], calls[|calls| - 1];
      ServeTold(env, incoming, front);
      ServeSpoken(env, incoming, front);
      var r := Serve(env, incoming, front);
      if r.raised.Quiet? {
        GoodIsOpen(r.session.core);
        match last
        case Read(data) => ReadTold(env, r.session, data);
        case Respond(content, status, peer) => ResponseTold(env, r.session, content, status, peer, 0);
      }
    }
  }

  /** The accepted request is the first header block of the connection: its stream, and its fields as they were
      decoded. Nothing is accepted before it and nothing replaces it. */
  lemma RequestIsTheFirstBlock(env: Env, incoming: Bytes, calls: seq<Call>)
    requires !Serve(env, incoming, calls).session.core.closed
    ensures var s := Serve(env, incoming, calls).session.core;
            var blocks := BlocksOf(s.capture.frames).done;
            && (s.capture.streamId.None? <==> blocks == [])
            && (blocks != [] ==> s.capture.streamId == Some(blocks[0].stream) && s.capture.headers.Some?
                                 && env.decode([], blocks[0].octets) == Decoded(s.capture.headers.value))
  {
    hide Serve, Interims, BlocksOf, Due100, SaysGoaway, TrailersIn;
    ServeTold(env, incoming, calls);
    NoOctets();
  }

  /** The captured trailers are the fields of the later block on the request's stream, decoded after all blocks
      before it; without one there are none. */
  lemma TrailersAreCaptured(env: Env, incoming: Bytes, calls: seq<Call>)
    requires var s := Serve(env, incoming, calls).session.core; !s.closed && !s.cancelled
    ensures var s := Serve(env, incoming, calls).session.core;
            s.capture.trailers == TrailersIn(env, BlocksOf(s.capture.frames).done)
  {
    hide Serve, Interims, BlocksOf, Due100, SaysGoaway, TrailersIn, FirstBlock;
    ServeTold(env, incoming, calls);
  }

  /** Informational heads: one 100 (Continue), on the request's stream, exactly if the request asks for it, can
      be given it, and did not end with its head. It is out by the time the next frame is read. */
  lemma ContinueIsSentOnce(env: Env, incoming: Bytes, calls: seq<Call>)
    requires !Serve(env, incoming, calls).session.core.closed
    ensures var s := Serve(env, incoming, calls).session.core;
            var blocks := BlocksOf(s.capture.frames).done;
            Interims(s.written) ==
              if s.capture.headers.Some? && blocks != [] && Waiting100(s.capture.headers.value) && !blocks[0].endStream
              then [blocks[0].stream] else []
  {
    hide Serve, Interims, BlocksOf, SaysGoaway, TrailersIn, Waiting100, Good, Whole;
    ServeTold(env, incoming, calls);
    ServeSpoken(env, incoming, calls);
    var s := Serve(env, incoming, calls).session.core;
    NothingQueuedIfGood(s);
    assert s.written + [] == s.written;
  }

  lemma NothingQueuedIfGood(s: Core)
    requires Good(s)
    ensures s.conn.outbound == []
  {
  }

  /** A request is cancelled by a GOAWAY with an error code or by the reset of its stream, and by nothing else. */
  lemma OnlyTheseCancel(env: Env, incoming: Bytes, calls: seq<Call>)
    requires !Serve(env, incoming, calls).session.core.closed
    ensures var s := Serve(env, incoming, calls).session.core;
            s.cancelled <==> SaysGoaway(s.capture.frames) || RequestReset(s)
  {
    hide Serve, Interims, BlocksOf, Due100, SaysGoaway, TrailersIn, FirstBlock, RequestReset;
    ServeTold(env, incoming, calls);
  }

  /** The idle streams a session remembers are the ones PRIORITY_UPDATE frames named, above the last stream opened;
      with the open streams there are never more than 100. */
  lemma IdleStreamsAreNamed(env: Env, incoming: Bytes, calls: seq<Call>)
    requires !Serve(env, incoming, calls).session.core.closed
    ensures var s := Serve(env, incoming, calls).session.core;
            s.idle == Named(s.capture.frames, s.conn.highest) && |Named(s.capture.frames, s.conn.highest)| + |OpenStreams(s.conn)| <= 100
  {
    hide Serve, Tells, BodyCounted, CreditKnown, Named, Good, Whole;
    ServeTold(env, incoming, calls);
    ServeSpoken(env, incoming, calls);
    GoodWeight(Serve(env, incoming, calls).session.core);
  }

  lemma GoodWeight(s: Core)
    requires Good(s)
    ensures |s.idle| + |OpenStreams(s.conn)| <= 100
  {
  }

  /** Every DATA frame of the request is acknowledged with its whole length, in order, as long as its stream has not
      been reset, and the octets counted are the ones its frames carry. */
  lemma BodyIsCredited(env: Env, incoming: Bytes, calls: seq<Call>, id: nat)
    requires var s := Serve(env, incoming, calls).session.core; !s.closed && s.capture.streamId == Some(id) && !RequestReset(s)
    ensures var s := Serve(env, incoming, calls).session.core;
            Credited(s.conn.credits, id) == Carried(s.capture.frames, id) && s.requestBytes == BodyBytes(s.capture.frames, id)
  {
    hide Serve, Tells, Named, CreditKnown, Carried, Credited, BodyBytes;
    ServeTold(env, incoming, calls);
  }

  /** Every stream opened besides the request's has been refused, with REFUSED_STREAM and once, and the request never. */
  lemma OtherStreamsAreRefused(env: Env, incoming: Bytes, calls: seq<Call>)
    requires !Serve(env, incoming, calls).session.core.closed
    ensures var s := Serve(env, incoming, calls).session.core;
            multiset(Refusals(s.written)) == multiset(set id | id in s.conn.streams && Some(id) != s.capture.streamId)
  {
    hide Serve, Tells, Named, CreditKnown, BodyCounted, Refusals, Good, Whole;
    ServeTold(env, incoming, calls);
    ServeSpoken(env, incoming, calls);
    var s := Serve(env, incoming, calls).session.core;
    NothingQueuedIfGood(s);
    assert s.written + [] == s.written;
  }
}
