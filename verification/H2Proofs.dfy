/** What one frame can do to the stand-in connection: the five shapes of an answer. */
module H2Proofs {
  import opened Wire
  import opened Frames
  import opened H2

  /** The GOAWAY codes among `frames`, in order. */
  function Goaways(frames: seq<OutFrame>): seq<int> {
    if frames == [] then []
    else
      var earlier, last := Goaways(frames[..|frames| - 1]), frames[|frames| - 1];
      if last.GoawaySent? then earlier + [last.code] else earlier
  }

  lemma {:induction false} GoawaysAppend(a: seq<OutFrame>, b: seq<OutFrame>)
    ensures Goaways(a + b) == Goaways(a) + Goaways(b)
  {
    if b == [] {
      assert a + b == a;
    } else {
      GoawaysAppend(a, b[..|b| - 1]);
      assert (a + b)[..|a + b| - 1] == a + b[..|b| - 1];
    }
  }

  lemma GoawaysOne(frames: seq<OutFrame>, f: OutFrame)
    ensures Goaways(frames + [f]) == if f.GoawaySent? then Goaways(frames) + [f.code] else Goaways(frames)
  {
    assert (frames + [f])[..|frames|] == frames;
  }

  lemma {:induction false} NoGoaways(frames: seq<OutFrame>)
    requires forall i :: 0 <= i < |frames| ==> !frames[i].GoawaySent?
    ensures Goaways(frames) == []
  {
    if frames != [] {
      NoGoaways(frames[..|frames| - 1]);
    }
  }

  // ----------------------------------------------------------------- streams

  function PhaseOf(c: Connection, id: nat): Option<Phase> {
    if id in c.streams then Some(c.streams[id].phase) else None
  }

  predicate RemoteEnded(p: Phase) { p.HalfClosedRemote? || p.ClosedByEnd? }

  /** Client streams are odd and no higher than the highest one opened. */
  ghost predicate StreamsOk(c: Connection) {
    forall id :: id in c.streams ==> id % 2 == 1 && id <= c.highest
  }

  ghost predicate SamePhases(c: Connection, d: Connection) {
    d.highest == c.highest && forall id :: PhaseOf(d, id) == PhaseOf(c, id)
  }

  /** Only stream `id` moved, and to phase `p`. */
  ghost predicate OnlyMoved(c: Connection, d: Connection, id: nat, p: Phase) {
    && d.highest == c.highest
    && PhaseOf(c, id).Some? && PhaseOf(d, id) == Some(p)
    && forall j :: j != id ==> PhaseOf(d, j) == PhaseOf(c, j)
  }

  lemma SameOpenCount(c: Connection, d: Connection)
    requires SamePhases(c, d)
    ensures OpenCount(d) == OpenCount(c)
  {
    assert forall id :: id in c.streams <==> PhaseOf(c, id).Some?;
    assert forall id :: id in d.streams <==> PhaseOf(d, id).Some?;
    assert OpenStreams(d) == OpenStreams(c);
  }

  lemma MovedOpenCount(c: Connection, d: Connection, id: nat, p: Phase)
    requires OnlyMoved(c, d, id, p) && Live(c.streams[id])
    ensures OpenCount(d) <= OpenCount(c)
    ensures !Live(d.streams[id]) ==> OpenCount(d) == OpenCount(c) - 1
  {
    var a, b := OpenStreams(c), OpenStreams(d);
    assert forall j :: j in c.streams <==> PhaseOf(c, j).Some?;
    assert forall j :: j in d.streams <==> PhaseOf(d, j).Some?;
    if Live(d.streams[id]) {
      assert a == b;
    } else {
      assert a == b + {id} && id !in b;
    }
  }

  // ------------------------------------------------------------------ answers

  datatype Shape =
    | Calm
    | Opens(id: nat, fields: Fields, ended: bool)
    | Trails(id: nat, fields: Fields)
    | Carries(id: nat, data: Bytes, flow: nat, ended: bool)
    | Resets(id: nat)

  function EndEvents(id: nat, ended: bool): seq<Event> { if ended then [StreamEnded(id)] else [] }

  function EndPhase(p: Phase): Phase { if p.HalfClosedLocal? then ClosedByEnd else HalfClosedRemote }

  /** The streams once `id` has been opened. */
  function WithStream(c: Connection, id: nat, ended: bool): map<nat, Stream> {
    c.streams[id := Stream(if ended then HalfClosedRemote else Open, Setting(c, INITIAL_WINDOW_SIZE))]
  }

  ghost predicate Fits(x: Shape, c: Connection, d: Connection, events: seq<Event>) {
    match x
    case Calm => events == [] && SamePhases(c, d)
    case Opens(id, fields, ended) =>
      && events == [RequestReceived(id, fields, ended)] + EndEvents(id, ended)
      && id % 2 == 1 && id > c.highest && d.highest == id && id !in c.streams
      && d.streams == WithStream(c, id, ended)
      && OpenCount(c) + 1 <= MAX_OPEN_STREAMS
    case Trails(id, fields) =>
      && events == [TrailersReceived(id, fields), StreamEnded(id)]
      && id in c.streams && (c.streams[id].phase.Open? || c.streams[id].phase.HalfClosedLocal?)
      && OnlyMoved(c, d, id, EndPhase(c.streams[id].phase))
    case Carries(id, data, flow, ended) =>
      && events == [DataReceived(id, data, flow)] + EndEvents(id, ended)
      && id in c.streams && (c.streams[id].phase.Open? || c.streams[id].phase.HalfClosedLocal?)
      && OnlyMoved(c, d, id, if ended then EndPhase(c.streams[id].phase) else c.streams[id].phase)
    case Resets(id) =>
      && events == [StreamReset(id)]
      && id in c.streams && Live(c.streams[id]) && OnlyMoved(c, d, id, ClosedByReset)
  }

  /** The header block h2 is collecting, in terms of the frame that starts or continues it. */
  ghost predicate PendingFollows(c: Connection, d: Connection, f: ParsedFrame) {
    match f.payload
    case Headers(_, _, _, endHeaders, _) =>
      c.pending.None? && (if endHeaders then d.pending.None? else d.pending.Some? && d.pending.value.stream == f.header.streamId)
    case Continuation(_, endHeaders) =>
      && c.pending.Some?
      && (if endHeaders then d.pending.None? else d.pending.Some? && d.pending.value.stream == c.pending.value.stream)
    case _ => d.pending == c.pending
  }

  ghost predicate Answered(c: Connection, f: ParsedFrame, r: Received) {
    match r
    case Broken(_) => false
    case Refused(d, code) => Goaways(d.outbound) == Goaways(c.outbound) + [code] && d.outbound != []
    case Received(d, events) =>
      && Goaways(d.outbound) == Goaways(c.outbound)
      && d.remote == c.remote && d.encoder == c.encoder
      && PendingFollows(c, d, f)
      && exists x :: Fits(x, c, d, events) && Explains(x, c, f)
  }

  /** Which frame an answer comes from: body octets only from DATA frames on known streams, and DATA on
      a stream is either carried, or it resets the stream, or it fell on one already reset. */
  ghost predicate Explains(x: Shape, c: Connection, f: ParsedFrame) {
    && (x.Carries? ==> f.payload.Data? && x.id == f.header.streamId && x.data == f.payload.data)
    && (f.payload.Data? && !x.Carries? ==>
          || x == Resets(f.header.streamId)
          || (x.Calm? && PhaseOf(c, f.header.streamId) == Some(ClosedByReset)))
  }

  lemma TerminateAnswers(c: Connection, d: Connection, f: ParsedFrame, code: int)
    requires Goaways(d.outbound) == Goaways(c.outbound)
    ensures Answered(c, f, Terminate(d, code))
  {
    GoawaysOne(d.outbound, GoawaySent(d.highest, code));
  }

  ghost predicate Untouched(c: Connection, d: Connection) {
    d.remote == c.remote && d.encoder == c.encoder
  }

  lemma CalmAnswers(c: Connection, d: Connection, f: ParsedFrame)
    requires Goaways(d.outbound) == Goaways(c.outbound) && Untouched(c, d) && PendingFollows(c, d, f)
    requires SamePhases(c, d)
    requires f.payload.Data? ==> PhaseOf(c, f.header.streamId) == Some(ClosedByReset)
    ensures Answered(c, f, Received(d, []))
  {
    assert Fits(Calm, c, d, []) && Explains(Calm, c, f);
  }

  lemma ResetAnswers(c: Connection, d: Connection, f: ParsedFrame, id: nat, code: int)
    requires Goaways(d.outbound) == Goaways(c.outbound) && Untouched(c, d) && PendingFollows(c, d, f)
    requires d.streams == c.streams && d.highest == c.highest && id in c.streams && Live(c.streams[id])
    requires f.payload.Data? ==> id == f.header.streamId
    ensures Answered(c, f, Received(Queue(SetPhase(d, id, ClosedByReset), [ResetSent(id, code)]), [StreamReset(id)]))
  {
    var e := Queue(SetPhase(d, id, ClosedByReset), [ResetSent(id, code)]);
    GoawaysOne(d.outbound, ResetSent(id, code));
    assert Fits(Resets(id), c, e, [StreamReset(id)]) && Explains(Resets(id), c, f);
  }

  /** `d` is `c` as far as streams and output go. */
  ghost predicate SameStreams(c: Connection, d: Connection) {
    Untouched(c, d) && d.streams == c.streams && d.highest == c.highest && d.outbound == c.outbound
  }

  lemma FieldsAnswer(c: Connection, d: Connection, f: ParsedFrame, id: nat, fields: Fields, endStream: bool)
    requires f.payload.Headers? || f.payload.Continuation?
    requires SameStreams(c, d) && PendingFollows(c, d, f)
    requires id !in c.streams ==> OpenCount(c) + 1 <= MAX_OPEN_STREAMS
    ensures Answered(c, f, OnFields(d, id, fields, endStream))
  {
    hide OpenCount;
    var r := OnFields(d, id, fields, endStream);
    if r.Refused? { TerminateAnswers(c, d, f, r.code); }
    else if id !in d.streams {
      var x := Opens(id, fields, endStream);
      assert Fits(x, c, r.c, r.events) && Explains(x, c, f);
    } else if d.streams[id].phase.HalfClosedRemote? { ResetAnswers(c, d, f, id, STREAM_CLOSED); }
    else if !Live(d.streams[id]) {
      GoawaysOne(d.outbound, ResetSent(id, STREAM_CLOSED));
      CalmAnswers(c, Queue(d, [ResetSent(id, STREAM_CLOSED)]), f);
    } else {
      assert Fits(Trails(id, fields), c, r.c, r.events) && Explains(Trails(id, fields), c, f);
    }
  }

  lemma HeaderBlockAnswers(env: Env, c: Connection, d: Connection, f: ParsedFrame, id: nat, endStream: bool, block: Bytes)
    requires f.payload.Headers? || f.payload.Continuation?
    requires SameStreams(c, d) && PendingFollows(c, d, f)
    ensures Answered(c, f, HeaderBlock(env, d, id, endStream, block))
  {
    hide OnFields, Answered, PendingFollows;
    assert OpenCount(d) == OpenCount(c) by { assert OpenStreams(d) == OpenStreams(c); }
    if id !in d.streams && OpenCount(d) + 1 > MAX_OPEN_STREAMS {
      TerminateAnswers(c, d, f, PROTOCOL_ERROR);
    } else {
      match env.decode(d.decoded, block)
      case Corrupt => TerminateAnswers(c, d, f, COMPRESSION_ERROR);
      case Oversized => TerminateAnswers(c, d, f, ENHANCE_YOUR_CALM);
      case Decoded(fields) =>
        var e := d.(decoded := d.decoded + [block], decodedBytes := d.decodedBytes + FieldBytes(fields));
        assert PendingFollows(c, e, f) by { SamePending(c, d, e, f); }
        TerminateAnswers(c, e, f, ENHANCE_YOUR_CALM);
        FieldsAnswer(c, e, f, id, fields, endStream);
    }
  }

  lemma SamePending(c: Connection, d: Connection, e: Connection, f: ParsedFrame)
    requires PendingFollows(c, d, f) && e.pending == d.pending
    ensures PendingFollows(c, e, f)
  {
  }

  lemma DataAnswers(c: Connection, f: ParsedFrame)
    requires f.payload.Data?
    ensures Answered(c, f, ReceiveData(c, f.header.streamId, f.payload.data, f.header.length, f.payload.endStream))
  {
    var id, data, ended := f.header.streamId, f.payload.data, f.payload.endStream;
    var r := ReceiveData(c, id, data, f.header.length, ended);
    if r.Refused? { TerminateAnswers(c, c, f, r.code); }
    else if c.streams[id].phase.HalfClosedRemote? { ResetAnswers(c, c, f, id, STREAM_CLOSED); }
    else if !Live(c.streams[id]) {
      GoawaysOne(c.outbound, ResetSent(id, STREAM_CLOSED));
      CalmAnswers(c, Queue(c, [ResetSent(id, STREAM_CLOSED)]), f);
    } else {
      var x := Carries(id, data, f.header.length, ended);
      assert r.events == [DataReceived(id, data, f.header.length)] + EndEvents(id, ended);
      assert Fits(x, c, r.c, r.events) && Explains(x, c, f);
    }
  }

  lemma CreditAnswers(c: Connection, f: ParsedFrame)
    requires f.payload.WindowUpdate?
    ensures Answered(c, f, ReceiveCredit(c, f.header.streamId, f.payload.increment))
  {
    var id, increment := f.header.streamId, f.payload.increment;
    var r := ReceiveCredit(c, id, increment);
    if r.Refused? { TerminateAnswers(c, c, f, r.code); }
    else if r.events != [] { ResetAnswers(c, c, f, id, FLOW_CONTROL_ERROR); }
    else { CalmAnswers(c, r.c, f); }
  }

  lemma ResetFrameAnswers(c: Connection, f: ParsedFrame)
    requires f.payload.RstStream?
    ensures Answered(c, f, ReceiveReset(c, f.header.streamId))
  {
    var id := f.header.streamId;
    var r := ReceiveReset(c, id);
    if r.events == [] { CalmAnswers(c, c, f); }
    else { assert Fits(Resets(id), c, r.c, r.events) && Explains(Resets(id), c, f); }
  }

  /** Every frame gets one of the five answers, or a ProtocolError with exactly one GOAWAY queued. */
  lemma FrameIsAnswered(env: Env, c: Connection, frames: seq<ParsedFrame>, f: ParsedFrame)
    ensures Answered(c, f, ReceiveFrame(env, c, frames, f))
  {
    var r := ReceiveFrame(env, c, frames, f);
    if env.refuses(c, frames, f).Some? {
      TerminateAnswers(c, c, f, env.refuses(c, frames, f).value);
    } else {
      match f.payload
      case Continuation(block, endHeaders) =>
        if c.pending.None? || c.pending.value.frames + 1 > CONTINUATION_BACKLOG { TerminateAnswers(c, c, f, PROTOCOL_ERROR); }
        else if endHeaders {
          var p := c.pending.value;
          HeaderBlockAnswers(env, c, c.(pending := None), f, p.stream, p.endStream, p.block + block);
        } else { CalmAnswers(c, r.c, f); }
      case Headers(block, _, endStream, endHeaders, _) =>
        if c.pending.Some? { TerminateAnswers(c, c, f, PROTOCOL_ERROR); }
        else if endHeaders { HeaderBlockAnswers(env, c, c, f, f.header.streamId, endStream, block); }
        else { CalmAnswers(c, r.c, f); }
      case Data(_, _, _) => DataAnswers(c, f);
      case RstStream(_) => ResetFrameAnswers(c, f);
      case WindowUpdate(_) => CreditAnswers(c, f);
      case Ping(data, ack) =>
        GoawaysOne(c.outbound, PingAck(data));
        CalmAnswers(c, r.c, f);
      case _ => CalmAnswers(c, c, f);
    }
  }

  // --------------------------------------------------- what receiving never sends

  predicate BodyFrame(f: OutFrame) { f.DataSent? || (f.HeadersSent? && f.endStream) }

  /** Nothing that carries a body or ends a stream. */
  predicate Plain(out: seq<OutFrame>) { forall i :: 0 <= i < |out| ==> !BodyFrame(out[i]) }

  /** The frames that carry a body or end a stream. */
  function BodyFrames(out: seq<OutFrame>): seq<OutFrame> {
    if out == [] then []
    else
      var earlier, f := BodyFrames(out[..|out| - 1]), out[|out| - 1];
      if BodyFrame(f) then earlier + [f] else earlier
  }

  lemma {:induction false} BodyFramesAppend(a: seq<OutFrame>, b: seq<OutFrame>)
    ensures BodyFrames(a + b) == BodyFrames(a) + BodyFrames(b)
  {
    if b == [] {
      assert a + b == a;
    } else {
      BodyFramesAppend(a, b[..|b| - 1]);
      assert (a + b)[..|a + b| - 1] == a + b[..|b| - 1];
    }
  }

  lemma {:induction false} PlainHasNone(out: seq<OutFrame>)
    requires Plain(out)
    ensures BodyFrames(out) == []
  {
    if out != [] { PlainHasNone(out[..|out| - 1]); }
  }

  /** Nothing queued that carries a body or ends a stream, and the client's settings in order. */
  predicate Hushed(c: Connection, d: Connection) {
    BodyFrames(d.outbound) == BodyFrames(c.outbound) && (Settled(c) ==> Settled(d))
  }

  lemma QueueHushed(c: Connection, d: Connection, frames: seq<OutFrame>)
    requires Plain(frames) && d.outbound == c.outbound + frames && (Settled(c) ==> Settled(d))
    ensures Hushed(c, d)
  {
    hide Settled;
    BodyFramesAppend(c.outbound, frames);
    PlainHasNone(frames);
  }

  lemma AnswerHushed(c: Connection, r: Received)
    requires || r.c.outbound == c.outbound
             || (|r.c.outbound| == |c.outbound| + 1 && c.outbound <= r.c.outbound && !BodyFrame(r.c.outbound[|c.outbound|]))
    requires Settled(c) ==> Settled(r.c)
    ensures Hushed(c, r.c)
  {
    hide Settled;
    if r.c.outbound != c.outbound {
      var g := r.c.outbound[|c.outbound|];
      assert r.c.outbound == c.outbound + [g];
      QueueHushed(c, r.c, [g]);
    }
  }

  lemma BlockHushed(env: Env, c: Connection, id: nat, endStream: bool, block: Bytes)
    ensures Hushed(c, HeaderBlock(env, c, id, endStream, block).c)
  {
    hide BodyFrames, OpenCount, FieldBytes, Live;
    AnswerHushed(c, HeaderBlock(env, c, id, endStream, block));
  }

  lemma BodyHushed(c: Connection, id: nat, data: Bytes, flow: nat, endStream: bool)
    ensures Hushed(c, ReceiveData(c, id, data, flow, endStream).c) && Hushed(c, ReceiveReset(c, id).c)
  {
    hide BodyFrames, Live;
    AnswerHushed(c, ReceiveData(c, id, data, flow, endStream));
    AnswerHushed(c, ReceiveReset(c, id));
  }

  lemma CreditHushed(c: Connection, id: nat, increment: nat)
    ensures Hushed(c, ReceiveCredit(c, id, increment).c)
  {
    hide BodyFrames, Live;
    AnswerHushed(c, ReceiveCredit(c, id, increment));
  }

  /** Receiving a frame queues acknowledgements, resets and GOAWAYs only. */
  lemma FrameHushed(env: Env, c: Connection, frames: seq<ParsedFrame>, f: ParsedFrame)
    ensures Hushed(c, ReceiveFrame(env, c, frames, f).c)
  {
    hide BodyFrames, HeaderBlock, ReceiveData, ReceiveCredit, ReceiveReset, Live;
    var id, r := f.header.streamId, ReceiveFrame(env, c, frames, f);
    if env.refuses(c, frames, f).Some? {
      AnswerHushed(c, r);
    } else {
      match f.payload
      case Continuation(block, endHeaders) =>
        if c.pending.Some? {
          var p := c.pending.value;
          BlockHushed(env, c.(pending := None), p.stream, p.endStream, p.block + block);
        }
        if c.pending.None? || c.pending.value.frames + 1 > CONTINUATION_BACKLOG || !endHeaders { AnswerHushed(c, r); }
      case Headers(block, _, endStream, endHeaders, _) =>
        BlockHushed(env, c, id, endStream, block);
        if c.pending.Some? || !endHeaders { AnswerHushed(c, r); }
      case Data(data, endStream, _) => BodyHushed(c, id, data, f.header.length, endStream);
      case RstStream(_) => BodyHushed(c, id, [], 0, false);
      case WindowUpdate(increment) => CreditHushed(c, id, increment);
      case _ => AnswerHushed(c, r);
    }
  }
}
