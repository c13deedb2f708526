/** Flow control as bookkeeping over whole runs (section 6.9 of RFC 9113): every send window is what the
    client granted, minus what has been sent. */
module FlowControl {
  import opened Wire
  import opened Frames
  import opened H2
  import opened H2Proofs
  import opened SessionSpec
  import opened SessionInvariant
  import opened SessionSteps
  import Adapter
  import Hpack

  const DEFAULT_WINDOW := 65535

  // ------------------------------------------------------------------- ledger

  /** Credit granted to a stream, or to the connection as stream 0, by the captured WINDOW_UPDATE frames. */
  function Credit(frames: seq<ParsedFrame>, id: nat): nat {
    if frames == [] then 0
    else Credit(frames[..|frames| - 1], id) + Granted(frames[|frames| - 1], id)
  }

  function Granted(f: ParsedFrame, id: nat): nat {
    if f.payload.WindowUpdate? && f.header.streamId == id then f.payload.increment else 0
  }

  /** Body octets sent on one stream, or on all of them. */
  function Octets(out: seq<OutFrame>, who: Option<nat>): nat {
    if out == [] then 0
    else
      var f := out[|out| - 1];
      Octets(out[..|out| - 1], who) + if f.DataSent? && (who.None? || who == Some(f.stream)) then |f.data| else 0
  }

  ghost predicate SentOnKnown(c: Connection, out: seq<OutFrame>) {
    forall i :: 0 <= i < |out| && out[i].DataSent? ==> out[i].stream in c.streams
  }

  ghost predicate CreditOnKnown(c: Connection, frames: seq<ParsedFrame>) {
    forall i :: 0 <= i < |frames| && frames[i].payload.WindowUpdate? ==> frames[i].header.streamId <= c.highest
  }

  predicate Announces(f: ParsedFrame) { f.payload.Settings? && !f.payload.ack }

  /** The client's settings after its captured SETTINGS frames: the supported entries, the last one wins. */
  function Told(frames: seq<ParsedFrame>): map<nat, nat> {
    if frames == [] then H2.FRESH.remote else After(Told(frames[..|frames| - 1]), frames[|frames| - 1])
  }

  function After(remote: map<nat, nat>, f: ParsedFrame): map<nat, nat> {
    if Announces(f) then remote + Effective(Adapter.SupportedOnly(f.payload.entries)) else remote
  }

  /** What the client says about one setting. */
  function Says(frames: seq<ParsedFrame>, id: nat): nat { if id in Told(frames) then Told(frames)[id] else 0 }

  ghost predicate Balanced(c: Connection, out: seq<OutFrame>, frames: seq<ParsedFrame>) {
    && c.window == DEFAULT_WINDOW + Credit(frames, 0) - Octets(out, None) && c.window >= 0
    && (forall id :: id in c.streams && Live(c.streams[id]) ==>
          c.streams[id].window == Setting(c, INITIAL_WINDOW_SIZE) + Credit(frames, id) - Octets(out, Some(id)))
    && SentOnKnown(c, out) && CreditOnKnown(c, frames) && c.remote == Told(frames)
  }

  /** The connection window never goes below zero, stream windows only through a smaller
      INITIAL_WINDOW_SIZE; both are what was granted minus what was sent. And the client's HPACK table
      lags behind ours by the queued size updates only. */
  ghost predicate Ledger(s: Core) {
    Balanced(s.conn, s.written + s.conn.outbound, s.capture.frames) && Synced(s.conn, s.written)
  }

  /** The client's decoder after the blocks it was sent. */
  function Client(out: seq<OutFrame>): Hpack.Decoder {
    if out == [] then Hpack.FRESH.decoder
    else
      var earlier, f := Client(out[..|out| - 1]), out[|out| - 1];
      if f.HeadersSent? then Hpack.Decoded(earlier, f.updates, f.literals) else earlier
  }

  ghost predicate Synced(c: Connection, out: seq<OutFrame>) {
    Hpack.InStep(Hpack.Ends(c.encoder, Client(out + c.outbound)))
  }

  ghost predicate StaysSynced(c: Connection, d: Connection) {
    forall out :: Synced(c, out) ==> Synced(d, out)
  }

  predicate NoHeads(out: seq<OutFrame>) { forall i :: 0 <= i < |out| ==> !out[i].HeadersSent? }

  lemma {:induction false} NoHeadsClient(a: seq<OutFrame>, b: seq<OutFrame>)
    requires NoHeads(b)
    ensures Client(a + b) == Client(a)
  {
    if b == [] {
      assert a + b == a;
    } else {
      NoHeadsClient(a, b[..|b| - 1]);
      assert (a + b)[..|a + b| - 1] == a + b[..|b| - 1];
    }
  }

  /** Queueing frames other than heads leaves the two tables as far apart as they were. */
  lemma QueueSynced(c: Connection, d: Connection, frames: seq<OutFrame>)
    requires NoHeads(frames) && d.encoder == c.encoder && d.outbound == c.outbound + frames
    ensures StaysSynced(c, d)
  {
    forall out | Synced(c, out) ensures Synced(d, out) {
      NoHeadsClient(out + c.outbound, frames);
      assert out + d.outbound == out + c.outbound + frames;
    }
  }

  /** A head carries the queued updates: encoder and decoder take the same step. */
  lemma HeadSynced(env: Env, c: Connection, d: Connection, id: nat, status: nat, ended: bool)
    requires d.encoder == Hpack.Encoded(c.encoder, env.indexed(c.encoder, status))
    requires d.outbound == c.outbound + [Head(env, c, id, status, ended)]
    ensures StaysSynced(c, d)
  {
    hide Hpack.InStep, Hpack.Encoded, Hpack.Decoded, Hpack.Updates;
    forall out | Synced(c, out) ensures Synced(d, out) {
      var fields, before := env.indexed(c.encoder, status), out + c.outbound;
      Hpack.AdvanceKeepsStep(Hpack.Ends(c.encoder, Client(before)), Hpack.Block(fields));
      assert out + d.outbound == before + [Head(env, c, id, status, ended)];
      assert (before + [Head(env, c, id, status, ended)])[..|before|] == before;
    }
  }

  /** No response has been finished: no stream is closed on our side. */
  ghost predicate Unsent(c: Connection) {
    forall id :: id in c.streams ==> !c.streams[id].phase.HalfClosedLocal? && !c.streams[id].phase.ClosedByEnd?
  }

  /** Receiving sends no body and ends no stream. */
  ghost predicate NothingSent(s: Core, t: Core) {
    s.written <= t.written && Plain(t.written[|s.written|..])
  }

  // ----------------------------------------------------------------- helpers

  lemma CreditNext(frames: seq<ParsedFrame>, f: ParsedFrame, id: nat)
    ensures Credit(frames + [f], id) == Credit(frames, id) + Granted(f, id)
  {
    assert (frames + [f])[..|frames|] == frames;
  }

  lemma {:induction false} OctetsAppend(a: seq<OutFrame>, b: seq<OutFrame>, who: Option<nat>)
    ensures Octets(a + b, who) == Octets(a, who) + Octets(b, who)
  {
    if b == [] {
      assert a + b == a;
    } else {
      OctetsAppend(a, b[..|b| - 1], who);
      assert (a + b)[..|a + b| - 1] == a + b[..|b| - 1];
    }
  }

  lemma {:induction false} NoOctets(out: seq<OutFrame>, who: Option<nat>)
    requires Plain(out)
    ensures Octets(out, who) == 0
  {
    if out != [] { NoOctets(out[..|out| - 1], who); }
  }

  lemma {:induction false} NothingSentYet(c: Connection, out: seq<OutFrame>, id: nat)
    requires SentOnKnown(c, out) && id !in c.streams
    ensures Octets(out, Some(id)) == 0
  {
    if out != [] {
      assert forall i :: 0 <= i < |out| - 1 ==> out[..|out| - 1][i] == out[i];
      NothingSentYet(c, out[..|out| - 1], id);
    }
  }

  lemma {:induction false} NoCreditYet(c: Connection, frames: seq<ParsedFrame>, id: nat)
    requires CreditOnKnown(c, frames) && id > c.highest
    ensures Credit(frames, id) == 0
  {
    if frames != [] {
      assert forall i :: 0 <= i < |frames| - 1 ==> frames[..|frames| - 1][i] == frames[i];
      NoCreditYet(c, frames[..|frames| - 1], id);
    }
  }

  // ------------------------------------------------------- what a frame moves

  /** `d.outbound` is `c.outbound` and some plain frames. */
  ghost predicate Appends(c: Connection, d: Connection) {
    c.outbound <= d.outbound && Plain(d.outbound[|c.outbound|..])
  }

  /** A live stream of `d`: an old one with its window moved by `gain`, or a new one. */
  ghost predicate StreamMoved(c: Connection, d: Connection, id: nat, gain: int)
    requires id in d.streams
  {
    if id in c.streams then Live(c.streams[id]) && d.streams[id].window == c.streams[id].window + gain
    else c.highest < id <= d.highest && d.streams[id].window == Setting(d, INITIAL_WINDOW_SIZE) && gain == 0
  }

  /** What one frame may do to the windows. `shift` is the change of the initial window. */
  ghost predicate Moves(c: Connection, d: Connection, f: ParsedFrame, shift: int) {
    && Appends(c, d) && d.highest >= c.highest
    && d.window == c.window + Granted(f, 0) && d.remote == After(c.remote, f)
    && Setting(d, INITIAL_WINDOW_SIZE) == Setting(c, INITIAL_WINDOW_SIZE) + shift
    && (forall id :: id in c.streams ==> id in d.streams)
    && (forall id :: id in d.streams && Live(d.streams[id]) ==> StreamMoved(c, d, id, Granted(f, id) + shift))
    && (f.payload.WindowUpdate? ==> f.header.streamId <= d.highest && shift == 0)
    && (Unsent(c) ==> Unsent(d)) && StaysSynced(c, d)
  }

  /** What an event may do: reset a stream, queue frames, and nothing else. */
  ghost predicate Unmoved(c: Connection, d: Connection) {
    && Appends(c, d) && d.highest == c.highest && d.window == c.window && d.remote == c.remote
    && d.streams.Keys == c.streams.Keys
    && (forall id :: id in d.streams && Live(d.streams[id]) ==> d.streams[id] == c.streams[id])
    && (Unsent(c) ==> Unsent(d)) && StaysSynced(c, d)
  }

  lemma AppendsTwice(a: Connection, b: Connection, c: Connection)
    requires Appends(a, b) && Appends(b, c)
    ensures Appends(a, c)
  {
    var n := |a.outbound|;
    assert c.outbound[n..] == b.outbound[n..] + c.outbound[|b.outbound|..];
  }

  lemma MovesThenUnmoved(a: Connection, b: Connection, c: Connection, f: ParsedFrame, shift: int)
    requires Moves(a, b, f, shift) && Unmoved(b, c)
    ensures Moves(a, c, f, shift)
  {
    AppendsTwice(a, b, c);
    hide Appends, Unsent;
    assert forall id :: id in b.streams ==> id in c.streams.Keys;
    assert forall id :: id in c.streams ==> id in b.streams.Keys;
  }

  lemma UnmovedTwice(a: Connection, b: Connection, c: Connection)
    requires Unmoved(a, b) && Unmoved(b, c)
    ensures Unmoved(a, c)
  {
    AppendsTwice(a, b, c);
    hide Appends, Unsent;
  }

  /** The books stay balanced over any frame that moves windows as it may. */
  lemma MovesKeepBalance(c: Connection, d: Connection, out: seq<OutFrame>, past: seq<ParsedFrame>, f: ParsedFrame, shift: int)
    requires Balanced(c, out + c.outbound, past) && Moves(c, d, f, shift)
    ensures Balanced(d, out + d.outbound, past + [f])
  {
    hide Credit, Octets, Unsent, Live, After;
    var extra := d.outbound[|c.outbound|..];
    var a := out + c.outbound;
    assert out + d.outbound == a + extra;
    CreditNext(past, f, 0);
    OctetsAppend(a, extra, None);
    NoOctets(extra, None);
    KnownStays(c, d, a, extra, past, f);
    assert (past + [f])[..|past|] == past;
    assert Told(past + [f]) == After(Told(past), f);
    forall id | id in d.streams && Live(d.streams[id])
      ensures d.streams[id].window == Setting(d, INITIAL_WINDOW_SIZE) + Credit(past + [f], id) - Octets(a + extra, Some(id))
    {
      StreamStaysBalanced(c, d, a, extra, past, f, id, Granted(f, id) + shift);
    }
    hide SentOnKnown, CreditOnKnown, Plain;
  }

  lemma KnownStays(c: Connection, d: Connection, a: seq<OutFrame>, extra: seq<OutFrame>, past: seq<ParsedFrame>, f: ParsedFrame)
    requires SentOnKnown(c, a) && CreditOnKnown(c, past) && Plain(extra) && d.highest >= c.highest
    requires forall id :: id in c.streams ==> id in d.streams
    requires f.payload.WindowUpdate? ==> f.header.streamId <= d.highest
    ensures SentOnKnown(d, a + extra) && CreditOnKnown(d, past + [f])
  {
  }

  lemma StreamStaysBalanced(c: Connection, d: Connection, a: seq<OutFrame>, extra: seq<OutFrame>,
                            past: seq<ParsedFrame>, f: ParsedFrame, id: nat, gain: int)
    requires Balanced(c, a, past) && Plain(extra) && id in d.streams && StreamMoved(c, d, id, gain)
    requires gain == Granted(f, id) + Setting(d, INITIAL_WINDOW_SIZE) - Setting(c, INITIAL_WINDOW_SIZE)
    requires id !in c.streams ==> Granted(f, id) == 0
    ensures d.streams[id].window == Setting(d, INITIAL_WINDOW_SIZE) + Credit(past + [f], id) - Octets(a + extra, Some(id))
  {
    hide Credit, Octets;
    CreditNext(past, f, id);
    OctetsAppend(a, extra, Some(id));
    NoOctets(extra, Some(id));
    if id !in c.streams {
      NothingSentYet(c, a, id);
      NoCreditYet(c, past, id);
    }
  }

  // ------------------------------------------------------------ frames, via h2

  lemma MovesNothing(c: Connection, d: Connection, f: ParsedFrame)
    requires Unmoved(c, d) && !f.payload.WindowUpdate? && !Announces(f)
    ensures Moves(c, d, f, 0)
  {
    assert forall id :: id in c.streams ==> id in d.streams.Keys;
    assert forall id :: id in d.streams ==> id in c.streams.Keys;
  }

  lemma QueueUnmoved(c: Connection, frames: seq<OutFrame>)
    requires Plain(frames) && NoHeads(frames)
    ensures Unmoved(c, Queue(c, frames))
  {
    QueueSynced(c, Queue(c, frames), frames);
    assert (c.outbound + frames)[|c.outbound|..] == frames;
  }

  lemma PhaseUnmoved(c: Connection, id: nat, phase: Phase)
    requires id in c.streams && (phase.ClosedByReset? || (Live(c.streams[id]) && phase == EndPhase(c.streams[id].phase)))
    requires phase.ClosedByReset? || c.streams[id].phase.Open? || c.streams[id].phase.HalfClosedLocal?
    ensures Appends(c, SetPhase(c, id, phase))
    ensures Moves(c, SetPhase(c, id, phase), Nothing(), 0)
  {
  }

  /** Some frame that grants nothing. */
  function Nothing(): ParsedFrame { ParsedFrame(FrameHeader(0, PING, 0, 0), Ping([], true), []) }

  lemma OnlyGrantsCount(c: Connection, d: Connection, f: ParsedFrame, g: ParsedFrame)
    requires Moves(c, d, f, 0) && !f.payload.WindowUpdate? && !g.payload.WindowUpdate? && !Announces(f) && !Announces(g)
    ensures Moves(c, d, g, 0)
  {
  }

  lemma FieldsMove(c: Connection, id: nat, fields: Fields, endStream: bool)
    ensures var r := OnFields(c, id, fields, endStream); r.Received? ==> Moves(c, r.c, Nothing(), 0)
  {
    var r := OnFields(c, id, fields, endStream);
    if r.Received? {
      if id !in c.streams {
      } else if c.streams[id].phase.HalfClosedRemote? {
        PhaseUnmoved(c, id, ClosedByReset);
        QueueUnmoved(SetPhase(c, id, ClosedByReset), [ResetSent(id, STREAM_CLOSED)]);
        MovesThenUnmoved(c, SetPhase(c, id, ClosedByReset), r.c, Nothing(), 0);
      } else if !Live(c.streams[id]) {
        QueueUnmoved(c, [ResetSent(id, STREAM_CLOSED)]);
        MovesNothing(c, r.c, Nothing());
      } else {
        PhaseUnmoved(c, id, EndPhase(c.streams[id].phase));
      }
    }
  }

  lemma BlockMoves(env: Env, c: Connection, id: nat, endStream: bool, block: Bytes)
    ensures var r := HeaderBlock(env, c, id, endStream, block); r.Received? ==> Moves(c, r.c, Nothing(), 0)
  {
    hide OnFields, Moves, FieldBytes, OpenCount;
    match env.decode(c.decoded, block)
    case Decoded(fields) =>
      var d := c.(decoded := c.decoded + [block], decodedBytes := c.decodedBytes + FieldBytes(fields));
      FieldsMove(d, id, fields, endStream);
      var r := OnFields(d, id, fields, endStream);
      if r.Received? { MovesFrom(c, d, r.c, Nothing()); }
    case _ =>
  }

  /** Windows, streams, settings and output are all that `Moves` looks at. */
  lemma MovesFrom(c: Connection, d: Connection, e: Connection, f: ParsedFrame)
    requires Moves(d, e, f, 0)
    requires d.streams == c.streams && d.highest == c.highest && d.window == c.window
    requires d.remote == c.remote && d.outbound == c.outbound && d.encoder == c.encoder
    ensures Moves(c, e, f, 0)
  {
    assert forall out :: Synced(c, out) ==> Synced(d, out);
  }

  lemma DataMoves(c: Connection, id: nat, data: Bytes, flow: nat, endStream: bool)
    ensures var r := ReceiveData(c, id, data, flow, endStream); r.Received? ==> Moves(c, r.c, Nothing(), 0)
  {
    var r := ReceiveData(c, id, data, flow, endStream);
    if r.Received? {
      if c.streams[id].phase.HalfClosedRemote? {
        PhaseUnmoved(c, id, ClosedByReset);
        QueueUnmoved(SetPhase(c, id, ClosedByReset), [ResetSent(id, STREAM_CLOSED)]);
        MovesThenUnmoved(c, SetPhase(c, id, ClosedByReset), r.c, Nothing(), 0);
      } else if !Live(c.streams[id]) {
        QueueUnmoved(c, [ResetSent(id, STREAM_CLOSED)]);
        MovesNothing(c, r.c, Nothing());
      } else if endStream {
        PhaseUnmoved(c, id, EndPhase(c.streams[id].phase));
      }
    }
  }

  /** A window that would overflow takes its stream down with it; a stream that is gone ignores credit. */
  lemma CreditMoves(c: Connection, f: ParsedFrame)
    requires f.payload.WindowUpdate? && StreamsOk(c)
    ensures var r := ReceiveCredit(c, f.header.streamId, f.payload.increment); r.Received? ==> Moves(c, r.c, f, 0)
  {
    var id := f.header.streamId;
    var r := ReceiveCredit(c, id, f.payload.increment);
    if r.Received? && r.events != [] {
      QueueUnmoved(SetPhase(c, id, ClosedByReset), [ResetSent(id, FLOW_CONTROL_ERROR)]);
      MovesThenUnmoved(c, SetPhase(c, id, ClosedByReset), r.c, f, 0);
    }
  }

  lemma FrameMoves(env: Env, c: Connection, frames: seq<ParsedFrame>, f: ParsedFrame)
    requires StreamsOk(c) && !Announces(f)
    ensures var r := ReceiveFrame(env, c, frames, f); r.Received? ==> Moves(c, r.c, f, 0)
  {
    hide Moves, HeaderBlock, ReceiveData, ReceiveCredit, StreamsOk;
    var r := ReceiveFrame(env, c, frames, f);
    StaysPut(c);
    if r.Received? {
      match f.payload
      case Continuation(block, endHeaders) =>
        var p := c.pending.value;
        var d := c.(pending := None);
        if endHeaders {
          BlockMoves(env, d, p.stream, p.endStream, p.block + block);
          MovesFrom(c, d, r.c, Nothing());
        } else { SamePlace(c, r.c); }
        OnlyGrantsCount(c, r.c, Nothing(), f);
      case Headers(block, _, endStream, endHeaders, _) =>
        if endHeaders { BlockMoves(env, c, f.header.streamId, endStream, block); } else { SamePlace(c, r.c); }
        OnlyGrantsCount(c, r.c, Nothing(), f);
      case Data(data, endStream, _) =>
        DataMoves(c, f.header.streamId, data, f.header.length, endStream);
        OnlyGrantsCount(c, r.c, Nothing(), f);
      case RstStream(_) =>
        if r.events != [] { PhaseUnmoved(c, f.header.streamId, ClosedByReset); }
        OnlyGrantsCount(c, r.c, Nothing(), f);
      case WindowUpdate(_) => CreditMoves(c, f);
      case Ping(data, ack) =>
        QueueUnmoved(c, [PingAck(data)]);
        if !ack { MovesNothing(c, r.c, f); } else { OnlyGrantsCount(c, r.c, Nothing(), f); }
      case _ => OnlyGrantsCount(c, r.c, Nothing(), f);
    }
  }

  lemma StaysPut(c: Connection)
    ensures Moves(c, c, Nothing(), 0)
  {
  }

  lemma SamePlace(c: Connection, d: Connection)
    requires d == c.(pending := d.pending)
    ensures Moves(c, d, Nothing(), 0)
  {
  }

  // ------------------------------------------------------------------- events

  /** After event handling: only streams reset and frames queued. */
  ghost predicate Quieter(s: Core, r: Step) {
    r.raised.Quiet? ==>
      Unmoved(s.conn, r.core.conn) && r.core.written == s.written && r.core.capture.frames == s.capture.frames
  }

  lemma UnmovedSelf(c: Connection)
    ensures Unmoved(c, c)
  {
  }

  lemma RequestUnmoved(env: Env, s: Core, id: nat, fields: Fields, ended: bool)
    ensures Quieter(s, OnRequest(env, s, id, fields, ended))
  {
    hide Declared, Expectations, OnlyContinue, Lookup, ValidFields, OverPriorityLimit, Text, Unmoved,
         SendHeaders, ResetStream, Close;
    UnmovedSelf(s.conn);
    if s.capture.streamId.Some? { ResetUnmoved(s.conn, id); } else { InterimUnmoved(env, s.conn, id); }
  }

  lemma EventUnmoved(env: Env, s: Core, e: Event)
    ensures Quieter(s, ProcessEvent(env, s, e))
  {
    hide Unmoved, OnRequest, Acknowledge, Close, ValidFields;
    UnmovedSelf(s.conn);
    match e
    case RequestReceived(id, fields, ended) => RequestUnmoved(env, s, id, fields, ended);
    case DataReceived(id, data, flow) => AcknowledgeUnmoved(env, s.conn, flow, id);
    case _ =>
  }

  lemma ResetUnmoved(c: Connection, id: nat)
    ensures Unmoved(c, ResetStream(c, id, REFUSED_STREAM))
  {
    if id in c.streams {
      var d := ResetStream(c, id, REFUSED_STREAM);
      QueueSynced(c, d, [ResetSent(id, REFUSED_STREAM)]);
      assert d.outbound[|c.outbound|..] == [ResetSent(id, REFUSED_STREAM)];
    }
  }

  lemma InterimUnmoved(env: Env, c: Connection, id: nat)
    ensures SendHeaders(env, c, id, 100, false).Some? ==> Unmoved(c, SendHeaders(env, c, id, 100, false).value)
  {
    hide Hpack.Encoded, Hpack.Updates, StaysSynced;
    var sent := SendHeaders(env, c, id, 100, false);
    if sent.Some? {
      assert sent.value.outbound[|c.outbound|..] == [Head(env, c, id, 100, false)];
      HeadSynced(env, c, sent.value, id, 100, false);
    }
  }

  lemma AcknowledgeUnmoved(env: Env, c: Connection, flow: nat, id: nat)
    ensures Unmoved(c, Acknowledge(env, c, flow, id))
  {
    QueueUnmoved(c.(credits := c.credits + [(flow, id)]), Credits(env.replenish(c.credits, flow, id)));
  }

  lemma {:induction false} EventsUnmoved(env: Env, s: Core, events: seq<Event>)
    ensures Quieter(s, ProcessEvents(env, s, events))
    decreases |events|
  {
    hide ProcessEvent, Unmoved;
    if events == [] {
      UnmovedSelf(s.conn);
    } else {
      var r := ProcessEvent(env, s, events[0]);
      EventUnmoved(env, s, events[0]);
      if r.raised.Quiet? {
        EventsUnmoved(env, r.core, events[1..]);
        var t := ProcessEvents(env, r.core, events[1..]);
        if t.raised.Quiet? { UnmovedTwice(s.conn, r.core.conn, t.core.conn); }
      }
    }
  }

  // ------------------------------------------------------------ whole frames

  /** The windows after a frame, in terms of the session. */
  ghost predicate Flows(s: Core, t: Core, f: ParsedFrame, shift: int) {
    && t.capture.frames == s.capture.frames && s.conn.outbound == [] == t.conn.outbound
    && exists d :: Moves(s.conn, d, f, shift) && t.conn == d.(outbound := []) && t.written == s.written + d.outbound
  }

  lemma FlushFlows(s: Core, t: Core, d: Connection, f: ParsedFrame, shift: int)
    requires s.conn.outbound == [] && Moves(s.conn, d, f, shift) && Unmoved(d, t.conn)
    requires t.written == s.written && t.capture.frames == s.capture.frames
    ensures Flows(s, Flush(t), f, shift)
  {
    MovesThenUnmoved(s.conn, d, t.conn, f, shift);
  }

  lemma SettingsMove(c: Connection, entries: seq<Entry>, f: ParsedFrame)
    requires Settled(c) && c.outbound == [] && Announces(f) && entries == f.payload.entries
    ensures exists shift :: Moves(c, Adapter.InWireOrder(c, entries), f, shift)
  {
    var initial, s := Setting(c, INITIAL_WINDOW_SIZE), Adapter.SupportedOnly(entries);
    var shift := Adapter.WindowAfter(initial, entries) - initial;
    Adapter.EffectiveWindow(c, s);
    SupportedWindow(initial, entries);
    SettingsSynced(c, entries);
    hide StaysSynced, Adapter.SupportedOnly, Adapter.WindowAfter, Adapter.TableSizes, Effective, Hpack.Effectual, Hpack.ResizeAll;
    assert Moves(c, Adapter.InWireOrder(c, entries), f, shift);
  }

  /** Sizes that pass the filter are queued for the next head. */
  lemma SettingsSynced(c: Connection, entries: seq<Entry>)
    requires c.outbound == []
    ensures StaysSynced(c, Adapter.InWireOrder(c, entries))
  {
    hide Hpack.InStep, Hpack.Effectual, Hpack.ResizeAll, Adapter.TableSizes, Effective, Adapter.SupportedOnly, Adapter.WindowAfter, Shift;
    var d := Adapter.InWireOrder(c, entries);
    forall out | Synced(c, out) ensures Synced(d, out) {
      var before := out + c.outbound;
      Hpack.AdvanceKeepsStep(Hpack.Ends(c.encoder, Client(before)), Hpack.Announced(Adapter.TableSizes(entries)));
      NoHeadsClient(before, [SettingsAck]);
      assert out + d.outbound == before + [SettingsAck];
    }
  }

  lemma {:induction false} SupportedWindow(initial: nat, entries: seq<Entry>)
    ensures Adapter.WindowAfter(initial, Adapter.SupportedOnly(entries)) == Adapter.WindowAfter(initial, entries)
  {
    if entries != [] {
      var n := |entries| - 1;
      SupportedWindow(initial, entries[..n]);
      var s := Adapter.SupportedOnly(entries[..n]);
      assert (s + [entries[n]])[..|s|] == s;
    }
  }

  lemma ForwardFlows(env: Env, s: Core, f: ParsedFrame)
    requires Sane(f) && Typed(f) && Clean(s) && ConnInv(s) && Forward(env, s, f).raised.Quiet?
    ensures exists shift :: Flows(s, Forward(env, s, f).core, f, shift)
  {
    hide Flows, Moves, Unmoved, ReceiveFrame, ProcessEvents, Adapter.ApplySettings, Adapter.SomeFaulty,
         Adapter.TooManyChanges, Adapter.InWireOrder, Settled, StreamsOk, Goaways, Close;
    if f.header.kind == SETTINGS && f.payload.Settings? && !f.payload.ack {
      var d := Adapter.ApplySettings(s.conn, f.payload.entries).c;
      Adapter.SettingsTakeEffectInWireOrder(s.conn, f.payload.entries);
      SettingsMove(s.conn, f.payload.entries, f);
      var shift :| Moves(s.conn, d, f, shift);
      EventsUnmoved(env, s.(conn := d), []);
      FlushFlows(s, ProcessEvents(env, s.(conn := d), []).core, d, f, shift);
    } else {
      var r := ReceiveFrame(env, s.conn, s.capture.frames, Forwarded(f));
      FrameMoves(env, s.conn, s.capture.frames, Forwarded(f));
      if Forwarded(f) != f { OnlyGrantsCount(s.conn, r.c, Forwarded(f), f); }
      EventsUnmoved(env, s.(conn := r.c), r.events);
      FlushFlows(s, ProcessEvents(env, s.(conn := r.c), r.events).core, r.c, f, 0);
    }
  }

  lemma AsideFlows(s: Core, t: Core, f: ParsedFrame)
    requires s.conn.outbound == [] && t.conn == s.conn && t.written == s.written && t.capture.frames == s.capture.frames
    requires !f.payload.WindowUpdate? && !Announces(f)
    ensures Flows(s, t, f, 0)
  {
    MovesNothing(s.conn, s.conn, f) by { UnmovedSelf(s.conn); }
    assert t.written == s.written + s.conn.outbound;
  }

  lemma DispatchFlows(env: Env, s: Core, f: ParsedFrame)
    requires Sane(f) && Typed(f) && Clean(s) && ConnInv(s) && Dispatch(env, s, f).raised.Quiet?
    ensures exists shift :: Flows(s, Dispatch(env, s, f).core, f, shift)
  {
    hide Forward, Flows, Goaways, ConnInv, OverPriorityLimit, Close;
    var r := Dispatch(env, s, f);
    if f.header.kind in {ALTSVC, ORIGIN, PRIORITY} || f.payload.PriorityUpdate? || f.payload.Goaway? {
      AsideFlows(s, r.core, f);
    } else {
      ForwardFlows(env, s, f);
    }
  }

  lemma FlowsFrom(s: Core, a: Core, t: Core, f: ParsedFrame, shift: int)
    requires Flows(a, t, f, shift) && a.conn == s.conn && a.written == s.written && a.capture.frames == s.capture.frames
    ensures Flows(s, t, f, shift)
  {
  }

  lemma ProcessFlows(env: Env, s: Core, f: ParsedFrame)
    requires Sane(f) && Typed(f) && Clean(s) && ConnInv(s) && ProcessFrame(env, s, f).raised.Quiet?
    ensures exists shift :: Flows(s, ProcessFrame(env, s, f).core, f, shift)
  {
    hide Dispatch, Flows, Goaways, Settled, StreamsOk, Typed, Sane;
    var a := OnFirstFrame(s, f).core;
    var b := OnHeaderBlock(a, f).core;
    DispatchFlows(env, b, f);
    var shift :| Flows(b, Dispatch(env, b, f).core, f, shift);
    FlowsFrom(s, b, Dispatch(env, b, f).core, f, shift);
  }

  lemma FlowsKeepLedger(s: Core, t: Core, past: seq<ParsedFrame>, f: ParsedFrame, shift: int)
    requires Flows(s, t, f, shift) && s.capture.frames == past + [f] && Synced(s.conn, s.written)
    requires Balanced(s.conn, s.written + s.conn.outbound, past)
    ensures Ledger(t) && (Unsent(s.conn) ==> Unsent(t.conn)) && NothingSent(s, t)
  {
    hide Balanced, Unsent, Hpack.InStep;
    var d :| Moves(s.conn, d, f, shift) && t.conn == d.(outbound := []) && t.written == s.written + d.outbound;
    MovesKeepBalance(s.conn, d, s.written, past, f, shift);
    BalanceIgnoresQueue(d, t.conn, t.written, past + [f]);
    assert t.written + [] == t.written;
    assert Synced(d, s.written);
  }

  lemma BalanceIgnoresQueue(c: Connection, d: Connection, out: seq<OutFrame>, frames: seq<ParsedFrame>)
    requires d == c.(outbound := d.outbound)
    ensures Balanced(c, out, frames) ==> Balanced(d, out, frames)
    ensures Unsent(c) ==> Unsent(d)
  {
    hide Credit, Octets;
  }

  /** A frame keeps the books balanced, and no frame finishes our side of a stream. */
  lemma FrameKeepsLedger(env: Env, s: Core, wire: Bytes)
    requires Inv(s) && Ledger(s) && TakeFrame(env, s, wire).raised.Quiet?
    ensures Ledger(TakeFrame(env, s, wire).core)
    ensures Unsent(s.conn) ==> Unsent(TakeFrame(env, s, wire).core.conn)
    ensures NothingSent(s, TakeFrame(env, s, wire).core)
  {
    hide FrameSpec, ProcessFrame, Typed, Sane, Goaways, Balanced, Flows, Unsent, BodyInv, BlockInv, PendingInv, IdleInv;
    var room := MAX_CAPTURE_ENTRIES - s.entries;
    ParsedIsTyped(wire, room);
    var r := FrameSpec(wire, SERVER_MAX_FRAME_SIZE, false, true, Some(room));
    var f, past := r.frame, s.capture.frames;
    var u := s.(entries := s.entries + r.used, capture := s.capture.(frames := past + [f]));
    ProcessFlows(env, u, f);
    var shift :| Flows(u, ProcessFrame(env, u, f).core, f, shift);
    FlowsKeepLedger(u, ProcessFrame(env, u, f).core, past, f, shift);
  }
}
