/** Sending the response: it ends against every peer, delivers the whole body, and stays in the windows. */
module Responses {
  import opened Wire
  import opened Frames
  import opened H2
  import opened H2Proofs
  import opened SessionSpec
  import opened SessionInvariant
  import opened SessionSteps
  import opened SessionRuns
  import opened FlowControl
  import Adapter
  import Hpack

  // ----------------------------------------------------------- what was sent

  /** What the output carries on a stream: the octets of each DATA frame and whether it ends the
      stream; a HEADERS frame that ends the stream counts as no octets. */
  function Parts(out: seq<OutFrame>, id: nat): seq<(Bytes, bool)> {
    if out == [] then []
    else
      var earlier, f := Parts(out[..|out| - 1], id), out[|out| - 1];
      if f.DataSent? && f.stream == id then earlier + [(f.data, f.endStream)]
      else if f.HeadersSent? && f.endStream && f.stream == id then earlier + [([], true)]
      else earlier
  }

  function Body(parts: seq<(Bytes, bool)>): Bytes {
    if parts == [] then [] else parts[0].0 + Body(parts[1..])
  }

  /** END_STREAM on the last part and on no other. */
  ghost predicate EndsOnce(parts: seq<(Bytes, bool)>) {
    parts != [] && forall i :: 0 <= i < |parts| ==> (parts[i].1 <==> i == |parts| - 1)
  }

  lemma {:induction false} PartsAppend(a: seq<OutFrame>, b: seq<OutFrame>, id: nat)
    ensures Parts(a + b, id) == Parts(a, id) + Parts(b, id)
  {
    if b == [] {
      assert a + b == a;
    } else {
      PartsAppend(a, b[..|b| - 1], id);
      assert (a + b)[..|a + b| - 1] == a + b[..|b| - 1];
    }
  }

  lemma {:induction false} PlainParts(out: seq<OutFrame>, id: nat)
    requires Plain(out)
    ensures Parts(out, id) == []
  {
    if out != [] { PlainParts(out[..|out| - 1], id); }
  }

  lemma SamePartsIfNothingSent(s: Core, t: Core, id: nat)
    requires NothingSent(s, t)
    ensures Parts(t.written, id) == Parts(s.written, id)
  {
    var extra := t.written[|s.written|..];
    assert t.written == s.written + extra;
    PartsAppend(s.written, extra, id);
    PlainParts(extra, id);
  }

  lemma {:induction false} OnlyBodyFramesCount(out: seq<OutFrame>, id: nat)
    ensures Parts(BodyFrames(out), id) == Parts(out, id)
  {
    if out != [] {
      var init, f := out[..|out| - 1], out[|out| - 1];
      OnlyBodyFramesCount(init, id);
      if BodyFrame(f) {
        assert (BodyFrames(init) + [f])[..|BodyFrames(init)|] == BodyFrames(init);
      }
    }
  }

  lemma MuteParts(s: Core, t: Core, id: nat)
    requires Mute(s, t) && s.conn.outbound == [] && t.conn.outbound == []
    ensures Parts(t.written, id) == Parts(s.written, id)
  {
    assert s.written + [] == s.written && t.written + [] == t.written;
    OnlyBodyFramesCount(s.written, id);
    OnlyBodyFramesCount(t.written, id);
  }

  // ---------------------------------------------------------------- receiving

  lemma NothingSentTwice(a: Core, b: Core, c: Core)
    requires NothingSent(a, b) && NothingSent(b, c)
    ensures NothingSent(a, c)
  {
    assert c.written[|a.written|..] == b.written[|a.written|..] + c.written[|b.written|..];
  }

  lemma {:induction false} DrainKeepsLedger(env: Env, s: Session)
    requires Inv(s.core) && Ledger(s.core) && Drain(env, s).raised.Quiet?
    ensures var t := Drain(env, s).session.core;
            Ledger(t) && (Unsent(s.core.conn) ==> Unsent(t.conn)) && NothingSent(s.core, t)
    decreases |s.buffer|
  {
    hide Inv, Ledger, Unsent, TakeFrame, Ended;
    if HasFrame(s.buffer) {
      var stop := FrameEnd(s.buffer);
      var wire := s.buffer[..stop];
      var r := TakeFrame(env, s.core, wire);
      FrameTaken(env, s.core, wire);
      FrameKeepsLedger(env, s.core, wire);
      var t := s.(buffer := s.buffer[stop..], core := r.core);
      DrainKeepsLedger(env, t);
      NothingSentTwice(s.core, r.core, Drain(env, t).session.core);
    }
  }

  /** Between reads while a response is being sent on stream `id`. */
  ghost predicate Sending(s: Core, id: nat) {
    Inv(s) && Ledger(s) && Unsent(s.conn) && s.requestReady && s.capture.streamId == Some(id)
  }

  lemma ReceiveOnward(env: Env, s: Session, data: Bytes)
    ensures Onward(s.core, Receive(env, s, data).session.core)
  {
    hide Drain, Close, Onward, Flush;
    OnwardSelf(s.core);
    CloseOnward(s.core, s.core, ENHANCE_YOUR_CALM);
    var t := s.(captureBytes := s.captureBytes + |data|, buffer := s.buffer + data);
    DrainOnward(env, t);
    CloseOnward(s.core, Drain(env, t).session.core, NO_ERROR);
  }

  lemma OnwardSelf(s: Core)
    ensures Onward(s, s)
  {
  }

  /** Unless the connection fails, a read keeps the books. */
  lemma ChunkKeepsLedger(env: Env, s: Session, data: Bytes)
    requires Inv(s.core) && Ledger(s.core) && !Receive(env, s, data).raised.Protocol?
    ensures var t := Receive(env, s, data).session.core;
            Ledger(t) && (Unsent(s.core.conn) ==> Unsent(t.conn)) && NothingSent(s.core, t) && Onward(s.core, t)
  {
    hide Inv, Ledger, Unsent, Drain, Ended, HasFrame, TooLong, Onward;
    if data == [] {
      OnwardSelf(s.core);
    } else {
      var t := s.(captureBytes := s.captureBytes + |data|, buffer := s.buffer + data);
      DrainKeeps(env, t);
      DrainKeepsLedger(env, t);
      DrainOnward(env, t);
      FlushNothing(Drain(env, t).session.core);
    }
  }

  lemma ReadWhileSending(env: Env, s: Session, data: Bytes, id: nat)
    requires Sending(s.core, id)
    ensures var r := Receive(env, s, data);
            match r.raised
            case Quiet => Sending(r.session.core, id) && NothingSent(s.core, r.session.core) && !r.session.core.cancelled
            case Protocol(code) => Ended(r.session.core, code)
            case Reset => Inv(r.session.core) && Ledger(r.session.core) && (data == [] || r.session.core.cancelled)
            case Runtime => false
  {
    hide Inv, Ledger, Unsent, Receive, NothingSent, Ended, HasFrame, TooLong, Took;
    ChunkKeeps(env, s, data);
    if !Receive(env, s, data).raised.Protocol? { ChunkKeepsLedger(env, s, data); }
  }

  // ------------------------------------------------------------------ sending

  predicate Sendable(p: Phase) { p.Open? || p.HalfClosedRemote? }

  function SentPhase(p: Phase, ended: bool): Phase {
    if !ended then p else if p.HalfClosedRemote? then ClosedByEnd else HalfClosedLocal
  }

  /** What a send does to the connection: stream `id` and the encoder move, and one frame is queued. */
  ghost predicate SendStep(c: Connection, d: Connection, id: nat, ended: bool) {
    && d == c.(window := d.window, streams := d.streams, encoder := d.encoder, outbound := d.outbound)
    && d.encoder.maxSize == c.encoder.maxSize && Adapter.Announced(d.encoder)
    && id in c.streams && Sendable(c.streams[id].phase)
    && d.streams.Keys == c.streams.Keys && d.streams[id].phase == SentPhase(c.streams[id].phase, ended)
    && (forall j :: j in c.streams && j != id ==> d.streams[j] == c.streams[j])
  }

  lemma SendMoves(c: Connection, d: Connection, id: nat, ended: bool)
    requires SendStep(c, d, id, ended)
    ensures OnlyMoved(c, d, id, SentPhase(c.streams[id].phase, ended)) && OpenCount(d) <= OpenCount(c)
  {
    assert forall j :: j in c.streams ==> j in d.streams.Keys;
    assert forall j :: j in d.streams ==> j in c.streams.Keys;
    MovedOpenCount(c, d, id, SentPhase(c.streams[id].phase, ended));
  }

  lemma SendKeepsBody(s: Core, t: Core, id: nat, ended: bool)
    requires BodyInv(s, s.capture.frames, None) && t == s.(conn := t.conn, written := t.written)
    requires id in s.conn.streams && Sendable(s.conn.streams[id].phase)
    requires OnlyMoved(s.conn, t.conn, id, SentPhase(s.conn.streams[id].phase, ended))
    ensures BodyInv(t, t.capture.frames, None)
  {
    hide Declared, LengthsValid, IsConnect, BodyBytes;
    assert forall j :: j in s.conn.streams ==> PhaseOf(t.conn, j).Some?;
  }

  lemma SendKeepsConn(s: Core, t: Core, d: Connection, id: nat, ended: bool)
    requires ConnInv(s) && IdleInv(s) && PendingInv(s) && SendStep(s.conn, d, id, ended)
    requires t == s.(conn := d.(outbound := []), written := t.written)
    ensures ConnInv(t) && IdleInv(t) && PendingInv(t)
  {
    hide OpenCount;
    SendMoves(s.conn, d, id, ended);
    SamePhasesOpenCount(d, t.conn);
    assert forall j :: j in t.conn.streams ==> j in s.conn.streams.Keys;
  }

  lemma SendKeepsInv(s: Core, d: Connection, id: nat, ended: bool, f: OutFrame)
    requires Inv(s) && SendStep(s.conn, d, id, ended) && d.outbound == [f] && !f.GoawaySent?
    ensures Inv(Flush(s.(conn := d)))
  {
    hide Declared, LengthsValid, IsConnect, BodyBytes, OpenCount, Contiguous, BlockAfter, SumEntries;
    var t := Flush(s.(conn := d));
    GoawaysOne(s.written, f);
    SendMoves(s.conn, d, id, ended);
    SendKeepsBody(s, t, id, ended);
    SendKeepsConn(s, t, d, id, ended);
    hide Goaways, BodyInv, ConnInv, IdleInv, SendStep, OnlyMoved;
  }

  // ------------------------------------------------------------- the ledger

  /** One DATA frame, with the session as it was when the frame was sent. */
  datatype Shot = Shot(core: Core, data: Bytes, ended: bool)

  /** DATA within what the client allowed: the stream's initial window and credit, the connection's, and
      the frame size, as the frames captured by then say, against everything written by then. */
  ghost predicate InWindows(shot: Shot, id: nat) {
    var out, frames := shot.core.written + [DataSent(id, shot.data, shot.ended)], shot.core.capture.frames;
    && Octets(out, Some(id)) <= Says(frames, INITIAL_WINDOW_SIZE) + Credit(frames, id)
    && Octets(out, None) <= DEFAULT_WINDOW + Credit(frames, 0)
    && |shot.data| <= Says(frames, MAX_FRAME_SIZE)
  }

  lemma SendStaysInTheWindows(s: Core, id: nat, data: Bytes, ended: bool)
    requires Balanced(s.conn, s.written, s.capture.frames) && SendData(s.conn, id, data, ended).Some?
    ensures InWindows(Shot(s, data, ended), id)
  {
    hide Octets, Credit, Told;
    OneMore(s.written, DataSent(id, data, ended), Some(id));
    OneMore(s.written, DataSent(id, data, ended), None);
  }

  lemma OneMore(out: seq<OutFrame>, f: OutFrame, who: Option<nat>)
    ensures Octets(out + [f], who) ==
            Octets(out, who) + if f.DataSent? && (who.None? || who == Some(f.stream)) then |f.data| else 0
  {
    assert (out + [f])[..|out|] == out;
  }

  lemma SendKeepsBalance(c: Connection, d: Connection, out: seq<OutFrame>, frames: seq<ParsedFrame>,
                         id: nat, data: Bytes, ended: bool)
    requires Balanced(c, out, frames) && SendData(c, id, data, ended) == Some(d)
    ensures Balanced(d, out + [DataSent(id, data, ended)], frames)
  {
    hide Octets, Credit;
    var f := DataSent(id, data, ended);
    OneMore(out, f, None);
    forall j | j in d.streams && Live(d.streams[j])
      ensures d.streams[j].window == Setting(d, INITIAL_WINDOW_SIZE) + Credit(frames, j) - Octets(out + [f], Some(j))
    {
      OneMore(out, f, Some(j));
    }
  }

  lemma HeadKeepsBalance(env: Env, c: Connection, d: Connection, out: seq<OutFrame>, frames: seq<ParsedFrame>,
                         id: nat, status: nat, ended: bool)
    requires Balanced(c, out, frames) && SendHeaders(env, c, id, status, ended) == Some(d)
    ensures Balanced(d, out + [Head(env, c, id, status, ended)], frames)
  {
    hide Octets, Credit;
    var f := Head(env, c, id, status, ended);
    OneMore(out, f, None);
    forall j | j in d.streams && Live(d.streams[j])
      ensures d.streams[j].window == Setting(d, INITIAL_WINDOW_SIZE) + Credit(frames, j) - Octets(out + [f], Some(j))
    {
      OneMore(out, f, Some(j));
    }
  }

  // ------------------------------------------------------------------ the body

  lemma SendableRequest(s: Core, id: nat)
    requires Sending(s, id) && !s.cancelled
    ensures id in s.conn.streams && Sendable(s.conn.streams[id].phase)
  {
  }

  lemma DataIsSendStep(c: Connection, id: nat, data: Bytes, ended: bool)
    requires id in c.streams && Sendable(c.streams[id].phase) && |data| <= SendRoom(c, id)
    requires Adapter.Announced(c.encoder) && c.outbound == []
    ensures var d := SendData(c, id, data, ended);
            && d.Some? && SendStep(c, d.value, id, ended) && d.value.outbound == [DataSent(id, data, ended)]
            && d.value.encoder == c.encoder
            && (Unsent(c) && !ended ==> Unsent(d.value))
  {
    var d := SendData(c, id, data, ended).value;
    assert d.streams.Keys == c.streams.Keys;
  }

  /** One frame queued and flushed, the books balanced. */
  lemma FrameSent(s: Core, d: Connection, id: nat, ended: bool, f: OutFrame)
    requires Inv(s) && SendStep(s.conn, d, id, ended) && d.outbound == [f] && !f.GoawaySent?
    requires Balanced(d, s.written + [f], s.capture.frames) && Synced(d, s.written)
    ensures var t := Flush(s.(conn := d));
            Inv(t) && Ledger(t) && (Unsent(d) ==> Unsent(t.conn)) && t.written == s.written + [f]
  {
    hide Inv, SendStep, Balanced, Unsent, Hpack.InStep;
    SendKeepsInv(s, d, id, ended, f);
    var t := Flush(s.(conn := d));
    BalanceIgnoresQueue(d, t.conn, t.written, s.capture.frames);
    assert t.written + [] == t.written;
  }

  lemma CleanStart(s: Core)
    requires Inv(s) && Ledger(s)
    ensures Adapter.Announced(s.conn.encoder) && s.conn.outbound == []
    ensures Balanced(s.conn, s.written, s.capture.frames) && Synced(s.conn, s.written)
  {
    assert s.written + [] == s.written;
  }

  lemma PartSent(s: Core, id: nat, data: Bytes, ended: bool)
    requires Sending(s, id) && id in s.conn.streams && Sendable(s.conn.streams[id].phase) && |data| <= SendRoom(s.conn, id)
    ensures var c := SendData(s.conn, id, data, ended);
            && c.Some? && InWindows(Shot(s, data, ended), id)
            && var t := Flush(s.(conn := c.value));
               && Inv(t) && Ledger(t) && (!ended ==> Sending(t, id))
               && t.written == s.written + [DataSent(id, data, ended)]
  {
    hide Inv, Balanced, Unsent, SendData, SendRoom, Adapter.Announced, Synced, InWindows;
    var f := DataSent(id, data, ended);
    CleanStart(s);
    DataIsSendStep(s.conn, id, data, ended);
    var d := SendData(s.conn, id, data, ended).value;
    SendStaysInTheWindows(s, id, data, ended);
    SendKeepsBalance(s.conn, d, s.written, s.capture.frames, id, data, ended);
    QueueSynced(s.conn, d, [f]);
    hide SendStep;
    FrameSent(s, d, id, ended, f);
  }

  /** Every DATA frame `SendBody` sends, in order. */
  function Shots(env: Env, s: Session, id: nat, body: Bytes, offset: nat, peer: Peer, taken: nat): seq<Shot>
    requires offset <= |body|
    decreases Budget(s) + (|body| - offset)
  {
    if offset == |body| || Liveness(s.core) != Quiet || id !in s.core.conn.streams then []
    else if SendRoom(s.core.conn, id) <= 0 then
      var r := Receive(env, s, peer(taken));
      if r.raised != Quiet then [] else Shots(env, r.session, id, body, offset, peer, taken + 1)
    else
      var stop := StopAt(s.core.conn, id, body, offset);
      match SendData(s.core.conn, id, body[offset..stop], stop == |body|)
      case None => []
      case Some(c) =>
        [Shot(s.core, body[offset..stop], stop == |body|)]
        + Shots(env, s.(core := Flush(s.core.(conn := c))), id, body, stop, peer, taken)
  }

  function PartsOf(shots: seq<Shot>): seq<(Bytes, bool)> {
    seq(|shots|, i requires 0 <= i < |shots| => (shots[i].data, shots[i].ended))
  }

  /** Frames and output only grow, and the request stays. */
  ghost predicate Logs(s: Core, t: Core) {
    && s.written <= t.written && s.capture.frames <= t.capture.frames
    && (s.capture.streamId.Some? ==> t.capture.streamId == s.capture.streamId)
  }

  /** The DATA frame is in the output right behind what had been written, and the frames captured by then
      are the first of those captured in the end. */
  ghost predicate Placed(shot: Shot, id: nat, t: Core) {
    shot.core.written + [DataSent(id, shot.data, shot.ended)] <= t.written && shot.core.capture.frames <= t.capture.frames
  }

  /** Every send was within the windows of its moment, and the output shows it. */
  ghost predicate Fair(shots: seq<Shot>, id: nat, t: Core) {
    forall i :: 0 <= i < |shots| ==> InWindows(shots[i], id) && Placed(shots[i], id, t)
  }

  /** Why a run was reset: its request was cancelled, or the last of its reads found the end of the stream. */
  ghost predicate GivenUp(t: Core, peer: Peer, start: nat, stop: nat) {
    t.cancelled || (start < stop && peer(stop - 1) == [])
  }

  /** The outcome of sending `rest` of a body from `s`: `shots` are all the DATA frames of the stream, however
      it ends. */
  ghost predicate Delivered(s: Core, r: Sent, shots: seq<Shot>, id: nat, rest: Bytes, peer: Peer, taken: nat) {
    && Fair(shots, id, r.session.core) && Logs(s, r.session.core)
    && Parts(r.session.core.written, id) == Parts(s.written, id) + PartsOf(shots)
    && match r.raised
       case Quiet =>
         && Inv(r.session.core) && Ledger(r.session.core)
         && Body(PartsOf(shots)) == rest && (if rest == [] then shots == [] else EndsOnce(PartsOf(shots)))
       case Protocol(code) => Ended(r.session.core, code)
       case Reset => Inv(r.session.core) && Ledger(r.session.core) && GivenUp(r.session.core, peer, taken, r.taken)
       case Runtime => false
  }

  lemma BodyReads(env: Env, s: Session, id: nat, body: Bytes, offset: nat, peer: Peer, taken: nat)
    requires offset < |body| && Liveness(s.core).Quiet? && id in s.core.conn.streams && SendRoom(s.core.conn, id) <= 0
    ensures var r, sent := Receive(env, s, peer(taken)), SendBody(env, s, id, body, offset, peer, taken);
            var shots := Shots(env, s, id, body, offset, peer, taken);
            if r.raised.Quiet? then
              && sent == SendBody(env, r.session, id, body, offset, peer, taken + 1)
              && shots == Shots(env, r.session, id, body, offset, peer, taken + 1) && Budget(r.session) < Budget(s)
            else sent == Sent(r.session, r.raised, taken + 1) && shots == []
  {
    hide Drain, Liveness;
  }

  /** How far one DATA frame goes. */
  function StopAt(c: Connection, id: nat, body: Bytes, offset: nat): (stop: nat)
    requires offset < |body| && id in c.streams && SendRoom(c, id) > 0
    ensures offset < stop <= |body| && stop - offset <= SendRoom(c, id)
  {
    if offset + SendRoom(c, id) < |body| then offset + SendRoom(c, id) else |body|
  }

  lemma BodySends(env: Env, s: Session, id: nat, body: Bytes, offset: nat, peer: Peer, taken: nat)
    requires offset < |body| && Liveness(s.core).Quiet? && id in s.core.conn.streams && SendRoom(s.core.conn, id) > 0
    requires var stop := StopAt(s.core.conn, id, body, offset);
             SendData(s.core.conn, id, body[offset..stop], stop == |body|).Some?
    ensures var stop := StopAt(s.core.conn, id, body, offset);
            var c := SendData(s.core.conn, id, body[offset..stop], stop == |body|).value;
            var t := s.(core := Flush(s.core.(conn := c)));
            && SendBody(env, s, id, body, offset, peer, taken) == SendBody(env, t, id, body, stop, peer, taken)
            && Shots(env, s, id, body, offset, peer, taken) ==
                 [Shot(s.core, body[offset..stop], stop == |body|)] + Shots(env, t, id, body, stop, peer, taken)
            && Budget(t) == Budget(s)
  {
    hide Receive, Liveness, SendData, SendRoom;
  }

  lemma BodyRests(env: Env, s: Session, id: nat, body: Bytes, offset: nat, peer: Peer, taken: nat)
    requires offset <= |body| && (offset == |body| || !Liveness(s.core).Quiet?)
    ensures SendBody(env, s, id, body, offset, peer, taken) ==
            Sent(s, if offset == |body| then Quiet else Liveness(s.core), taken)
    ensures Shots(env, s, id, body, offset, peer, taken) == []
  {
    hide Receive, SendData;
  }

  lemma {:induction false} BodyDelivered(env: Env, s: Session, id: nat, body: Bytes, offset: nat, peer: Peer, taken: nat)
    requires Sending(s.core, id) && offset <= |body|
    ensures var r, shots := SendBody(env, s, id, body, offset, peer, taken), Shots(env, s, id, body, offset, peer, taken);
            Delivered(s.core, r, shots, id, body[offset..], peer, taken) && r.taken <= taken + Budget(s) + 1
    decreases Budget(s) + (|body| - offset)
  {
    hide Inv, Ledger, NothingSent, Sending, Delivered, Receive, SendBody, Shots, SendData, SendRoom, Parts, Flush, Liveness,
         Sendable, StopAt, Budget, InWindows;
    var rest := body[offset..];
    SendingInv(s.core, id);
    if offset == |body| || !Liveness(s.core).Quiet? {
      BodyRests(env, s, id, body, offset, peer, taken);
      NothingLeft(s, id, rest, if offset == |body| then Quiet else Reset, peer, taken);
    } else {
      SendableRequest(s.core, id);
      if SendRoom(s.core.conn, id) <= 0 {
        BodyReads(env, s, id, body, offset, peer, taken);
        var r := Receive(env, s, peer(taken));
        if r.raised.Quiet? {
          ReadGoesOn(env, s, peer(taken), id);
          BodyDelivered(env, r.session, id, body, offset, peer, taken + 1);
          ReadDelivers(s.core, r.session.core, SendBody(env, s, id, body, offset, peer, taken),
                       Shots(env, s, id, body, offset, peer, taken), id, rest, peer, taken);
        } else {
          ReadGivesUp(env, s, id, rest, peer, taken);
        }
      } else {
        var stop := StopAt(s.core.conn, id, body, offset);
        var data := body[offset..stop];
        PartSent(s.core, id, data, stop == |body|);
        BodySends(env, s, id, body, offset, peer, taken);
        var t := s.(core := Flush(s.core.(conn := SendData(s.core.conn, id, data, stop == |body|).value)));
        FlushedFrames(s.core, SendData(s.core.conn, id, data, stop == |body|).value);
        assert rest == data + body[stop..];
        if stop == |body| {
          BodyRests(env, t, id, body, stop, peer, taken);
          LastDelivers(s.core, t, id, data, peer, taken);
          assert rest == data;
        } else {
          BodyDelivered(env, t, id, body, stop, peer, taken);
          NextPart(s.core, t.core, SendBody(env, t, id, body, stop, peer, taken), Shots(env, t, id, body, stop, peer, taken),
                   id, data, body[stop..], peer, taken);
        }
      }
    }
  }

  lemma FlushedFrames(s: Core, c: Connection)
    ensures Flush(s.(conn := c)).capture == s.capture && Flush(s.(conn := c)).cancelled == s.cancelled
  {
  }

  lemma NothingLeft(s: Session, id: nat, rest: Bytes, raised: Raised, peer: Peer, taken: nat)
    requires Inv(s.core) && Ledger(s.core) && ((raised.Reset? && s.core.cancelled) || (raised.Quiet? && rest == []))
    ensures Delivered(s.core, Sent(s, raised, taken), [], id, rest, peer, taken)
  {
    hide Inv, Ledger, Parts;
    assert PartsOf([]) == [] && Parts(s.core.written, id) + [] == Parts(s.core.written, id);
  }

  lemma ReadGoesOn(env: Env, s: Session, data: Bytes, id: nat)
    requires Sending(s.core, id) && Receive(env, s, data).raised.Quiet?
    ensures var r := Receive(env, s, data);
            Sending(r.session.core, id) && NothingSent(s.core, r.session.core) && Logs(s.core, r.session.core)
  {
    hide Receive, Sending, NothingSent;
    ReadWhileSending(env, s, data, id);
    ReceiveOnward(env, s, data);
  }

  lemma ReadGivesUp(env: Env, s: Session, id: nat, rest: Bytes, peer: Peer, taken: nat)
    requires Sending(s.core, id) && !Receive(env, s, peer(taken)).raised.Quiet?
    ensures var r := Receive(env, s, peer(taken));
            Delivered(s.core, Sent(r.session, r.raised, taken + 1), [], id, rest, peer, taken)
  {
    hide Inv, Ledger, Ended, Receive, Sending, Mute, Parts;
    ReadWhileSending(env, s, peer(taken), id);
    ReceiveOnward(env, s, peer(taken));
    SendingInv(s.core, id);
    var t := Receive(env, s, peer(taken)).session.core;
    NothingQueued(s.core, NO_ERROR);
    if Receive(env, s, peer(taken)).raised.Protocol? { NothingQueued(t, Receive(env, s, peer(taken)).raised.code); }
    else { NothingQueued(t, NO_ERROR); }
    MuteParts(s.core, t, id);
    assert PartsOf([]) == [] && Parts(s.core.written, id) + [] == Parts(s.core.written, id);
  }

  lemma NothingQueued(s: Core, code: int)
    requires Inv(s) || Ended(s, code)
    ensures s.conn.outbound == []
  {
  }

  lemma ReadDelivers(s: Core, t: Core, r: Sent, shots: seq<Shot>, id: nat, rest: Bytes, peer: Peer, taken: nat)
    requires NothingSent(s, t) && Logs(s, t) && Delivered(t, r, shots, id, rest, peer, taken + 1)
    ensures Delivered(s, r, shots, id, rest, peer, taken)
  {
    hide Inv, Ledger, Ended, Fair, Body, EndsOnce;
    SamePartsIfNothingSent(s, t, id);
  }

  lemma OnePartMore(s: Core, t: Core, id: nat, data: Bytes, ended: bool)
    requires t.written == s.written + [DataSent(id, data, ended)]
    ensures Parts(t.written, id) == Parts(s.written, id) + [(data, ended)]
  {
    assert (s.written + [DataSent(id, data, ended)])[..|s.written|] == s.written;
  }

  lemma LastDelivers(s: Core, t: Session, id: nat, data: Bytes, peer: Peer, taken: nat)
    requires Inv(t.core) && Ledger(t.core) && data != [] && t.core.capture == s.capture
    requires t.core.written == s.written + [DataSent(id, data, true)] && InWindows(Shot(s, data, true), id)
    ensures Delivered(s, Sent(t, Quiet, taken), [Shot(s, data, true)] + [], id, data, peer, taken)
  {
    hide Inv, Ledger, InWindows;
    var shots := [Shot(s, data, true)];
    OnePartMore(s, t.core, id, data, true);
    hide Parts;
    assert shots + [] == shots && PartsOf(shots) == [(data, true)] && PartsOf(shots)[1..] == [];
    assert Body(PartsOf(shots)) == data + Body([]);
  }

  lemma NextPart(s: Core, t: Core, r: Sent, later: seq<Shot>, id: nat, data: Bytes, rest: Bytes, peer: Peer, taken: nat)
    requires rest != [] && Delivered(t, r, later, id, rest, peer, taken) && t.capture == s.capture
    requires t.written == s.written + [DataSent(id, data, false)] && InWindows(Shot(s, data, false), id)
    ensures Delivered(s, r, [Shot(s, data, false)] + later, id, data + rest, peer, taken)
  {
    hide Inv, Ledger, Ended, InWindows, Fair, Parts, PartsOf, Body, EndsOnce;
    OnePartMore(s, t, id, data, false);
    FairNext(s, t, r.session.core, later, id, data);
    PartsNext(s, later, data);
    assert Parts(s.written, id) + [(data, false)] + PartsOf(later) == Parts(s.written, id) + ([(data, false)] + PartsOf(later));
    EndsLater((data, false), PartsOf(later));
  }

  lemma PartsNext(s: Core, later: seq<Shot>, data: Bytes)
    ensures PartsOf([Shot(s, data, false)] + later) == [(data, false)] + PartsOf(later)
  {
  }

  lemma EndsLater(x: (Bytes, bool), parts: seq<(Bytes, bool)>)
    requires !x.1
    ensures Body([x] + parts) == x.0 + Body(parts) && (EndsOnce(parts) ==> EndsOnce([x] + parts))
  {
    assert ([x] + parts)[1..] == parts;
  }

  lemma FairNext(s: Core, t: Core, end: Core, later: seq<Shot>, id: nat, data: Bytes)
    requires Fair(later, id, end) && Logs(t, end) && t.capture == s.capture
    requires t.written == s.written + [DataSent(id, data, false)] && InWindows(Shot(s, data, false), id)
    ensures Fair([Shot(s, data, false)] + later, id, end)
  {
    hide InWindows;
    var shots := [Shot(s, data, false)] + later;
    forall i | 0 <= i < |shots| ensures InWindows(shots[i], id) && Placed(shots[i], id, end) {
      if i > 0 { assert shots[i] == later[i - 1]; }
    }
  }

  lemma SendingInv(s: Core, id: nat)
    requires Sending(s, id)
    ensures Inv(s) && Ledger(s) && Liveness(s) == if s.cancelled then Reset else Quiet
  {
  }

  // -------------------------------------------------------------- the response

  lemma HeadIsSendStep(env: Env, c: Connection, id: nat, status: nat, ended: bool)
    requires id in c.streams && Sendable(c.streams[id].phase) && !(100 <= status < 200 && ended)
    requires Adapter.Announced(c.encoder) && c.outbound == []
    ensures var d := SendHeaders(env, c, id, status, ended);
            && d.Some? && SendStep(c, d.value, id, ended)
            && d.value.outbound == [Head(env, c, id, status, ended)]
            && d.value.encoder == Hpack.Encoded(c.encoder, env.indexed(c.encoder, status))
            && (Unsent(c) && !ended ==> Unsent(d.value))
  {
    hide Hpack.Updates, Hpack.InsertAll;
    var d := SendHeaders(env, c, id, status, ended).value;
    assert d.streams.Keys == c.streams.Keys;
  }

  /** Right behind what had been written comes a head on this stream with this status. */
  ghost predicate Headed(s: Core, t: Core, id: nat, status: nat, ended: bool) {
    && |s.written| < |t.written| && s.written <= t.written
    && var head := t.written[|s.written|];
       head.HeadersSent? && head.stream == id && head.status == status && head.endStream == ended
  }

  lemma HeadSent(env: Env, s: Core, id: nat, status: nat, ended: bool)
    requires Sending(s, id) && !s.cancelled && !(100 <= status < 200 && ended)
    ensures var c := SendHeaders(env, s.conn, id, status, ended);
            && c.Some?
            && var t := Flush(s.(conn := c.value));
               && Inv(t) && Ledger(t) && (!ended ==> Sending(t, id)) && Logs(s, t) && Headed(s, t, id, status, ended)
               && Parts(t.written, id) == Parts(s.written, id) + if ended then [([], true)] else []
  {
    hide Inv, Balanced, Unsent, SendHeaders, SendStep, Adapter.Announced, Hpack.Updates, Hpack.Encoded, Synced;
    var f := Head(env, s.conn, id, status, ended);
    CleanStart(s);
    SendableRequest(s, id);
    HeadIsSendStep(env, s.conn, id, status, ended);
    var d := SendHeaders(env, s.conn, id, status, ended).value;
    HeadKeepsBalance(env, s.conn, d, s.written, s.capture.frames, id, status, ended);
    HeadSynced(env, s.conn, d, id, status, ended);
    FrameSent(s, d, id, ended, f);
    assert (s.written + [f])[..|s.written|] == s.written;
  }

  /** The DATA frames of a response. */
  function ResponseShots(env: Env, s: Session, id: nat, content: Bytes, status: nat, peer: Peer, taken: nat): seq<Shot> {
    var body := ResponseBody(content, status);
    match SendHeaders(env, s.core.conn, id, status, body == [])
    case None => []
    case Some(c) => Shots(env, s.(core := Flush(s.core.(conn := c))), id, body, 0, peer, taken)
  }

  /** What the stream carries of a response: its DATA frames, or the end of the stream on its head. */
  function Answer(shots: seq<Shot>, body: Bytes): seq<(Bytes, bool)> { if body == [] then [([], true)] else PartsOf(shots) }

  /** What a response leaves behind, given its DATA frames: its head and then these. */
  ghost predicate Replied(s: Core, r: Sent, shots: seq<Shot>, id: nat, status: nat, body: Bytes, peer: Peer, taken: nat) {
    && Headed(s, r.session.core, id, status, body == [])
    && Fair(shots, id, r.session.core) && Logs(s, r.session.core)
    && Parts(r.session.core.written, id) == Parts(s.written, id) + Answer(shots, body)
    && match r.raised
       case Quiet =>
         Inv(r.session.core) && Ledger(r.session.core) && Body(Answer(shots, body)) == body && EndsOnce(Answer(shots, body))
       case Protocol(code) => Ended(r.session.core, code)
       case Reset => Inv(r.session.core) && Ledger(r.session.core) && GivenUp(r.session.core, peer, taken, r.taken)
       case Runtime => false
  }

  /** Total send. Against every peer the response ends after finitely many reads: the head with its status right
      behind what had been written, and DATA frames that are, however it ends, within the stream window, the
      connection window and the frame size of their moment. If it ends well, the DATA payloads of the request's
      stream concatenate to the content (to nothing for 204 and 304) and END_STREAM is set exactly once, on the
      last frame. Otherwise the peer broke the protocol, cancelled the request or ended its stream: h2 refuses
      nothing that is sent here. */
  lemma ResponseIsDelivered(env: Env, s: Session, id: nat, content: Bytes, status: nat, peer: Peer, taken: nat)
    requires Sending(s.core, id) && !s.core.cancelled && !(100 <= status < 200)
    ensures var r := SendResponse(env, s, content, status, peer, taken);
            && r.taken <= taken + Budget(s) + 1
            && Replied(s.core, r, ResponseShots(env, s, id, content, status, peer, taken), id, status,
                       if status == 204 || status == 304 then [] else content, peer, taken)
  {
    hide Inv, Ledger, Unsent, Ended, SendHeaders, SendBody, Shots, Parts, InWindows;
    var body := ResponseBody(content, status);
    SendingInv(s.core, id);
    HeadSent(env, s.core, id, status, body == []);
    var t := s.(core := Flush(s.core.(conn := SendHeaders(env, s.core.conn, id, status, body == []).value)));
    if body == [] {
      NoBodyToSend(env, t, id, peer, taken);
      HeadAlone(s.core, t, id, status, peer, taken);
    } else {
      BodyDelivered(env, t, id, body, 0, peer, taken);
      assert body[0..] == body && Parts(s.core.written, id) + [] == Parts(s.core.written, id);
      WholeBody(s.core, t.core, SendBody(env, t, id, body, 0, peer, taken), Shots(env, t, id, body, 0, peer, taken), id, status,
                body, peer, taken);
    }
  }

  lemma NoBodyToSend(env: Env, s: Session, id: nat, peer: Peer, taken: nat)
    ensures SendBody(env, s, id, [], 0, peer, taken) == Sent(s, Quiet, taken) && Shots(env, s, id, [], 0, peer, taken) == []
  {
    hide Receive;
  }

  lemma HeadAlone(s: Core, t: Session, id: nat, status: nat, peer: Peer, taken: nat)
    requires Headed(s, t.core, id, status, true)
    requires Inv(t.core) && Ledger(t.core) && Logs(s, t.core)
    requires Parts(t.core.written, id) == Parts(s.written, id) + [([], true)]
    ensures Replied(s, Sent(t, Quiet, taken), [], id, status, [], peer, taken)
  {
    hide Inv, Ledger, Parts;
    var parts: seq<(Bytes, bool)> := [([], true)];
    assert parts[1..] == [] && Body(parts) == [] + Body([]);
  }

  lemma WholeBody(s: Core, t: Core, r: Sent, shots: seq<Shot>, id: nat, status: nat, body: Bytes, peer: Peer, taken: nat)
    requires Delivered(t, r, shots, id, body, peer, taken) && Parts(t.written, id) == Parts(s.written, id)
    requires body != [] && Logs(s, t) && Headed(s, t, id, status, false)
    ensures Replied(s, r, shots, id, status, body, peer, taken)
  {
    hide Inv, Ledger, Ended, Fair, Parts, Body, EndsOnce, PartsOf;
  }

  // -------------------------------------------------------------- when it waits

  /** A read made while sending, with the session as it was before. */
  datatype Pause = Pause(session: Session, chunk: Bytes)

  /** Every read `SendBody` makes, in order. */
  function Pauses(env: Env, s: Session, id: nat, body: Bytes, offset: nat, peer: Peer, taken: nat): seq<Pause>
    requires offset <= |body|
    decreases Budget(s) + (|body| - offset)
  {
    if offset == |body| || Liveness(s.core) != Quiet || id !in s.core.conn.streams then []
    else if SendRoom(s.core.conn, id) <= 0 then
      var r := Receive(env, s, peer(taken));
      [Pause(s, peer(taken))] + if r.raised != Quiet then [] else Pauses(env, r.session, id, body, offset, peer, taken + 1)
    else
      var stop := StopAt(s.core.conn, id, body, offset);
      match SendData(s.core.conn, id, body[offset..stop], stop == |body|)
      case None => []
      case Some(c) => Pauses(env, s.(core := Flush(s.core.(conn := c))), id, body, stop, peer, taken)
  }

  /** The client has allowed no octet more than was sent, on the stream or on the connection. */
  ghost predicate Starved(s: Core, id: nat) {
    var frames := s.capture.frames;
    || Octets(s.written, Some(id)) >= Says(frames, INITIAL_WINDOW_SIZE) + Credit(frames, id)
    || Octets(s.written, None) >= DEFAULT_WINDOW + Credit(frames, 0)
  }

  lemma NoRoomIsStarved(s: Core, id: nat)
    requires Sending(s, id) && !s.cancelled && id in s.conn.streams && SendRoom(s.conn, id) <= 0
    ensures Starved(s, id)
  {
    SendableRequest(s, id);
    CleanStart(s);
    hide Octets, Credit, Told;
  }

  /** The reads of a response: each of them starved, and the response ends well exactly if none of them raised. */
  ghost predicate Waited(env: Env, pauses: seq<Pause>, id: nat, r: Sent, taken: nat) {
    && |pauses| == r.taken - taken
    && (forall i :: 0 <= i < |pauses| ==> Starved(pauses[i].session.core, id))
    && (r.raised.Quiet? <==> forall i :: 0 <= i < |pauses| ==> Receive(env, pauses[i].session, pauses[i].chunk).raised.Quiet?)
  }

  lemma PausesNext(env: Env, s: Session, id: nat, body: Bytes, offset: nat, peer: Peer, taken: nat)
    requires offset < |body| && Liveness(s.core).Quiet? && id in s.core.conn.streams
    ensures SendRoom(s.core.conn, id) <= 0 ==>
              var r := Receive(env, s, peer(taken));
              Pauses(env, s, id, body, offset, peer, taken) ==
              [Pause(s, peer(taken))] + if r.raised.Quiet? then Pauses(env, r.session, id, body, offset, peer, taken + 1) else []
    ensures SendRoom(s.core.conn, id) > 0 ==>
              var stop := StopAt(s.core.conn, id, body, offset);
              var c := SendData(s.core.conn, id, body[offset..stop], stop == |body|);
              c.Some? ==> Pauses(env, s, id, body, offset, peer, taken) ==
                          Pauses(env, s.(core := Flush(s.core.(conn := c.value))), id, body, stop, peer, taken)
  {
    hide Drain, Liveness, SendData, SendRoom, Flush;
  }

  lemma NoPauses(env: Env, s: Session, id: nat, body: Bytes, peer: Peer, taken: nat)
    ensures Pauses(env, s, id, body, |body|, peer, taken) == []
  {
    hide Receive, SendData;
  }

  lemma PauseFirst(env: Env, s: Session, id: nat, chunk: Bytes, later: seq<Pause>, r: Sent, taken: nat)
    requires Starved(s.core, id)
    requires if Receive(env, s, chunk).raised.Quiet? then Waited(env, later, id, r, taken + 1)
             else later == [] && r.raised == Receive(env, s, chunk).raised && r.taken == taken + 1
    ensures Waited(env, [Pause(s, chunk)] + later, id, r, taken)
  {
    hide Receive, Starved;
    var pauses := [Pause(s, chunk)] + later;
    assert forall i :: 0 < i < |pauses| ==> pauses[i] == later[i - 1];
    assert pauses[0] == Pause(s, chunk);
    if Receive(env, s, chunk).raised.Quiet? {
      assert forall i :: 0 <= i < |later| ==> later[i] == pauses[i + 1];
    }
  }

  lemma {:induction false} BodyWaits(env: Env, s: Session, id: nat, body: Bytes, offset: nat, peer: Peer, taken: nat)
    requires Sending(s.core, id) && !s.core.cancelled && offset <= |body|
    ensures Waited(env, Pauses(env, s, id, body, offset, peer, taken), id, SendBody(env, s, id, body, offset, peer, taken), taken)
    decreases Budget(s) + (|body| - offset)
  {
    hide Inv, Ledger, Sending, Sendable, Starved, Waited, Receive, SendBody, Pauses, Shots, SendData, SendRoom, Flush, Liveness, StopAt, Budget, InWindows;
    SendingInv(s.core, id);
    if offset == |body| {
      BodyRests(env, s, id, body, offset, peer, taken);
      NoPauses(env, s, id, body, peer, taken);
      NeverPaused(env, s, id, taken);
    } else {
      SendableRequest(s.core, id);
      PausesNext(env, s, id, body, offset, peer, taken);
      if SendRoom(s.core.conn, id) <= 0 {
        NoRoomIsStarved(s.core, id);
        BodyReads(env, s, id, body, offset, peer, taken);
        var r, later := Receive(env, s, peer(taken)), [];
        if r.raised.Quiet? {
          ReadWhileSending(env, s, peer(taken), id);
          BodyWaits(env, r.session, id, body, offset, peer, taken + 1);
          later := Pauses(env, r.session, id, body, offset, peer, taken + 1);
        }
        PauseFirst(env, s, id, peer(taken), later, SendBody(env, s, id, body, offset, peer, taken), taken);
      } else {
        var stop := StopAt(s.core.conn, id, body, offset);
        var data := body[offset..stop];
        PartSent(s.core, id, data, stop == |body|);
        BodySends(env, s, id, body, offset, peer, taken);
        var c := SendData(s.core.conn, id, data, stop == |body|).value;
        var t := s.(core := Flush(s.core.(conn := c)));
        FlushedFrames(s.core, c);
        if stop == |body| {
          BodyRests(env, t, id, body, stop, peer, taken);
          NoPauses(env, t, id, body, peer, taken);
          NeverPaused(env, t, id, taken);
        } else {
          BodyWaits(env, t, id, body, stop, peer, taken);
        }
      }
    }
  }

  lemma NeverPaused(env: Env, s: Session, id: nat, taken: nat)
    ensures Waited(env, [], id, Sent(s, Quiet, taken), taken)
  {
  }

  /** The reads of a response. */
  function ResponsePauses(env: Env, s: Session, id: nat, content: Bytes, status: nat, peer: Peer, taken: nat): seq<Pause> {
    var body := ResponseBody(content, status);
    match SendHeaders(env, s.core.conn, id, status, body == [])
    case None => []
    case Some(c) => Pauses(env, s.(core := Flush(s.core.(conn := c))), id, body, 0, peer, taken)
  }

  /** When a response completes: it reads only while the client's own frames allow nothing more to be sent, and
      it ends well if and only if none of these reads raises. */
  lemma ResponseCompletesUnlessAReadFails(env: Env, s: Session, id: nat, content: Bytes, status: nat, peer: Peer, taken: nat)
    requires Sending(s.core, id) && !s.core.cancelled && !(100 <= status < 200)
    ensures Waited(env, ResponsePauses(env, s, id, content, status, peer, taken), id,
                   SendResponse(env, s, content, status, peer, taken), taken)
  {
    hide Sending, Inv, Ledger, Waited, SendHeaders, SendBody, Pauses, Shots, Parts, Flush;
    var body := ResponseBody(content, status);
    SendingInv(s.core, id);
    ReadyToSend(s.core, id);
    HeadSent(env, s.core, id, status, body == []);
    var c := SendHeaders(env, s.core.conn, id, status, body == []).value;
    var t := s.(core := Flush(s.core.(conn := c)));
    FlushedFrames(s.core, c);
    if body == [] {
      NoBodyToSend(env, t, id, peer, taken);
      NoPauses(env, t, id, body, peer, taken);
      NeverPaused(env, t, id, taken);
    } else {
      BodyWaits(env, t, id, body, 0, peer, taken);
    }
  }

  lemma ReadyToSend(s: Core, id: nat)
    requires Sending(s, id)
    ensures s.requestReady && s.capture.streamId == Some(id)
  {
  }

  /** Stream and connection window both cover `n` octets. */
  predicate Covered(c: Connection, id: nat, n: nat) { id in c.streams && c.streams[id].window >= n && c.window >= n }

  lemma {:induction false} BodyFits(env: Env, s: Session, id: nat, body: Bytes, offset: nat, peer: Peer, taken: nat)
    requires Sending(s.core, id) && !s.core.cancelled && offset <= |body| && Covered(s.core.conn, id, |body| - offset)
    ensures var r := SendBody(env, s, id, body, offset, peer, taken); r.raised.Quiet? && r.taken == taken
    decreases |body| - offset
  {
    hide Inv, Ledger, Sending, Sendable, Receive, SendBody, Shots, SendData, SendRoom, Flush, Liveness, StopAt, Budget, InWindows,
         Covered;
    SendingInv(s.core, id);
    if offset == |body| {
      BodyRests(env, s, id, body, offset, peer, taken);
    } else {
      SendableRequest(s.core, id);
      CoveredHasRoom(s.core, id, |body| - offset);
      var stop := StopAt(s.core.conn, id, body, offset);
      var data := body[offset..stop];
      PartSent(s.core, id, data, stop == |body|);
      BodySends(env, s, id, body, offset, peer, taken);
      var c := SendData(s.core.conn, id, data, stop == |body|).value;
      var t := s.(core := Flush(s.core.(conn := c)));
      FlushedFrames(s.core, c);
      if stop == |body| {
        BodyRests(env, t, id, body, stop, peer, taken);
      } else {
        StillCovered(s.core, id, |body| - offset, data);
        BodyFits(env, t, id, body, stop, peer, taken);
      }
    }
  }

  lemma CoveredHasRoom(s: Core, id: nat, n: nat)
    requires Sending(s, id) && Covered(s.conn, id, n) && n > 0
    ensures SendRoom(s.conn, id) > 0
  {
  }

  lemma StillCovered(s: Core, id: nat, n: nat, data: Bytes)
    requires Covered(s.conn, id, n) && |data| <= n && SendData(s.conn, id, data, false).Some?
    ensures Covered(Flush(s.(conn := SendData(s.conn, id, data, false).value)).conn, id, n - |data|)
  {
    hide SendRoom;
  }

  lemma HeadCovered(env: Env, s: Core, id: nat, status: nat, n: nat)
    requires Covered(s.conn, id, n) && SendHeaders(env, s.conn, id, status, false).Some?
    ensures Covered(Flush(s.(conn := SendHeaders(env, s.conn, id, status, false).value)).conn, id, n)
  {
  }

  lemma AllowedIsCovered(s: Core, id: nat, n: nat)
    requires Sending(s, id) && !s.cancelled
    requires Octets(s.written, Some(id)) + n <= Says(s.capture.frames, INITIAL_WINDOW_SIZE) + Credit(s.capture.frames, id)
    requires Octets(s.written, None) + n <= DEFAULT_WINDOW + Credit(s.capture.frames, 0)
    ensures Covered(s.conn, id, n)
  {
    SendableRequest(s, id);
    CleanStart(s);
    hide Octets, Credit, Told;
  }

  /** A body the client's frames already allow goes out without a single read, whoever the peer is. */
  lemma AllowedResponseNeedsNoRead(env: Env, s: Session, id: nat, content: Bytes, status: nat, peer: Peer, taken: nat)
    requires Sending(s.core, id) && !s.core.cancelled && !(100 <= status < 200)
    requires var frames, n := s.core.capture.frames, if status == 204 || status == 304 then 0 else |content|;
             && Octets(s.core.written, Some(id)) + n <= Says(frames, INITIAL_WINDOW_SIZE) + Credit(frames, id)
             && Octets(s.core.written, None) + n <= DEFAULT_WINDOW + Credit(frames, 0)
    ensures var r := SendResponse(env, s, content, status, peer, taken); r.raised.Quiet? && r.taken == taken
  {
    hide Sending, Inv, Ledger, SendHeaders, SendBody, Shots, Parts, Flush, Covered, Octets, Credit, Says;
    var body := ResponseBody(content, status);
    AllowedIsCovered(s.core, id, |body|);
    SendingInv(s.core, id);
    ReadyToSend(s.core, id);
    HeadSent(env, s.core, id, status, body == []);
    var c := SendHeaders(env, s.core.conn, id, status, body == []).value;
    var t := s.(core := Flush(s.core.(conn := c)));
    FlushedFrames(s.core, c);
    if body == [] {
      NoBodyToSend(env, t, id, peer, taken);
    } else {
      HeadCovered(env, s.core, id, status, |body|);
      BodyFits(env, t, id, body, 0, peer, taken);
    }
  }

  /** An informational status cannot carry a response: h2 refuses the head and nothing is written. */
  lemma InformationalIsRefused(env: Env, s: Session, id: nat, content: Bytes, status: nat, peer: Peer, taken: nat)
    requires Sending(s.core, id) && !s.core.cancelled && 100 <= status < 200
    ensures SendResponse(env, s, content, status, peer, taken) == Sent(s, Protocol(PROTOCOL_ERROR), taken)
  {
    SendingInv(s.core, id);
  }
}
