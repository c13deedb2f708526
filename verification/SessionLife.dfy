/** The whole life of a session: reads and responses in any order up to the first error, then any number of
    closes; and one exchange from the first chunk to the last frame. */
module SessionLife {
  import opened Wire
  import opened Frames
  import opened H2
  import opened H2Proofs
  import opened SessionSpec
  import opened SessionInvariant
  import opened SessionSteps
  import opened SessionRuns
  import opened FlowControl
  import opened Responses
  import opened SessionTheorems
  import Adapter
  import Decimal
  import Hpack

  // -------------------------------------------------------------------- calls

  /** What the server does with a session between `initialize` and `close`. */
  datatype Call = Read(data: Bytes) | Respond(content: Bytes, status: nat, peer: Peer)

  function Perform(env: Env, s: Session, call: Call): Outcome {
    match call
    case Read(data) => Receive(env, s, data)
    case Respond(content, status, peer) =>
      var r := SendResponse(env, s, content, status, peer, 0);
      Outcome(r.session, r.raised)
  }

  /** Calls up to the first error. */
  function Serve(env: Env, incoming: Bytes, calls: seq<Call>): Outcome {
    if calls == [] then Initialize(env, FRESH_SESSION, incoming)
    else
      var r := Serve(env, incoming, calls[..|calls| - 1]);
      if r.raised != Quiet then r else Perform(env, r.session, calls[|calls| - 1])
  }

  /** The octets a call reads. */
  function TakenBy(env: Env, s: Session, call: Call): Bytes {
    match call
    case Read(data) => data
    case Respond(content, status, peer) => Heard(peer, 0, SendResponse(env, s, content, status, peer, 0).taken)
  }

  /** All octets after the preface that reach the session in a run, in the order they were read. */
  function Intake(env: Env, incoming: Bytes, calls: seq<Call>): Bytes {
    if calls == [] then if |incoming| <= |PREFACE| then [] else incoming[|PREFACE|..]
    else
      var r := Serve(env, incoming, calls[..|calls| - 1]);
      Intake(env, incoming, calls[..|calls| - 1]) +
      if r.raised != Quiet then [] else TakenBy(env, r.session, calls[|calls| - 1])
  }

  function CloseAll(s: Core, codes: seq<int>): Core
    decreases |codes|
  {
    if codes == [] then s else CloseAll(Close(s, codes[0]), codes[1..])
  }

  /** Either the connection failed and said so once, or the session is in order. */
  ghost predicate Spoken(s: Core, raised: Raised) {
    if s.closed then raised.Protocol? && Ended(s, raised.code) && Settled(s.conn) else Good(s)
  }

  /** What one call, or a part of it, leaves behind: unless it failed, every octet it read is accounted for. */
  ghost predicate Called(s: Session, octets: Bytes, t: Session, raised: Raised) {
    && Spoken(t.core, raised) && (raised.Quiet? ==> Good(t.core))
    && (!t.core.closed ==> Took(s, octets, t))
  }

  lemma GoodIsSettled(s: Core)
    requires Good(s)
    ensures Settled(s.conn)
  {
  }

  lemma GoodIsOpen(s: Core)
    requires Good(s)
    ensures !s.closed
  {
  }

  lemma {:induction false} BodySpoken(env: Env, s: Session, id: nat, body: Bytes, offset: nat, peer: Peer, taken: nat)
    requires Good(s.core) && offset <= |body|
    ensures var r := SendBody(env, s, id, body, offset, peer, taken);
            taken <= r.taken && Called(s, Heard(peer, taken, r.taken), r.session, r.raised)
    decreases Budget(s) + (|body| - offset)
  {
    hide Good, Ended, Settled, Receive, SendData, SendRoom, Flush, Liveness, Took;
    GoodIsOpen(s.core);
    TookNothing(s, s);
    if offset < |body| && Liveness(s.core).Quiet? && id in s.core.conn.streams {
      if SendRoom(s.core.conn, id) <= 0 {
        ReadSpoken(env, s, peer(taken));
        var r := Receive(env, s, peer(taken));
        if r.raised.Quiet? {
          BodySpoken(env, r.session, id, body, offset, peer, taken + 1);
          var end := SendBody(env, r.session, id, body, offset, peer, taken + 1);
          GoodIsOpen(r.session.core);
          ThenCalled(s, peer(taken), r.session, Heard(peer, taken + 1, end.taken), end.session, end.raised);
        } else {
          HeardOnce(peer, taken);
        }
      } else {
        var stop := StopAt(s.core.conn, id, body, offset);
        var data, ended := body[offset..stop], stop == |body|;
        if SendData(s.core.conn, id, data, ended).Some? {
          DataSpoken(s.core, id, data, ended);
          var c := SendData(s.core.conn, id, data, ended).value;
          var t := s.(core := Flush(s.core.(conn := c)));
          FlushedFrames(s.core, c);
          TookNothing(s, t);
          BodySpoken(env, t, id, body, stop, peer, taken);
          var end := SendBody(env, t, id, body, stop, peer, taken);
          ThenCalled(s, [], t, Heard(peer, taken, end.taken), end.session, end.raised);
        }
      }
    }
  }

  lemma ThenCalled(s: Session, a: Bytes, t: Session, b: Bytes, u: Session, raised: Raised)
    requires Took(s, a, t) && Called(t, b, u, raised)
    ensures Called(s, a + b, u, raised)
    ensures a == [] ==> Called(s, b, u, raised)
  {
    hide Took, Spoken, Good;
    if !u.core.closed { TookTwice(s, a, t, b, u); }
    assert a == [] ==> a + b == b;
  }

  lemma ReadSpoken(env: Env, s: Session, data: Bytes)
    requires Good(s.core)
    ensures var r := Receive(env, s, data); Called(s, data, r.session, r.raised)
  {
    GoodIsSettled(s.core);
    ReceiveOnward(env, s, data);
    hide Inv, Ledger, Receive, HasFrame, TooLong, Unsent, NothingSent, Took, Settled, BodyFrames;
    ChunkKeeps(env, s, data);
    var r := Receive(env, s, data);
    if r.raised.Quiet? || r.raised.Reset? {
      ChunkKeepsLedger(env, s, data);
      InvOpen(r.session.core);
    }
  }

  lemma DataSpoken(s: Core, id: nat, data: Bytes, ended: bool)
    requires Good(s) && SendData(s.conn, id, data, ended).Some?
    ensures Good(Flush(s.(conn := SendData(s.conn, id, data, ended).value)))
  {
    CleanStart(s);
    DataIsSendStep(s.conn, id, data, ended);
    hide Inv, Balanced, SendData, Synced, Unsent, Adapter.Announced;
    var d := SendData(s.conn, id, data, ended).value;
    SendKeepsBalance(s.conn, d, s.written, s.capture.frames, id, data, ended);
    QueueSynced(s.conn, d, [DataSent(id, data, ended)]);
    hide SendStep;
    FrameSent(s, d, id, ended, DataSent(id, data, ended));
  }

  lemma HeadSpoken(env: Env, s: Core, id: nat, status: nat, ended: bool)
    requires Good(s) && SendHeaders(env, s.conn, id, status, ended).Some?
    ensures Good(Flush(s.(conn := SendHeaders(env, s.conn, id, status, ended).value)))
  {
    CleanStart(s);
    HeadIsSendStep(env, s.conn, id, status, ended);
    hide Inv, Balanced, SendHeaders, Synced, Unsent, Adapter.Announced, SendStep, Hpack.Encoded, Hpack.Updates;
    var d := SendHeaders(env, s.conn, id, status, ended).value;
    HeadKeepsBalance(env, s.conn, d, s.written, s.capture.frames, id, status, ended);
    HeadSynced(env, s.conn, d, id, status, ended);
    FrameSent(s, d, id, ended, Head(env, s.conn, id, status, ended));
  }

  lemma ResponseSpoken(env: Env, s: Session, content: Bytes, status: nat, peer: Peer, taken: nat)
    requires Good(s.core)
    ensures var r := SendResponse(env, s, content, status, peer, taken);
            taken <= r.taken && Called(s, Heard(peer, taken, r.taken), r.session, r.raised)
  {
    hide Good, Ended, Settled, SendBody, SendHeaders, Flush, Took;
    GoodIsOpen(s.core);
    TookNothing(s, s);
    if s.core.capture.streamId.Some? {
      var id, body := s.core.capture.streamId.value, ResponseBody(content, status);
      if SendHeaders(env, s.core.conn, id, status, body == []).Some? {
        HeadSpoken(env, s.core, id, status, body == []);
        var c := SendHeaders(env, s.core.conn, id, status, body == []).value;
        var t := s.(core := Flush(s.core.(conn := c)));
        FlushedFrames(s.core, c);
        TookNothing(s, t);
        BodySpoken(env, t, id, body, 0, peer, taken);
        var end := SendBody(env, t, id, body, 0, peer, taken);
        ThenCalled(s, [], t, Heard(peer, taken, end.taken), end.session, end.raised);
      }
    }
  }

  lemma CallSpoken(env: Env, s: Session, call: Call)
    requires Good(s.core)
    ensures var r := Perform(env, s, call); Called(s, TakenBy(env, s, call), r.session, r.raised)
  {
    hide Good, Called, Receive, SendResponse, Heard;
    match call
    case Read(data) => ReadSpoken(env, s, data);
    case Respond(content, status, peer) => ResponseSpoken(env, s, content, status, peer, 0);
  }

  /** A run in order: the session is, or has failed with one GOAWAY, and what it read is accounted for. */
  ghost predicate Served(incoming: Bytes, octets: Bytes, r: Outcome) {
    && Spoken(r.session.core, r.raised) && (r.raised.Quiet? ==> Good(r.session.core))
    && (!r.session.core.closed ==> PREFACE <= incoming && Whole(r.session, octets))
  }

  lemma StartSpoken(env: Env, incoming: Bytes)
    ensures Served(incoming, Intake(env, incoming, []), Initialize(env, FRESH_SESSION, incoming))
  {
    hide Good, Ended, Receive, Took, Whole, Text;
    if PREFACE <= incoming {
      BeganIsGood();
      GoodIsOpen(BEGAN.core);
      TookNothing(BEGAN, BEGAN);
      BeganWhole(BEGAN, []);
      if |incoming| > |PREFACE| {
        var rest := incoming[|PREFACE|..];
        ReadSpoken(env, BEGAN, rest);
        var r := Receive(env, BEGAN, rest);
        if !r.session.core.closed { BeganWhole(r.session, rest); }
      }
    } else {
      NoPreface(env, incoming);
      EndedIsClosed(Initialize(env, FRESH_SESSION, incoming).session.core, PROTOCOL_ERROR);
      assert Settled(BEGAN.core.conn);
    }
  }

  lemma CalledIsServed(incoming: Bytes, octets: Bytes, s: Outcome, more: Bytes, r: Outcome)
    requires Served(incoming, octets, s) && s.raised.Quiet? && Called(s.session, more, r.session, r.raised)
    ensures Served(incoming, octets + more, r)
  {
    hide Ended;
  }

  /** Whatever is read and sent, the session is in order until it raises, and afterwards either still in
      order or failed with one GOAWAY; unless it failed, every octet read is captured or buffered. */
  lemma {:induction false} ServeSpoken(env: Env, incoming: Bytes, calls: seq<Call>)
    ensures Served(incoming, Intake(env, incoming, calls), Serve(env, incoming, calls))
    decreases |calls|
  {
    hide Good, Served, Called, Perform, Initialize, TakenBy;
    if calls == [] {
      StartSpoken(env, incoming);
    } else {
      var front, last := calls[..|calls| - 1], calls[|calls| - 1];
      ServeSpoken(env, incoming, front);
      var r, octets := Serve(env, incoming, front), Intake(env, incoming, front);
      if r.raised.Quiet? {
        ServedIsGood(incoming, octets, r);
        CallSpoken(env, r.session, last);
        CalledIsServed(incoming, octets, r, TakenBy(env, r.session, last), Perform(env, r.session, last));
      } else {
        assert octets + [] == octets;
      }
    }
  }

  lemma ServedIsGood(incoming: Bytes, octets: Bytes, r: Outcome)
    requires Served(incoming, octets, r) && r.raised.Quiet?
    ensures Good(r.session.core)
  {
  }

  lemma EndedIsClosed(s: Core, code: int)
    requires Ended(s, code)
    ensures s.closed
  {
  }

  lemma StartIsRun(env: Env, incoming: Bytes)
    ensures Run(env, incoming, []) == Initialize(env, FRESH_SESSION, incoming)
  {
    hide Initialize;
  }

  // ------------------------------------------------- what every run leaves behind

  /** Lossless bounded capture, in every run that has not failed, with what was read while responses were being
      sent: the octets after the preface are the raw frames and the buffer, at most 2097152 of them, in at most
      4096 frames, and their decoded entries are covered by a count that never exceeds 1024. */
  lemma CaptureIsLossless(env: Env, incoming: Bytes, calls: seq<Call>)
    requires !Serve(env, incoming, calls).session.core.closed
    ensures var s := Serve(env, incoming, calls).session;
            && PREFACE <= incoming
            && Intake(env, incoming, calls) == Raws(s.core.capture.frames) + s.buffer
            && s.captureBytes == |Intake(env, incoming, calls)| <= 2097152
            && |s.core.capture.frames| <= 4096
            && SumEntries(s.core.capture.frames) <= s.core.entries <= 1024
  {
    hide Serve, Intake, Ledger, Text;
    ServeSpoken(env, incoming, calls);
  }

  /** The first frame is the client's SETTINGS, and its entries are the ones recorded. */
  lemma ConnectionsOpenWithSettings(env: Env, incoming: Bytes, calls: seq<Call>)
    requires !Serve(env, incoming, calls).session.core.closed
    ensures var s := Serve(env, incoming, calls).session.core;
            s.capture.frames != [] ==> Opening(s.capture.frames[0], s.capture.initialSettings)
  {
    hide Serve, Intake, Ledger, Text;
    ServeSpoken(env, incoming, calls);
  }

  /** Header blocks are contiguous, the counter is the size of the open block, and it is bounded. */
  lemma BlocksAreContiguous(env: Env, incoming: Bytes, calls: seq<Call>)
    requires !Serve(env, incoming, calls).session.core.closed
    ensures var s := Serve(env, incoming, calls).session.core;
            && Contiguous(s.capture.frames)
            && s.headerBlockBytes <= 65536
            && (s.continuation.None? ==> s.headerBlockBytes == 0)
            && BlockAfter(s.capture.frames) ==
                 if s.continuation.None? then NoBlock else OpenBlock(s.continuation.value, s.headerBlockBytes)
  {
    hide Serve, Intake, Ledger, Text;
    ServeSpoken(env, incoming, calls);
  }

  /** A request is ready to be answered exactly when its stream has ended, or an expectation cannot be met, or it
      is CONNECT. */
  lemma RequestIsReadyWhenComplete(env: Env, incoming: Bytes, calls: seq<Call>)
    requires var s := Serve(env, incoming, calls).session.core; !s.closed && !s.cancelled
    ensures var s := Serve(env, incoming, calls).session.core; s.requestReady <==> Answerable(s)
  {
    hide Serve, Intake, Ledger, Text, Whole, Inv, Answerable;
    ServeSpoken(env, incoming, calls);
    ReadyIffAnswerable(Serve(env, incoming, calls).session.core);
  }

  /** Remembered idle streams are odd and above every opened one, and with the open ones there are never
      more than a hundred. */
  lemma PrioritiesAreBounded(env: Env, incoming: Bytes, calls: seq<Call>)
    requires !Serve(env, incoming, calls).session.core.closed
    ensures var s := Serve(env, incoming, calls).session.core;
            && (forall i :: i in s.idle ==> i % 2 == 1 && i > s.conn.highest)
            && |s.idle| + OpenCount(s.conn) <= 100
  {
    hide Serve, Intake, Ledger, Text;
    ServeSpoken(env, incoming, calls);
  }

  /** What one response leaves behind: whole or broken off by the peer if there was a request to answer, and in
      every state between calls with what it read accounted for. */
  ghost predicate Responded(s: Session, r: Sent, content: Bytes, status: nat, peer: Peer, start: nat) {
    && (Requested(s.core) && !(100 <= status < 200) ==>
          && r.taken <= start + Budget(s) + 1
          && var body := if status == 204 || status == 304 then [] else content;
             exists shots :: Replied(s.core, r, shots, s.core.capture.streamId.value, status, body, peer, start))
    && (Good(s.core) ==> start <= r.taken && Called(s, Heard(peer, start, r.taken), r.session, r.raised))
  }

  lemma ResponseOutcome(env: Env, s: Session, content: Bytes, status: nat, peer: Peer, start: nat)
    ensures Responded(s, SendResponse(env, s, content, status, peer, start), content, status, peer, start)
  {
    hide SendResponse, Requested, Replied, Good, Called, Budget, Heard;
    if Good(s.core) { ResponseSpoken(env, s, content, status, peer, start); }
    if Requested(s.core) && !(100 <= status < 200) {
      RequestedFacts(s.core);
      ResponseIsDelivered(env, s, s.core.capture.streamId.value, content, status, peer, start);
    }
  }

  // ------------------------------------------------------------------- GOAWAY

  lemma {:induction false} ClosedStaysQuiet(s: Core, codes: seq<int>, code: int)
    requires Ended(s, code)
    ensures Goaways(CloseAll(s, codes).written) == [code]
    decreases |codes|
  {
    if codes != [] {
      assert s.written + [] == s.written;
      ClosedStaysQuiet(Close(s, codes[0]), codes[1..], code);
    }
  }

  /** At most one GOAWAY in every run, whatever is read, sent and closed: a protocol failure announces its
      own code and nothing replaces it; without one, the first close has the word. */
  lemma OneGoaway(env: Env, incoming: Bytes, calls: seq<Call>, codes: seq<int>)
    ensures var r := Serve(env, incoming, calls);
            var said := Goaways(CloseAll(r.session.core, codes).written);
            if r.session.core.closed then r.raised.Protocol? && said == [r.raised.code]
            else said == if codes == [] then [] else [codes[0]]
  {
    hide Serve, Intake, Whole, Text;
    ServeSpoken(env, incoming, calls);
    var r := Serve(env, incoming, calls);
    var s := r.session.core;
    if s.closed {
      ClosedStaysQuiet(s, codes, r.raised.code);
    } else if codes != [] {
      InvEnds(s, codes[0]);
      ClosedStaysQuiet(Close(s, codes[0]), codes[1..], codes[0]);
    }
  }

  // -------------------------------------------------------------------- HPACK

  /** In every run, responses included, until the session fails: the table of a client that decoded what was
      written is ours before the sizes still queued; with none queued the two are the same. */
  lemma ClientTableLagsByTheQueue(env: Env, incoming: Bytes, calls: seq<Call>)
    requires !Serve(env, incoming, calls).session.core.closed
    ensures var s := Serve(env, incoming, calls).session.core;
            var client, encoder := Client(s.written), s.conn.encoder;
            && encoder.table == Hpack.Shrink(client.table, encoder.changes)
            && (encoder.changes == [] ==> encoder.table == client.table && encoder.maxSize == client.maxSize)
  {
    hide Serve, Intake, Whole, Text;
    ServeSpoken(env, incoming, calls);
    var s := Serve(env, incoming, calls).session.core;
    CleanStart(s);
    hide Inv, Balanced;
    assert s.written + [] == s.written;
  }

  /** In every run, the next response head brings the two tables together, with at most two size updates. */
  lemma HeadMeetsTheClient(env: Env, incoming: Bytes, calls: seq<Call>, id: nat, status: nat, ended: bool)
    requires var s := Serve(env, incoming, calls).session.core;
             !s.closed && SendHeaders(env, s.conn, id, status, ended).Some?
    ensures var s := Serve(env, incoming, calls).session.core;
            var d := SendHeaders(env, s.conn, id, status, ended).value;
            var client := Client(s.written + d.outbound);
            && d.encoder.table == client.table && d.encoder.maxSize == client.maxSize && d.encoder.changes == []
            && |Hpack.Updates(s.conn.encoder)| <= 2
  {
    hide Serve, Intake, Whole, Text, Good;
    ServeSpoken(env, incoming, calls);
    HeadMeets(env, Serve(env, incoming, calls).session.core, id, status, ended);
  }

  lemma HeadMeets(env: Env, s: Core, id: nat, status: nat, ended: bool)
    requires Good(s) && SendHeaders(env, s.conn, id, status, ended).Some?
    ensures var d := SendHeaders(env, s.conn, id, status, ended).value;
            var client := Client(s.written + d.outbound);
            && d.encoder.table == client.table && d.encoder.maxSize == client.maxSize && d.encoder.changes == []
            && |Hpack.Updates(s.conn.encoder)| <= 2
  {
    CleanStart(s);
    HeadIsSendStep(env, s.conn, id, status, ended);
    hide Inv, Balanced, SendHeaders, SendStep, Unsent, Told, Client;
    var fields := env.indexed(s.conn.encoder, status);
    assert s.written + [] == s.written;
    Hpack.BlockSynchronises(Hpack.Ends(s.conn.encoder, Client(s.written)), fields);
    ClientNext(s.written, Head(env, s.conn, id, status, ended));
  }

  lemma ClientNext(out: seq<OutFrame>, f: OutFrame)
    requires f.HeadersSent?
    ensures Client(out + [f]) == Hpack.Decoded(Client(out), f.updates, f.literals)
  {
    assert (out + [f])[..|out|] == out;
  }

  // ------------------------------------------------------------ Content-Length

  /** In every run, a request that has ended its stream has exactly the body its Content-Length fields all
      denote, whatever their digits, and never more than 1048576 octets. */
  lemma FinishedRequestHasItsLength(env: Env, incoming: Bytes, calls: seq<Call>, id: nat)
    requires var s := Serve(env, incoming, calls).session.core;
             && !s.closed && !s.cancelled && s.capture.streamId == Some(id)
             && PhaseOf(s.conn, id).Some? && RemoteEnded(PhaseOf(s.conn, id).value)
    ensures var s := Serve(env, incoming, calls).session.core;
            && s.capture.headers.Some? && BodyBytes(s.capture.frames, id) <= 1048576
            && var lengths := ValuesOf(s.capture.headers.value, CONTENT_LENGTH);
               forall i :: 0 <= i < |lengths| ==>
                 Decimal.AllDigits(lengths[i]) && Decimal.Value(lengths[i]) == BodyBytes(s.capture.frames, id)
  {
    hide Serve, Intake, Whole, Text, Ledger;
    ServeSpoken(env, incoming, calls);
    FinishedLength(Serve(env, incoming, calls).session.core, id);
  }

  lemma FinishedLength(s: Core, id: nat)
    requires Inv(s) && !s.cancelled && s.capture.streamId == Some(id)
    requires PhaseOf(s.conn, id).Some? && RemoteEnded(PhaseOf(s.conn, id).value)
    ensures s.capture.headers.Some? && BodyBytes(s.capture.frames, id) <= 1048576
    ensures var lengths := ValuesOf(s.capture.headers.value, CONTENT_LENGTH);
            forall i :: 0 <= i < |lengths| ==>
              Decimal.AllDigits(lengths[i]) && Decimal.Value(lengths[i]) == BodyBytes(s.capture.frames, id)
  {
    hide BodyBytes, Contiguous, BlockAfter, Settled, StreamsOk, OpenCount, SumEntries, Goaways, DataKnown, ValuesOf;
    var lengths := ValuesOf(s.capture.headers.value, CONTENT_LENGTH);
    if lengths != [] {
      var last := lengths[|lengths| - 1];
      Decimal.BoundedIsMinimum(last);
      Decimal.LengthsAgreeIffOneNumber(lengths);
    }
  }

  // -------------------------------------------------------------- one exchange

  /** How a connection that negotiated h2 went. Until the preface is decided there is no session. */
  datatype Talk = Gone(taken: nat) | Talk(sent: Sent)

  /** The preface, the request and the response, all read from one peer. */
  function Exchange(env: Env, peer: Peer, content: Bytes, status: nat): Talk {
    var p := AwaitPreface(peer, [], 0);
    match p.octets
    case None => Gone(p.taken)
    case Some(octets) =>
      var c := Initialize(env, FRESH_SESSION, octets);
      if c.raised != Quiet then Talk(Sent(c.session, c.raised, p.taken))
      else
        var q := ReadRequest(env, c.session, peer, p.taken);
        Talk(if q.raised != Quiet then q else SendResponse(env, q.session, content, status, peer, q.taken))
  }

  /** All that was written when the connection has been closed: without a session there is nothing to close. */
  function Farewell(talk: Talk, code: int): seq<OutFrame> {
    match talk
    case Gone(_) => []
    case Talk(r) => Close(r.session.core, code).written
  }

  function Reads(talk: Talk): nat { match talk case Gone(n) => n case Talk(r) => r.taken }

  /** Everything a client sees of one exchange that raised nothing: on the request's stream the response and
      nothing else, every DATA frame within the windows of its moment; and everything it said is captured. */
  ghost predicate Exchanged(r: Sent, out: seq<OutFrame>, shots: seq<Shot>, status: nat, body: Bytes, peer: Peer) {
    && r.session.core.capture.streamId.Some?
    && var id := r.session.core.capture.streamId.value;
       && (exists k :: 0 <= k < |out| && out[k].HeadersSent? && out[k].stream == id && out[k].status == status)
       && Parts(out, id) == Answer(shots, body) && Body(Answer(shots, body)) == body && EndsOnce(Answer(shots, body))
       && Fair(shots, id, r.session.core) && HeardWhole(r, peer)
  }

  /** Everything read after the preface, from the first read on, is captured or buffered. */
  ghost predicate HeardWhole(r: Sent, peer: Peer) {
    |PREFACE| <= |Heard(peer, 0, r.taken)| && Whole(r.session, Heard(peer, 0, r.taken)[|PREFACE|..])
  }

  /** The last word: one GOAWAY, naming the request's stream if there was one. */
  predicate Parting(s: Core, out: seq<OutFrame>, code: int) {
    && out != [] && Goaways(out) == [code]
    && out[|out| - 1] == GoawaySent(match s.capture.streamId case Some(id) => id case None => 0, code)
  }

  /** How an exchange with a session ended, given what was written in the end. */
  ghost predicate Over(r: Sent, out: seq<OutFrame>, status: nat, body: Bytes, peer: Peer, code: int) {
    && out != [] && out[0] == SettingsSent
    && match r.raised
       case Quiet => Parting(r.session.core, out, code) && exists shots :: Exchanged(r, out, shots, status, body, peer)
       case Protocol(failure) => Goaways(out) == [failure]
       case Reset => Parting(r.session.core, out, code) && GivenUp(r.session.core, peer, 0, r.taken)
       case Runtime => false
  }

  /** From the first read to the last frame, for every peer: the exchange ends within the capture budget. If the
      peer leaves before its preface is decided, nothing at all is written. Otherwise our SETTINGS come first,
      and there is exactly one GOAWAY: with the code of the protocol failure if there was one, else with the
      closing code. If nothing was raised, the response has been delivered and everything read is captured. */
  lemma ExchangeIsComplete(env: Env, peer: Peer, content: Bytes, status: nat, code: int)
    requires !(100 <= status < 200)
    ensures var talk := Exchange(env, peer, content, status);
            var out := Farewell(talk, code);
            && Reads(talk) <= 2 * MAX_CAPTURE_BYTES + |PREFACE| + 3
            && (talk.Talk? <==> PrefaceComes(peer))
            && (talk.Gone? ==> out == [])
            && (talk.Talk? ==> Over(talk.sent, out, status, if status == 204 || status == 304 then [] else content, peer, code))
            && |Goaways(out)| == if PrefaceComes(peer) then 1 else 0
  {
    hide AwaitPreface, PrefaceComes, Initialize, ReadRequest, SendResponse, Over, Close, Goaways, Text, Heard, Stays, PrefaceDecided;
    PrefaceComesOrNot(peer);
    var p := AwaitPreface(peer, [], 0);
    if p.octets.Some? {
      SessionIsOver(env, peer, p.octets.value, p.taken, content, status, code);
      OneWord(Exchange(env, peer, content, status).sent, Farewell(Exchange(env, peer, content, status), code),
              status, if status == 204 || status == 304 then [] else content, peer, code);
    } else {
      NoWord();
    }
  }

  /** A client that leaves after a proper part of the preface, or before saying anything, sees neither SETTINGS
      nor GOAWAY. */
  lemma EarlyLeaverSeesNothing(env: Env, peer: Peer, n: nat, content: Bytes, status: nat, code: int)
    requires Stays(peer, n) && peer(n) == [] && Heard(peer, 0, n) < PREFACE
    ensures Farewell(Exchange(env, peer, content, status), code) == []
  {
    hide Initialize, ReadRequest, SendResponse, Close, Text, Heard, AwaitPreface;
    PrefaceComesOrNot(peer);
    forall m: nat | Stays(peer, m) ensures !PrefaceDecided(Heard(peer, 0, m)) {
      assert m <= n;
      HeardAppend(peer, 0, m, n);
      DecidedForGood(Heard(peer, 0, m), Heard(peer, m, n));
    }
  }

  lemma NoWord()
    ensures Goaways([]) == []
  {
  }

  lemma OneWord(r: Sent, out: seq<OutFrame>, status: nat, body: Bytes, peer: Peer, code: int)
    requires Over(r, out, status, body, peer, code)
    ensures |Goaways(out)| == 1
  {
    hide Goaways, Exchanged;
  }

  lemma SessionIsOver(env: Env, peer: Peer, octets: Bytes, taken: nat, content: Bytes, status: nat, code: int)
    requires octets == Heard(peer, 0, taken) && !(100 <= status < 200)
    ensures var c := Initialize(env, FRESH_SESSION, octets);
            var q := ReadRequest(env, c.session, peer, taken);
            var r := if c.raised != Quiet then Sent(c.session, c.raised, taken)
                     else if q.raised != Quiet then q else SendResponse(env, q.session, content, status, peer, q.taken);
            && r.taken <= taken + 2 * MAX_CAPTURE_BYTES + 2
            && Over(r, Close(r.session.core, code).written, status, if status == 204 || status == 304 then [] else content,
                    peer, code)
  {
    hide Initialize, ReadRequest, SendResponse, Over, Close, Goaways, Text, Heard, Good, Unsent, NothingSent, Whole, Awaited,
         Replied, Requested, Budget, Took, HeardWhole, Called, Ended;
    StartIsWell(env, octets);
    var body: Bytes, c := if status == 204 || status == 304 then [] else content, Initialize(env, FRESH_SESSION, octets);
    if c.raised.Quiet? {
      BudgetIsBounded(c.session);
      RequestIsAwaited(env, c.session, peer, taken);
      RequestGrows(env, c.session, peer, taken);
      var q := ReadRequest(env, c.session, peer, taken);
      AwaitedFacts(c.session, Waits(env, c.session, peer, taken), peer, taken, q);
      if q.raised.Quiet? {
        BudgetIsBounded(q.session);
        RequestedFacts(q.session.core);
        var id := q.session.core.capture.streamId.value;
        ResponseIsDelivered(env, q.session, id, content, status, peer, q.taken);
        ResponseSpoken(env, q.session, content, status, peer, q.taken);
        BeforeTheResponse(c.session.core, q.session.core, id);
        var r := SendResponse(env, q.session, content, status, peer, q.taken);
        var shots := ResponseShots(env, q.session, id, content, status, peer, q.taken);
        CalledFacts(q.session, Heard(peer, q.taken, r.taken), r);
        if r.raised.Quiet? { AllHeard(c.session, q.session, r, octets, peer, taken, q.taken); }
        ReplyIsOver(q.session.core, r, shots, id, status, body, peer, q.taken, code);
      } else {
        RaisedIsOver(q, status, body, peer, code);
      }
    } else {
      RaisedIsOver(Sent(c.session, c.raised, taken), status, body, peer, code);
    }
  }

  /** Our SETTINGS are the first thing written. */
  predicate Begins(s: Core) { s.written != [] && s.written[0] == SettingsSent }

  lemma StartIsWell(env: Env, octets: Bytes)
    ensures var r := Initialize(env, FRESH_SESSION, octets);
            && Begins(r.session.core)
            && match r.raised
               case Quiet =>
                 && PREFACE <= octets && Good(r.session.core) && Unsent(r.session.core.conn)
                 && Whole(r.session, octets[|PREFACE|..]) && NothingSent(BEGAN.core, r.session.core)
               case Protocol(code) => Ended(r.session.core, code)
               case Reset => Good(r.session.core) && r.session.core.cancelled
               case Runtime => false
  {
    hide Good, Ended, Unsent, NothingSent, Whole, Text, Run, Initialize;
    EveryRun(env, octets, []);
    StartIsRun(env, octets);
    StartBegins(env, octets);
    var none: seq<Bytes> := [];
    assert Concat(none) == [];
    if PREFACE <= octets { assert octets[|PREFACE|..] + [] == octets[|PREFACE|..]; }
  }

  lemma StartBegins(env: Env, octets: Bytes)
    ensures Begins(Initialize(env, FRESH_SESSION, octets).session.core)
  {
    hide Receive, Text, Mute;
    BeganWritten();
    if PREFACE <= octets && |octets| > |PREFACE| { ReceiveOnward(env, BEGAN, octets[|PREFACE|..]); }
  }

  lemma {:induction false} RequestGrows(env: Env, s: Session, peer: Peer, taken: nat)
    ensures s.core.written <= ReadRequest(env, s, peer, taken).session.core.written
    decreases Budget(s)
  {
    hide Receive, Mute;
    if !s.core.requestReady {
      ReceiveOnward(env, s, peer(taken));
      var r := Receive(env, s, peer(taken));
      if r.raised.Quiet? { RequestGrows(env, r.session, peer, taken + 1); }
    }
  }

  lemma AwaitedFacts(s: Session, waits: seq<Core>, peer: Peer, taken: nat, r: Sent)
    requires Awaited(s, waits, peer, taken, r)
    ensures taken <= r.taken <= taken + Budget(s) + 1
    ensures match r.raised
            case Quiet =>
              Requested(r.session.core) && NothingSent(s.core, r.session.core) && Took(s, Heard(peer, taken, r.taken), r.session)
            case Protocol(code) => Ended(r.session.core, code)
            case Reset => Good(r.session.core) && GivenUp(r.session.core, peer, taken, r.taken)
            case Runtime => false
  {
    hide Requested, NothingSent, Took, Good, Ended, Budget, Answerable;
  }

  lemma CalledFacts(s: Session, octets: Bytes, r: Sent)
    requires Called(s, octets, r.session, r.raised)
    ensures r.raised.Quiet? ==> Took(s, octets, r.session)
  {
  }

  lemma BudgetIsBounded(s: Session)
    ensures Budget(s) <= MAX_CAPTURE_BYTES
  {
  }

  lemma GoodIsClean(s: Core)
    requires Good(s)
    ensures Clean(s)
  {
  }

  lemma CleanCloses(s: Core, code: int)
    requires Clean(s)
    ensures Goaways(Close(s, code).written) == [code] && Close(s, code).written == s.written + [GoawaySent(LastStream(s), code)]
  {
    EndsIfClean(s, code);
    assert [] + [GoawaySent(LastStream(s), code)] == [GoawaySent(LastStream(s), code)];
  }

  function LastStream(s: Core): nat { if s.capture.streamId.Some? then s.capture.streamId.value else 0 }

  lemma EndedCloses(s: Core, failure: int, code: int)
    requires Ended(s, failure)
    ensures Goaways(Close(s, code).written) == [failure] && Close(s, code).written == s.written
  {
    assert s.written + [] == s.written;
  }

  lemma RequestedFacts(s: Core)
    requires Requested(s)
    ensures s.capture.streamId.Some? && Sending(s, s.capture.streamId.value) && !s.cancelled && Good(s)
  {
  }

  /** Up to the response nothing has been sent on any stream that carries a body or ends it. */
  lemma BeforeTheResponse(s: Core, t: Core, id: nat)
    requires NothingSent(BEGAN.core, s) && NothingSent(s, t)
    ensures Parts(t.written, id) == []
  {
    NothingSentTwice(BEGAN.core, s, t);
    SamePartsIfNothingSent(BEGAN.core, t, id);
    BeganWritten();
    PlainParts([SettingsSent], id);
  }

  /** The reads of the three phases, put together. */
  lemma AllHeard(c: Session, q: Session, r: Sent, octets: Bytes, peer: Peer, taken: nat, later: nat)
    requires taken <= later <= r.taken && octets == Heard(peer, 0, taken)
    requires PREFACE <= octets && Whole(c, octets[|PREFACE|..])
    requires Took(c, Heard(peer, taken, later), q) && Took(q, Heard(peer, later, r.taken), r.session)
    ensures HeardWhole(r, peer)
  {
    hide Heard, Text;
    TookTwice(c, Heard(peer, taken, later), q, Heard(peer, later, r.taken), r.session);
    HeardAppend(peer, taken, later, r.taken);
    HeardAppend(peer, 0, taken, r.taken);
    assert (octets + Heard(peer, taken, r.taken))[|PREFACE|..] == octets[|PREFACE|..] + Heard(peer, taken, r.taken);
  }

  /** An exchange that was cut short. */
  lemma RaisedIsOver(r: Sent, status: nat, body: Bytes, peer: Peer, code: int)
    requires Begins(r.session.core)
    requires match r.raised
             case Protocol(failure) => Ended(r.session.core, failure)
             case Reset => Good(r.session.core) && GivenUp(r.session.core, peer, 0, r.taken)
             case _ => false
    ensures Over(r, Close(r.session.core, code).written, status, body, peer, code)
  {
    hide Ended, Good, Close, Goaways, Exchanged;
    var s := r.session.core;
    if r.raised.Protocol? {
      EndedCloses(s, r.raised.code, code);
    } else {
      GoodIsClean(s);
      CleanCloses(s, code);
    }
  }

  lemma ReplyIsOver(s: Core, r: Sent, shots: seq<Shot>, id: nat, status: nat, body: Bytes, peer: Peer, from: nat, code: int)
    requires Replied(s, r, shots, id, status, body, peer, from) && s.capture.streamId == Some(id) && Parts(s.written, id) == [] && Begins(s)
    requires r.raised.Quiet? ==> HeardWhole(r, peer)
    ensures Over(r, Close(r.session.core, code).written, status, body, peer, code)
  {
    hide Inv, Ledger, Ended, Fair, Goaways, Close, Body, EndsOnce, Clean, Parts, Answer, HeardWhole;
    var t := r.session.core;
    if r.raised.Quiet? {
      GoodIsClean(t);
      CleanCloses(t, code);
      var out := Close(t, code).written;
      PartsAppend(t.written, [GoawaySent(LastStream(t), code)], id);
      PlainParts([GoawaySent(LastStream(t), code)], id);
      assert Parts(out, id) == Answer(shots, body);
      assert out[|s.written|] == t.written[|s.written|];
      assert Exchanged(r, out, shots, status, body, peer);
    } else {
      RaisedIsOver(r, status, body, peer, code);
    }
  }
}
