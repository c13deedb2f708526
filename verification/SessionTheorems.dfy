/** What a session guarantees over every run of reads, from the search for the preface to a request that can be
    answered. */
module SessionTheorems {
  import opened Wire
  import opened Frames
  import opened H2
  import opened H2Proofs
  import opened SessionSpec
  import opened SessionInvariant
  import opened SessionRuns
  import opened FlowControl
  import opened Responses
  import Hpack

  // -------------------------------------------------------------------- runs

  /** The state between calls, as long as nothing has been raised. */
  ghost predicate Good(s: Core) { Inv(s) && Ledger(s) }

  lemma BeganWritten()
    ensures BEGAN.core.written == [SettingsSent] && BEGAN.core.conn == H2.FRESH && BEGAN.core.capture.frames == []
    ensures BEGAN.core.written + BEGAN.core.conn.outbound == [SettingsSent]
  {
    assert [] + [SettingsSent] == [SettingsSent] && [SettingsSent] + [] == [SettingsSent];
  }

  /** Nothing granted, nothing sent. */
  lemma BeganBalanced()
    ensures Balanced(H2.FRESH, [SettingsSent], []) && Unsent(H2.FRESH)
  {
    NoOctets([SettingsSent], None);
    hide Octets;
    var none: seq<ParsedFrame> := [];
    assert Credit(none, 0) == 0 && Told(none) == H2.FRESH.remote;
    hide Credit, Told;
  }

  lemma BeganSynced()
    ensures Hpack.InStep(Hpack.Ends(H2.FRESH.encoder, Client([SettingsSent])))
  {
    NoHeadsClient([], [SettingsSent]);
    assert [] + [SettingsSent] == [SettingsSent];
    var none: seq<nat> := [];
    assert Hpack.Shrink([], none) == [];
  }

  lemma BeganIsGood()
    ensures Good(BEGAN.core) && Unsent(BEGAN.core.conn)
  {
    hide Inv, Balanced, Hpack.InStep, Unsent, Client, Waiting;
    BeganWaits();
    WaitingInv(BEGAN);
    BeganWritten();
    BeganBalanced();
    BeganSynced();
  }

  lemma WaitingInv(s: Session)
    requires Waiting(s)
    ensures Inv(s.core)
  {
  }

  lemma NoPreface(env: Env, incoming: Bytes)
    requires !(PREFACE <= incoming)
    ensures var r := Initialize(env, FRESH_SESSION, incoming);
            r.raised == Protocol(PROTOCOL_ERROR) && Ended(r.session.core, PROTOCOL_ERROR)
  {
    BeganWaits();
    hide Receive, Ended, Inv;
    InvEnds(BEGAN.core, PROTOCOL_ERROR);
  }

  /** What reading chunks from `s` may leave behind. */
  ghost predicate ReadWell(s: Session, chunks: seq<Bytes>, r: Outcome) {
    match r.raised
    case Quiet =>
      && Good(r.session.core) && Unsent(r.session.core.conn) && NothingSent(s.core, r.session.core)
      && Took(s, Concat(chunks), r.session)
    case Protocol(code) => Ended(r.session.core, code)
    case Reset => Good(r.session.core) && (r.session.core.cancelled || [] in chunks)
    case Runtime => false
  }

  lemma OneRead(env: Env, s: Session, data: Bytes)
    requires Good(s.core) && Unsent(s.core.conn)
    ensures ReadWell(s, [data], Receive(env, s, data))
  {
    hide Inv, Ledger, Unsent, Ended, Receive, Took, HasFrame, TooLong, Onward, NothingSent;
    ChunkKeeps(env, s, data);
    if !Receive(env, s, data).raised.Protocol? { ChunkKeepsLedger(env, s, data); }
    ConcatOne([], data);
    assert [] + [data] == [data] && [] + data == data;
  }

  lemma TwoReads(s: Session, front: seq<Bytes>, r: Outcome, last: Bytes, t: Outcome)
    requires ReadWell(s, front, r) && r.raised.Quiet? && ReadWell(r.session, [last], t)
    ensures ReadWell(s, front + [last], t)
  {
    hide Good, Unsent, Ended, Took;
    ConcatOne(front, last);
    ConcatOne([], last);
    assert [] + [last] == [last] && [] + last == last;
    if t.raised.Quiet? {
      NothingSentTwice(s.core, r.session.core, t.session.core);
      TookTwice(s, Concat(front), r.session, last, t.session);
    }
  }

  lemma {:induction false} ChunksKeep(env: Env, s: Session, chunks: seq<Bytes>)
    requires Good(s.core) && Unsent(s.core.conn)
    ensures ReadWell(s, chunks, ReceiveAll(env, s, chunks))
    decreases |chunks|
  {
    hide Good, Unsent, ReadWell, Receive;
    if chunks == [] {
      NothingRead(s);
    } else {
      var front, last := chunks[..|chunks| - 1], chunks[|chunks| - 1];
      assert chunks == front + [last];
      ChunksKeep(env, s, front);
      var r := ReceiveAll(env, s, front);
      if r.raised.Quiet? {
        ReadIsGood(s, front, r);
        OneRead(env, r.session, last);
        TwoReads(s, front, r, last, Receive(env, r.session, last));
      } else {
        NotRead(s, front, last, r);
      }
    }
  }

  lemma NothingRead(s: Session)
    requires Good(s.core) && Unsent(s.core.conn)
    ensures ReadWell(s, [], Outcome(s, Quiet))
  {
    hide Good, Unsent, Took;
    TookNothing(s, s);
  }

  lemma ReadIsGood(s: Session, chunks: seq<Bytes>, r: Outcome)
    requires ReadWell(s, chunks, r) && r.raised.Quiet?
    ensures Good(r.session.core) && Unsent(r.session.core.conn)
  {
  }

  lemma NotRead(s: Session, front: seq<Bytes>, last: Bytes, r: Outcome)
    requires ReadWell(s, front, r) && !r.raised.Quiet?
    ensures ReadWell(s, front + [last], r)
  {
    hide Good, Ended;
  }

  /** What a run of reads from the preface on may leave behind. */
  ghost predicate RunWell(incoming: Bytes, chunks: seq<Bytes>, r: Outcome) {
    match r.raised
    case Quiet =>
      && PREFACE <= incoming && Good(r.session.core) && Unsent(r.session.core.conn)
      && Whole(r.session, incoming[|PREFACE|..] + Concat(chunks))
      && NothingSent(BEGAN.core, r.session.core)
    case Protocol(code) => Ended(r.session.core, code) && (!(PREFACE <= incoming) ==> code == 1)
    case Reset => PREFACE <= incoming && Good(r.session.core) && (r.session.core.cancelled || [] in chunks)
    case Runtime => false
  }

  /** Exactly these octets have arrived, all of them captured or buffered, and they are counted. */
  predicate Whole(s: Session, octets: Bytes) {
    Arrived(s) == octets && s.captureBytes == |octets| <= MAX_CAPTURE_BYTES
  }

  lemma BeganWhole(t: Session, octets: Bytes)
    requires Took(BEGAN, octets, t)
    ensures Whole(t, octets)
  {
    assert Arrived(BEGAN) + octets == octets;
  }

  /** Every run of reads ends in one of three ways: nothing raised and the invariant intact, one GOAWAY
      with the code of the failure, or a reset because the request was cancelled or the stream ended. */
  lemma EveryRun(env: Env, incoming: Bytes, chunks: seq<Bytes>)
    ensures RunWell(incoming, chunks, Run(env, incoming, chunks))
  {
    hide Good, Unsent, Ended, ReceiveAll, Initialize, Text, NothingSent, Took, Whole;
    if PREFACE <= incoming {
      BeganIsGood();
      RunIsReceive(env, incoming, chunks);
      var all, r := Rest(incoming) + chunks, Run(env, incoming, chunks);
      ChunksKeep(env, BEGAN, all);
      if r.raised.Quiet? { BeganWhole(r.session, Concat(all)); }
    } else {
      NoPreface(env, incoming);
    }
  }

  // ------------------------------------------------------------------ preface

  /** The preface is there, or cannot be any more. */
  predicate PrefaceDecided(buffered: Bytes) { |buffered| >= |PREFACE| || !(buffered <= PREFACE) }

  /** None if the peer left before the preface was decided. */
  datatype Prefaced = Prefaced(octets: Option<Bytes>, taken: nat)

  /** Reads until the preface is decided. */
  function AwaitPreface(peer: Peer, buffered: Bytes, taken: nat): Prefaced
    decreases |PREFACE| - |buffered|
  {
    if PrefaceDecided(buffered) then Prefaced(Some(buffered), taken)
    else if peer(taken) == [] then Prefaced(None, taken + 1)
    else AwaitPreface(peer, buffered + peer(taken), taken + 1)
  }

  /** The first `n` reads deliver something. */
  ghost predicate Stays(peer: Peer, n: nat) { forall k :: 0 <= k < n ==> peer(k) != [] }

  /** The peer says enough to decide the preface before it leaves. */
  ghost predicate PrefaceComes(peer: Peer) { exists n: nat :: Stays(peer, n) && PrefaceDecided(Heard(peer, 0, n)) }

  /** The octets awaited are the reads made, all of them there; without them the last read found the end. */
  ghost predicate WellAwaited(peer: Peer, r: Prefaced) {
    match r.octets
    case Some(octets) => octets == Heard(peer, 0, r.taken) && PrefaceDecided(octets) && Stays(peer, r.taken)
    case None => r.taken > 0 && Stays(peer, r.taken - 1) && peer(r.taken - 1) == [] && !PrefaceDecided(Heard(peer, 0, r.taken - 1))
  }

  lemma {:induction false} PrefaceAwaited(peer: Peer, taken: nat)
    requires Stays(peer, taken)
    ensures var r := AwaitPreface(peer, Heard(peer, 0, taken), taken);
            && WellAwaited(peer, r)
            && taken <= r.taken <= taken + 1 + (if |Heard(peer, 0, taken)| < |PREFACE| then |PREFACE| - |Heard(peer, 0, taken)| else 0)
    decreases |PREFACE| - |Heard(peer, 0, taken)|
  {
    var buffered := Heard(peer, 0, taken);
    hide Text;
    if !PrefaceDecided(buffered) && peer(taken) != [] {
      HeardNext(peer, taken);
      PrefaceAwaited(peer, taken + 1);
    }
  }

  lemma DecidedForGood(a: Bytes, b: Bytes)
    ensures PrefaceDecided(a) ==> PrefaceDecided(a + b)
    ensures PrefaceDecided(a) ==> (PREFACE <= a <==> PREFACE <= a + b)
  {
    hide Text;
    if a + b <= PREFACE { assert a == (a + b)[..|a|] == PREFACE[..|a|]; }
  }

  /** Whether there will be a session depends on what the peer says before it leaves, and on nothing else. */
  lemma PrefaceComesOrNot(peer: Peer)
    ensures var r := AwaitPreface(peer, [], 0);
            && WellAwaited(peer, r) && r.taken <= |PREFACE| + 1
            && (r.octets.Some? <==> PrefaceComes(peer))
  {
    hide AwaitPreface, PrefaceDecided, Heard;
    assert Heard(peer, 0, 0) == [] by { HeardNothing(peer); }
    PrefaceAwaited(peer, 0);
    var r := AwaitPreface(peer, [], 0);
    if r.octets.None? {
      var m := r.taken - 1;
      forall n: nat | Stays(peer, n) ensures !PrefaceDecided(Heard(peer, 0, n)) {
        assert n <= m;
        HeardAppend(peer, 0, n, m);
        DecidedForGood(Heard(peer, 0, n), Heard(peer, n, m));
      }
    }
  }

  lemma HeardNothing(peer: Peer)
    ensures Heard(peer, 0, 0) == []
  {
  }

  /** Reads until the preface is decided. No octet is lost, whatever follows cannot change the decision, and
      there is none only if the peer leaves first. */
  method ReadPreface(peer: Peer) returns (buffered: Option<Bytes>, taken: nat)
    ensures Prefaced(buffered, taken) == AwaitPreface(peer, [], 0)
    ensures buffered.Some? <==> PrefaceComes(peer)
    ensures buffered.Some? ==> buffered.value == Heard(peer, 0, taken)
    ensures buffered.Some? ==> forall more: Bytes :: PREFACE <= buffered.value <==> PREFACE <= buffered.value + more
    ensures taken <= |PREFACE| + 1
  {
    PrefaceComesOrNot(peer);
    var data: Bytes := [];
    taken := 0;
    while |data| < |PREFACE|
      invariant |data| >= |PREFACE| || data <= PREFACE
      invariant AwaitPreface(peer, data, taken) == AwaitPreface(peer, [], 0)
      decreases |PREFACE| - |data|
    {
      var chunk := peer(taken);
      taken := taken + 1;
      if chunk == [] {
        return None, taken;
      }
      data := data + chunk;
      var prefix := if |data| < |PREFACE| then data else data[..|PREFACE|];
      if !(prefix <= PREFACE) {
        break;
      }
    }
    forall more: Bytes ensures PREFACE <= data <==> PREFACE <= data + more { DecidedForGood(data, more); }
    buffered := Some(data);
  }

  /** The peer that delivers these chunks and leaves. */
  function Deliver(chunks: seq<Bytes>): Peer { (k: nat) => if k < |chunks| then chunks[k] else [] }

  lemma {:induction false} HeardDelivered(chunks: seq<Bytes>, n: nat)
    requires n <= |chunks|
    ensures Heard(Deliver(chunks), 0, n) == Concat(chunks[..n])
  {
    if n > 0 {
      HeardDelivered(chunks, n - 1);
      HeardNext(Deliver(chunks), n - 1);
      assert chunks[..n] == chunks[..n - 1] + [chunks[n - 1]];
      ConcatOne(chunks[..n - 1], chunks[n - 1]);
    }
  }

  /** There is a session once the preface is decided, and none if the peer left before. */
  datatype Contact = Left | Met(outcome: Outcome)

  /** A connection that negotiated h2, from its first decrypted chunk on. */
  function Connect(env: Env, chunks: seq<Bytes>): Contact {
    var p := AwaitPreface(Deliver(chunks), [], 0);
    if p.octets.None? || p.taken > |chunks| then Left else Met(Run(env, p.octets.value, chunks[p.taken..]))
  }

  lemma DeliveredStay(chunks: seq<Bytes>, n: nat)
    requires Nonempty(chunks)
    ensures Stays(Deliver(chunks), n) <==> n <= |chunks|
  {
    var peer := Deliver(chunks);
    assert peer(|chunks|) == [];
  }

  /** Reading the preface takes the first chunks, unless all of them leave it open. */
  lemma ChunksAwaited(chunks: seq<Bytes>)
    requires Nonempty(chunks)
    ensures var p := AwaitPreface(Deliver(chunks), [], 0);
            if p.octets.None? then !PrefaceDecided(Concat(chunks))
            else p.taken <= |chunks| && p.octets.value == Concat(chunks[..p.taken]) && PrefaceDecided(p.octets.value)
  {
    hide AwaitPreface, PrefaceDecided, Heard, Concat, Stays, PrefaceComes, Deliver, Text, Nonempty;
    var peer, n := Deliver(chunks), |chunks|;
    PrefaceComesOrNot(peer);
    var p := AwaitPreface(peer, [], 0);
    DeliveredStay(chunks, p.taken);
    if p.octets.Some? {
      HeardDelivered(chunks, p.taken);
    } else {
      DeliveredStay(chunks, p.taken - 1);
      LeavesAtEnd(chunks, p.taken - 1);
      HeardDelivered(chunks, n);
      assert chunks[..n] == chunks;
    }
  }

  lemma LeavesAtEnd(chunks: seq<Bytes>, k: nat)
    requires Nonempty(chunks) && k <= |chunks| && Deliver(chunks)(k) == []
    ensures k == |chunks|
  {
  }

  lemma ConnectCuts(env: Env, chunks: seq<Bytes>)
    requires Nonempty(chunks)
    ensures var p, c := AwaitPreface(Deliver(chunks), [], 0), Connect(env, chunks);
            && (c.Left? <==> !PrefaceDecided(Concat(chunks)))
            && (c.Met? ==>
                  && p.taken <= |chunks| && p.octets.Some? && PrefaceDecided(p.octets.value)
                  && c == Met(Run(env, p.octets.value, chunks[p.taken..]))
                  && Concat(chunks) == p.octets.value + Concat(chunks[p.taken..]))
  {
    hide AwaitPreface, PrefaceDecided, Run, Concat, Deliver, Text, Nonempty;
    ChunksAwaited(chunks);
    var p := AwaitPreface(Deliver(chunks), [], 0);
    if p.octets.Some? {
      ConcatCut(chunks, p.taken);
      DecidedForGood(Concat(chunks[..p.taken]), Concat(chunks[p.taken..]));
    }
  }

  /** Chunk independence of the whole connection: the first reads, which look for the preface, included. */
  lemma DeliveryDoesNotMatter(env: Env, a: seq<Bytes>, b: seq<Bytes>)
    requires Nonempty(a) && Nonempty(b) && Concat(a) == Concat(b) && |Concat(a)| - |PREFACE| <= MAX_CAPTURE_BYTES
    ensures var c, d := Connect(env, a), Connect(env, b);
            && (c.Left? <==> !PrefaceDecided(Concat(a))) && (d.Left? <==> c.Left?)
            && (c.Met? ==> Agrees(c.outcome, d.outcome))
  {
    hide Run, PrefaceDecided, Text, Onward, StopsAtCut, Concat, Agrees, AwaitPreface, Connect;
    ConnectCuts(env, a);
    ConnectCuts(env, b);
    if Connect(env, a).Met? {
      var p, q := AwaitPreface(Deliver(a), [], 0), AwaitPreface(Deliver(b), [], 0);
      var front, rest, front2, rest2 := p.octets.value, a[p.taken..], q.octets.value, b[q.taken..];
      DecidedForGood(front, Concat(rest));
      DecidedForGood(front2, Concat(rest2));
      if PREFACE <= Concat(a) {
        ChunkingDoesNotMatter(env, front, rest, front2, rest2);
      } else {
        WrongPreface(env, front, rest, front2, rest2);
        WrongAgrees(Run(env, front, rest));
      }
    }
  }

  lemma WrongAgrees(r: Outcome)
    requires r.raised.Protocol?
    ensures Agrees(r, r)
  {
  }

  lemma WrongPreface(env: Env, incoming: Bytes, chunks: seq<Bytes>, incoming2: Bytes, chunks2: seq<Bytes>)
    requires !(PREFACE <= incoming) && !(PREFACE <= incoming2)
    ensures Run(env, incoming, chunks) == Run(env, incoming2, chunks2) && Run(env, incoming, chunks).raised == Protocol(PROTOCOL_ERROR)
  {
    hide Receive, ReceiveAll, Text;
  }

  // --------------------------------------------------------------- priorities

  /** An update for a stream that already counts never fails and never changes anything. */
  lemma CountedUpdatesNeverFail(s: Core, id: nat)
    requires Inv(s) && (id in s.idle || (id in s.conn.streams && Live(s.conn.streams[id])))
    ensures OnPriorityUpdate(s, id) == Step(s, Quiet)
  {
    assert id in s.idle ==> s.idle + {id} == s.idle;
  }

  // -------------------------------------------------------------- the request

  /** What `receive_request` has waited for: a request whose stream can take the response, that was
      answered early (a failed expectation, CONNECT) or has ended with the body it declared. */
  ghost predicate Requested(s: Core) {
    && s.capture.streamId.Some? && s.capture.headers.Some? && !s.cancelled
    && Sending(s, s.capture.streamId.value)
    && (s.capture.expectationFailed || IsConnect(s.capture.headers.value)
        || (PhaseOf(s.conn, s.capture.streamId.value) == Some(HalfClosedRemote)
            && (s.expected.Some? ==> s.expected.value == BodyBytes(s.capture.frames, s.capture.streamId.value))))
  }

  lemma ReadyIsRequested(s: Core)
    requires Good(s) && Unsent(s.conn) && s.requestReady && !s.cancelled
    ensures Requested(s)
  {
    hide BodyBytes, Contiguous, BlockAfter, Settled, StreamsOk, OpenCount, SumEntries, Goaways, DataKnown, LengthsValid,
         Balanced, IsConnect, Declared;
  }

  /** A request to answer: it is neither cancelled nor failed, and its stream has ended, or it is answered early
      (an expectation that cannot be met, CONNECT). */
  ghost predicate Answerable(s: Core) {
    && !s.closed && !s.cancelled && s.capture.streamId.Some? && s.capture.headers.Some?
    && var id, fields := s.capture.streamId.value, s.capture.headers.value;
       (PhaseOf(s.conn, id).Some? && RemoteEnded(PhaseOf(s.conn, id).value)) || Unmet(fields) || IsConnect(fields)
  }

  lemma ReadyIffAnswerable(s: Core)
    requires Inv(s) && !s.cancelled
    ensures s.requestReady <==> Answerable(s)
  {
    hide BodyBytes, Contiguous, BlockAfter, Settled, StreamsOk, OpenCount, SumEntries, Goaways, DataKnown, LengthsValid, IsConnect,
         Unmet, Declared;
  }

  /** The session before each read of `ReadRequest`. */
  function Waits(env: Env, s: Session, peer: Peer, taken: nat): seq<Core>
    decreases Budget(s)
  {
    if s.core.requestReady then []
    else
      var r := Receive(env, s, peer(taken));
      [s.core] + if r.raised != Quiet then [] else Waits(env, r.session, peer, taken + 1)
  }

  /** What waiting for the request may leave behind. No read is made once there is a request to answer, and it
      ends well exactly if there is one. */
  ghost predicate Awaited(s: Session, waits: seq<Core>, peer: Peer, taken: nat, r: Sent) {
    && taken <= r.taken <= taken + Budget(s) + 1
    && |waits| == r.taken - taken && (forall i :: 0 <= i < |waits| ==> !Answerable(waits[i]))
    && (r.raised.Quiet? <==> Answerable(r.session.core))
    && (!r.raised.Protocol? ==> Took(s, Heard(peer, taken, r.taken), r.session))
    && match r.raised
       case Quiet => Requested(r.session.core) && NothingSent(s.core, r.session.core)
       case Protocol(code) => Ended(r.session.core, code)
       case Reset => Good(r.session.core) && GivenUp(r.session.core, peer, taken, r.taken)
       case Runtime => false
  }

  lemma NotAnswerable(s: Core, code: int)
    requires Ended(s, code) || s.cancelled
    ensures !Answerable(s)
  {
  }

  /** Waiting for the request ends against every peer, after at most one read per octet of budget. */
  lemma {:induction false} RequestIsAwaited(env: Env, s: Session, peer: Peer, taken: nat)
    requires Good(s.core) && Unsent(s.core.conn)
    ensures Awaited(s, Waits(env, s, peer, taken), peer, taken, ReadRequest(env, s, peer, taken))
    decreases Budget(s)
  {
    hide Inv, Ledger, Unsent, Ended, Receive, Requested, HasFrame, TooLong, Took, Onward, Answerable;
    if s.core.cancelled { NotAnswerable(s.core, 0); } else { ReadyIffAnswerable(s.core); }
    if s.core.requestReady {
      InvOpen(s.core);
      TookNothing(s, s);
      if !s.core.cancelled { ReadyIsRequested(s.core); }
    } else {
      var r := Receive(env, s, peer(taken));
      ChunkKeeps(env, s, peer(taken));
      if !r.raised.Protocol? { ChunkKeepsLedger(env, s, peer(taken)); }
      if r.raised.Quiet? {
        RequestIsAwaited(env, r.session, peer, taken + 1);
        var end, later := ReadRequest(env, r.session, peer, taken + 1), Waits(env, r.session, peer, taken + 1);
        if end.raised.Quiet? { NothingSentTwice(s.core, r.session.core, end.session.core); }
        if !end.raised.Protocol? { TookTwice(s, peer(taken), r.session, Heard(peer, taken + 1, end.taken), end.session); }
        assert forall i :: 0 < i < |[s.core] + later| ==> ([s.core] + later)[i] == later[i - 1];
      } else {
        HeardOnce(peer, taken);
        NothingToAnswer(env, s, peer(taken));
      }
    }
  }

  /** A read that raises leaves nothing to answer. */
  lemma NothingToAnswer(env: Env, s: Session, data: Bytes)
    requires Inv(s.core) && !Answerable(s.core) && !Receive(env, s, data).raised.Quiet?
    ensures !Answerable(Receive(env, s, data).session.core)
  {
    ChunkKeeps(env, s, data);
    var r := Receive(env, s, data);
    if data == [] {
      assert r.session == s;
    } else {
      hide Inv, Ended, Receive, HasFrame, TooLong, Took, Answerable;
      NotAnswerable(r.session.core, if r.raised.Protocol? then r.raised.code else 0);
    }
  }

  lemma HeardOnce(peer: Peer, taken: nat)
    ensures Heard(peer, taken, taken + 1) == peer(taken)
  {
    assert Heard(peer, taken + 1, taken + 1) == [] && peer(taken) + [] == peer(taken);
  }
}
