/** What a session counts, read off the captured frames: the idle streams it remembers, the octets of the request's
    body, the flow-control credit it gives back for them, and the streams it refuses. */
module Tallies {
  import opened Wire
  import opened Frames
  import opened H2
  import opened H2Proofs
  import opened SessionSpec
  import opened SessionInvariant
  import opened SessionSteps
  import Adapter

  /** The streams that PRIORITY_UPDATE frames name, above the last one opened. */
  function Named(frames: seq<ParsedFrame>, highest: nat): set<nat> {
    set i | 0 <= i < |frames| && frames[i].payload.PriorityUpdate? && frames[i].payload.prioritized > highest :: frames[i].payload.prioritized
  }

  /** The lengths of the DATA frames on a stream, padding included. */
  function Carried(frames: seq<ParsedFrame>, id: nat): seq<nat> {
    if frames == [] then []
    else
      var earlier, f := Carried(frames[..|frames| - 1], id), frames[|frames| - 1];
      if f.payload.Data? && f.header.streamId == id then earlier + [f.header.length] else earlier
  }

  /** What was acknowledged on a stream. */
  function Credited(credits: seq<(nat, nat)>, id: nat): seq<nat> {
    if credits == [] then []
    else
      var earlier, c := Credited(credits[..|credits| - 1], id), credits[|credits| - 1];
      if c.1 == id then earlier + [c.0] else earlier
  }

  /** Credit is only given on streams that were opened. */
  ghost predicate CreditKnown(c: Connection) { forall i :: 0 <= i < |c.credits| ==> c.credits[i].1 in c.streams }

  /** Until its stream is reset, every octet of the request's body is counted and every DATA frame of it acknowledged. */
  ghost predicate BodyCounted(s: Core, frames: seq<ParsedFrame>) {
    s.capture.streamId.Some? && PhaseOf(s.conn, s.capture.streamId.value) != Some(ClosedByReset) ==>
      var id := s.capture.streamId.value;
      s.requestBytes == BodyBytes(frames, id) && Credited(s.conn.credits, id) == Carried(frames, id)
  }

  /** The streams reset with REFUSED_STREAM, in order. */
  function Refusals(out: seq<OutFrame>): seq<nat> {
    if out == [] then []
    else
      var earlier, f := Refusals(out[..|out| - 1]), out[|out| - 1];
      if f.ResetSent? && f.code == 7 then earlier + [f.stream] else earlier
  }

  /** The streams opened besides the request's. */
  function Others(c: Connection, request: Option<nat>): set<nat> { set id | id in c.streams && Some(id) != request }

  /** Every other stream has been refused, and once. */
  ghost predicate RefusedRest(s: Core) {
    multiset(Refusals(s.written + s.conn.outbound)) == multiset(Others(s.conn, s.capture.streamId))
  }

  ghost predicate Counted(s: Core, frames: seq<ParsedFrame>) {
    s.idle == Named(frames, s.conn.highest) && CreditKnown(s.conn) && BodyCounted(s, frames) && RefusedRest(s)
  }

  // -------------------------------------------------------------------- helpers

  lemma CarriedNext(frames: seq<ParsedFrame>, f: ParsedFrame, id: nat)
    ensures Carried(frames + [f], id) ==
            Carried(frames, id) + if f.payload.Data? && f.header.streamId == id then [f.header.length] else []
  {
    assert (frames + [f])[..|frames|] == frames;
  }

  lemma CreditedNext(credits: seq<(nat, nat)>, flow: nat, on: nat, id: nat)
    ensures Credited(credits + [(flow, on)], id) == Credited(credits, id) + if on == id then [flow] else []
  {
    assert (credits + [(flow, on)])[..|credits|] == credits;
  }

  /** Named streams after one frame more, above a stream that is not lower than before. */
  lemma NamedNext(frames: seq<ParsedFrame>, f: ParsedFrame, low: nat, high: nat)
    requires low <= high
    ensures Named(frames + [f], high) ==
            (set i | i in Named(frames, low) && i > high) +
            if f.payload.PriorityUpdate? && f.payload.prioritized > high then {f.payload.prioritized} else {}
  {
    var all := frames + [f];
    assert all[|frames|] == f && forall i :: 0 <= i < |frames| ==> all[i] == frames[i];
  }

  lemma {:induction false} NothingCarried(s: Core, frames: seq<ParsedFrame>, id: nat)
    requires DataKnown(s, frames) && id !in s.conn.streams
    ensures Carried(frames, id) == []
  {
    if frames != [] {
      var n := |frames| - 1;
      assert forall i :: 0 <= i < n ==> frames[..n][i] == frames[i];
      NothingCarried(s, frames[..n], id);
    }
  }

  lemma {:induction false} NothingCredited(credits: seq<(nat, nat)>, id: nat)
    requires forall i :: 0 <= i < |credits| ==> credits[i].1 != id
    ensures Credited(credits, id) == []
  {
    if credits != [] { NothingCredited(credits[..|credits| - 1], id); }
  }

  lemma {:induction false} RefusalsAppend(a: seq<OutFrame>, b: seq<OutFrame>)
    ensures Refusals(a + b) == Refusals(a) + Refusals(b)
  {
    if b == [] {
      assert a + b == a;
    } else {
      RefusalsAppend(a, b[..|b| - 1]);
      assert (a + b)[..|a + b| - 1] == a + b[..|b| - 1];
    }
  }

  predicate Mild(out: seq<OutFrame>) { forall i :: 0 <= i < |out| ==> !(out[i].ResetSent? && out[i].code == 7) }

  lemma {:induction false} MildRefusals(out: seq<OutFrame>)
    requires Mild(out)
    ensures Refusals(out) == []
  {
    if out != [] { MildRefusals(out[..|out| - 1]); }
  }

  /** Frames that refuse nothing may be queued. */
  lemma QueuedRefusals(written: seq<OutFrame>, before: seq<OutFrame>, more: seq<OutFrame>)
    requires Mild(more)
    ensures Refusals(written + (before + more)) == Refusals(written + before)
  {
    assert written + (before + more) == written + before + more;
    RefusalsAppend(written + before, more);
    MildRefusals(more);
  }

  // ------------------------------------------------------------- h2's answer, handled

  /** What handling an answer does to the counters. */
  ghost predicate Effect(s: Core, d: Connection, x: Shape, t: Core) {
    && t.conn.highest == d.highest && t.conn.streams.Keys == d.streams.Keys
    && Refusals(t.written + t.conn.outbound) ==
         Refusals(s.written + d.outbound) + (if x.Opens? && s.capture.streamId.Some? then [x.id] else [])
    && t.idle == (if x.Opens? then set i | i in s.idle && i > x.id else s.idle)
    && t.conn.credits == d.credits + (if x.Carries? then [(x.flow, x.id)] else [])
    && t.requestBytes == s.requestBytes + (if x.Carries? && s.capture.streamId == Some(x.id) then |x.data| else 0)
    && t.capture.streamId == (if x.Opens? && s.capture.streamId.None? then Some(x.id) else s.capture.streamId)
    && (t.capture.streamId.Some? && s.capture.streamId != None ==>
          PhaseOf(t.conn, t.capture.streamId.value) == PhaseOf(d, t.capture.streamId.value))
  }

  lemma EndEffect(env: Env, s: Core, id: nat, ended: bool)
    ensures var r := ProcessEvents(env, s, EndEvents(id, ended));
            r.raised.Quiet? ==> r.core == s.(requestReady := r.core.requestReady)
  {
    hide OnRequest, OnTrailers, OnData, Close;
    if ended { assert EndEvents(id, ended)[1..] == []; }
  }

  lemma AcceptEffect(env: Env, s: Core, id: nat, fields: Fields, ended: bool)
    ensures var r := AcceptRequest(env, s, id, fields, ended);
            r.raised.Quiet? ==>
              && r.core.conn.highest == s.conn.highest && r.core.conn.streams == s.conn.streams && r.core.idle == s.idle
              && r.core.conn.credits == s.conn.credits && r.core.requestBytes == s.requestBytes
              && r.core.capture.streamId == Some(id)
              && Refusals(r.core.written + r.core.conn.outbound) == Refusals(s.written + s.conn.outbound)
  {
    hide Declared, Expectations, OnlyContinue, Lookup, Text, Close, Refusals, SendHeaders;
    if SendHeaders(env, s.conn, id, 100, false).Some? { InterimEffect(env, s, id); }
  }

  lemma InterimEffect(env: Env, s: Core, id: nat)
    requires SendHeaders(env, s.conn, id, 100, false).Some?
    ensures var c := SendHeaders(env, s.conn, id, 100, false).value;
            && c.highest == s.conn.highest && c.streams == s.conn.streams && c.credits == s.conn.credits
            && Refusals(s.written + c.outbound) == Refusals(s.written + s.conn.outbound)
  {
    hide Refusals;
    QueuedRefusals(s.written, s.conn.outbound, [Head(env, s.conn, id, 100, false)]);
  }

  lemma OpensEffect(env: Env, s: Core, d: Connection, x: Shape)
    requires x.Opens? && x.id in d.streams && s.capture.streamId != Some(x.id)
    ensures var r := OnRequest(env, s.(conn := d), x.id, x.fields, x.ended); r.raised.Quiet? ==> Effect(s, d, x, r.core)
  {
    hide AcceptRequest, ValidFields, OverPriorityLimit, Close, Refusals;
    RefusedOnce(s.written, d.outbound, x.id);
    AcceptEffect(env, ForgetIdle(s.(conn := d), x.id), x.id, x.fields, x.ended);
    assert d.credits + [] == d.credits;
  }

  lemma RefusedOnce(written: seq<OutFrame>, before: seq<OutFrame>, id: nat)
    ensures Refusals(written + (before + [ResetSent(id, REFUSED_STREAM)])) == Refusals(written + before) + [id]
  {
    var all := written + (before + [ResetSent(id, REFUSED_STREAM)]);
    assert all[..|all| - 1] == written + before;
  }

  lemma OpeningEffect(env: Env, s: Core, d: Connection, x: Shape)
    requires x.Opens? && x.id in d.streams && s.capture.streamId != Some(x.id)
    ensures var r := ProcessEvents(env, s.(conn := d), [RequestReceived(x.id, x.fields, x.ended)] + EndEvents(x.id, x.ended));
            r.raised.Quiet? ==> Effect(s, d, x, r.core)
  {
    var u := s.(conn := d);
    EventsSplit(env, u, RequestReceived(x.id, x.fields, x.ended), EndEvents(x.id, x.ended));
    OpensEffect(env, s, d, x);
    hide OnRequest, ProcessEvents;
    EndEffect(env, OnRequest(env, u, x.id, x.fields, x.ended).core, x.id, x.ended);
  }

  lemma DataEffect(env: Env, s: Core, d: Connection, x: Shape)
    requires x.Carries?
    ensures var r := OnData(env, s.(conn := d), x.id, x.data, x.flow); r.raised.Quiet? ==> Effect(s, d, x, r.core)
  {
    hide Close, Refusals;
    QueuedRefusals(s.written, d.outbound, Credits(env.replenish(d.credits, x.flow, x.id)));
  }

  lemma CarryingEffect(env: Env, s: Core, d: Connection, x: Shape)
    requires x.Carries?
    ensures var r := ProcessEvents(env, s.(conn := d), [DataReceived(x.id, x.data, x.flow)] + EndEvents(x.id, x.ended));
            r.raised.Quiet? ==> Effect(s, d, x, r.core)
  {
    var u := s.(conn := d);
    EventsSplit(env, u, DataReceived(x.id, x.data, x.flow), EndEvents(x.id, x.ended));
    hide ProcessEvents, OnData, Refusals;
    DataEffect(env, s, d, x);
    EndEffect(env, OnData(env, u, x.id, x.data, x.flow).core, x.id, x.ended);
  }

  lemma TrailersEffect(env: Env, s: Core, d: Connection, x: Shape)
    requires x.Trails?
    ensures var r := OnTrailers(env, s.(conn := d), x.id, x.fields); r.raised.Quiet? ==> Effect(s, d, x, r.core)
  {
    hide Close, ValidFields, Refusals;
    assert d.credits + [] == d.credits && Refusals(s.written + d.outbound) + [] == Refusals(s.written + d.outbound);
  }

  lemma TrailingEffect(env: Env, s: Core, d: Connection, x: Shape)
    requires x.Trails?
    ensures var r := ProcessEvents(env, s.(conn := d), [TrailersReceived(x.id, x.fields), StreamEnded(x.id)]);
            r.raised.Quiet? ==> Effect(s, d, x, r.core)
  {
    var u := s.(conn := d);
    EventsSplit(env, u, TrailersReceived(x.id, x.fields), EndEvents(x.id, true));
    assert [TrailersReceived(x.id, x.fields)] + EndEvents(x.id, true) == [TrailersReceived(x.id, x.fields), StreamEnded(x.id)];
    hide ProcessEvents, OnTrailers, Refusals;
    TrailersEffect(env, s, d, x);
    EndEffect(env, OnTrailers(env, u, x.id, x.fields).core, x.id, true);
  }

  lemma AnswerEffect(env: Env, s: Core, d: Connection, events: seq<Event>, x: Shape)
    requires Fits(x, s.conn, d, events) && (s.capture.streamId.Some? ==> s.capture.streamId.value in s.conn.streams)
    ensures var r := ProcessEvents(env, s.(conn := d), events); r.raised.Quiet? ==> Effect(s, d, x, r.core)
  {
    hide OnRequest, OnTrailers, OnData, OnEnd, SamePhases, OnlyMoved, Refusals;
    assert d.credits + [] == d.credits;
    match x
    case Calm =>
    case Opens(_, _, _) => OpeningEffect(env, s, d, x);
    case Trails(_, _) => TrailingEffect(env, s, d, x);
    case Carries(_, _, _, _) => CarryingEffect(env, s, d, x);
    case Resets(id) => assert [StreamReset(id)][1..] == [];
  }

  /** The counters follow the frame. */
  lemma AnswerCounted(s: Core, d: Connection, events: seq<Event>, past: seq<ParsedFrame>, f: ParsedFrame, x: Shape, t: Core)
    requires Counted(s, past) && BodyInv(s, past, None) && !f.payload.PriorityUpdate?
    requires Fits(x, s.conn, d, events) && Explains(x, s.conn, f) && Effect(s, d, x, t)
    requires d.credits == s.conn.credits && (x.Carries? ==> x.flow == f.header.length)
    requires Refusals(s.written + d.outbound) == Refusals(s.written + s.conn.outbound)
    ensures Counted(t, past + [f])
  {
    hide BodyInv, BodyCounted, CreditKnown, Fits, Explains, RefusedRest, Refusals;
    RequestKnown(s, past);
    AnswerRefusals(s, d, events, x, t);
    AnswerIdle(s, d, events, past, f, x, t);
    AnswerCredit(s, d, events, x, t);
    AnswerBody(s, d, events, past, f, x, t);
  }

  lemma AnswerIdle(s: Core, d: Connection, events: seq<Event>, past: seq<ParsedFrame>, f: ParsedFrame, x: Shape, t: Core)
    requires s.idle == Named(past, s.conn.highest) && !f.payload.PriorityUpdate?
    requires Fits(x, s.conn, d, events) && Effect(s, d, x, t)
    ensures t.idle == Named(past + [f], t.conn.highest)
  {
    NamedNext(past, f, s.conn.highest, d.highest);
  }

  lemma AnswerRefusals(s: Core, d: Connection, events: seq<Event>, x: Shape, t: Core)
    requires RefusedRest(s) && Fits(x, s.conn, d, events) && Effect(s, d, x, t)
    requires Refusals(s.written + d.outbound) == Refusals(s.written + s.conn.outbound)
    requires s.capture.streamId.Some? ==> s.capture.streamId.value in s.conn.streams
    ensures RefusedRest(t)
  {
    AnswerKeys(s.conn, d, events, x);
    hide Refusals, Fits;
    AnswerOthers(s, d, x, t);
  }

  /** An answer opens one stream or none. */
  lemma AnswerKeys(c: Connection, d: Connection, events: seq<Event>, x: Shape)
    requires Fits(x, c, d, events)
    ensures d.streams.Keys == c.streams.Keys + if x.Opens? then {x.id} else {}
    ensures x.Opens? ==> x.id !in c.streams
  {
    hide OpenCount;
    assert forall j :: j in c.streams <==> PhaseOf(c, j).Some?;
    assert forall j :: j in d.streams <==> PhaseOf(d, j).Some?;
  }

  lemma AnswerOthers(s: Core, d: Connection, x: Shape, t: Core)
    requires Effect(s, d, x, t) && d.streams.Keys == s.conn.streams.Keys + if x.Opens? then {x.id} else {}
    requires x.Opens? ==> x.id !in s.conn.streams
    requires s.capture.streamId.Some? ==> s.capture.streamId.value in s.conn.streams
    ensures var before, after := Others(s.conn, s.capture.streamId), Others(t.conn, t.capture.streamId);
            multiset(after) == multiset(before) + if x.Opens? && s.capture.streamId.Some? then multiset{x.id} else multiset{}
  {
    hide Refusals;
    var before, after := Others(s.conn, s.capture.streamId), Others(t.conn, t.capture.streamId);
    assert forall j :: j in t.conn.streams <==> j in d.streams.Keys;
    assert forall j :: j in s.conn.streams <==> j in s.conn.streams.Keys;
    if x.Opens? && s.capture.streamId.Some? {
      assert x.id !in before && after == before + {x.id};
    } else {
      assert after == before;
    }
  }

  lemma AnswerCredit(s: Core, d: Connection, events: seq<Event>, x: Shape, t: Core)
    requires CreditKnown(s.conn) && Fits(x, s.conn, d, events) && Effect(s, d, x, t) && d.credits == s.conn.credits
    ensures CreditKnown(t.conn)
  {
    assert forall j :: j in s.conn.streams ==> PhaseOf(s.conn, j).Some?;
    assert forall j :: PhaseOf(d, j).Some? ==> j in d.streams.Keys;
  }

  lemma AnswerBody(s: Core, d: Connection, events: seq<Event>, past: seq<ParsedFrame>, f: ParsedFrame, x: Shape, t: Core)
    requires BodyCounted(s, past) && CreditKnown(s.conn) && BodyInv(s, past, None)
    requires Fits(x, s.conn, d, events) && Explains(x, s.conn, f) && Effect(s, d, x, t)
    requires d.credits == s.conn.credits && (x.Carries? ==> x.flow == f.header.length)
    ensures BodyCounted(t, past + [f])
  {
    hide RequestInv, Declared, LengthsValid, Unmet, BodyBytes, Carried, Credited;
    assert d.credits + [] == d.credits;
    if t.capture.streamId.Some? {
      var id := t.capture.streamId.value;
      BodyBytesNext(past, f, id);
      CarriedNext(past, f, id);
      if s.capture.streamId.None? {
        NoBodyYet(s, past, id);
        NothingCarried(s, past, id);
        NothingCredited(s.conn.credits, id);
      } else if x.Carries? {
        CreditedNext(s.conn.credits, x.flow, x.id, id);
      }
    }
  }

  // ---------------------------------------------------------------- one whole frame

  predicate DataSays(events: seq<Event>, flow: nat) { events != [] && events[0].DataReceived? ==> events[0].flow == flow }

  /** h2 reports the whole length of a DATA frame. */
  lemma FrameCredit(env: Env, c: Connection, frames: seq<ParsedFrame>, f: ParsedFrame)
    ensures var r := ReceiveFrame(env, c, frames, f); r.Received? ==> DataSays(r.events, f.header.length)
  {
    hide HeaderBlock, ReceiveData, Live, DataSays;
    NoDataSays(f.header.length, f.header.streamId);
    match f.payload
    case Headers(block, _, endStream, _, _) => BlockCredit(env, c, f.header.streamId, endStream, block, f.header.length);
    case Continuation(block, _) =>
      if c.pending.Some? {
        var p := c.pending.value;
        BlockCredit(env, c.(pending := None), p.stream, p.endStream, p.block + block, f.header.length);
      }
    case Data(data, endStream, _) => DataCredit(c, f.header.streamId, data, f.header.length, endStream);
    case _ =>
  }

  lemma NoDataSays(flow: nat, id: nat)
    ensures DataSays([], flow) && DataSays([StreamReset(id)], flow)
  {
  }

  lemma BlockCredit(env: Env, c: Connection, id: nat, endStream: bool, block: Bytes, flow: nat)
    ensures var r := HeaderBlock(env, c, id, endStream, block); r.Received? ==> DataSays(r.events, flow)
  {
    hide FieldBytes, OpenCount, Live;
  }

  lemma DataCredit(c: Connection, id: nat, data: Bytes, flow: nat, endStream: bool)
    ensures var r := ReceiveData(c, id, data, flow, endStream); r.Received? ==> DataSays(r.events, flow)
  {
    hide Live;
  }

  /** h2 leaves the credit to the session; it resets streams on its own, but refuses none. */
  lemma FrameIsMild(env: Env, c: Connection, frames: seq<ParsedFrame>, f: ParsedFrame)
    ensures var r := ReceiveFrame(env, c, frames, f); r.Received? ==> MildlyOn(c, r.c)
  {
    hide HeaderBlock, ReceiveData, ReceiveCredit, Live;
    match f.payload
    case Headers(block, _, endStream, _, _) => BlockIsMild(env, c, f.header.streamId, endStream, block);
    case Continuation(block, _) =>
      if c.pending.Some? {
        BlockIsMild(env, c.(pending := None), c.pending.value.stream, c.pending.value.endStream, c.pending.value.block + block);
      }
    case Data(data, endStream, _) => DataIsMild(c, f.header.streamId, data, f.header.length, endStream);
    case WindowUpdate(increment) => CreditIsMild(c, f.header.streamId, increment);
    case _ =>
  }

  predicate MildlyOn(c: Connection, d: Connection) {
    d.credits == c.credits && c.outbound <= d.outbound && Mild(d.outbound[|c.outbound|..])
  }

  lemma BlockIsMild(env: Env, c: Connection, id: nat, endStream: bool, block: Bytes)
    ensures var r := HeaderBlock(env, c, id, endStream, block); r.Received? ==> MildlyOn(c, r.c)
  {
    hide FieldBytes, OpenCount, Live;
  }

  lemma DataIsMild(c: Connection, id: nat, data: Bytes, flow: nat, endStream: bool)
    ensures var r := ReceiveData(c, id, data, flow, endStream); r.Received? ==> MildlyOn(c, r.c)
  {
    hide Live;
  }

  lemma CreditIsMild(c: Connection, id: nat, increment: nat)
    ensures var r := ReceiveCredit(c, id, increment); r.Received? ==> MildlyOn(c, r.c)
  {
    hide Live;
  }

  lemma FlushCounted(s: Core, frames: seq<ParsedFrame>)
    requires Counted(s, frames)
    ensures Counted(Flush(s), frames)
  {
    hide Named, Carried, Credited, BodyBytes, Refusals;
    assert s.written + s.conn.outbound + [] == s.written + s.conn.outbound;
  }

  /** What `Forward` does with a quiet answer. */
  lemma ForwardQuiet(env: Env, s: Core, f: ParsedFrame, r: Received)
    requires Sane(f) && Forward(env, s, f).raised.Quiet?
    requires r == if f.header.kind == SETTINGS && f.payload.Settings? && !f.payload.ack
                  then Adapter.ApplySettings(s.conn, f.payload.entries)
                  else ReceiveFrame(env, s.conn, s.capture.frames, Forwarded(f))
    ensures r.Received? && ProcessEvents(env, s.(conn := r.c), r.events).raised.Quiet?
    ensures Forward(env, s, f).core == Flush(ProcessEvents(env, s.(conn := r.c), r.events).core)
  {
    hide ReceiveFrame, ProcessEvents, Adapter.ApplySettings, Sane, Forwarded, Flush;
  }

  lemma AppliedEvents(c: Connection, entries: seq<Entry>)
    ensures Adapter.ApplySettings(c, entries).Received? ==> Adapter.ApplySettings(c, entries).events == []
  {
    hide Adapter.Working, Adapter.TableSizes, Adapter.DistinctIds, Adapter.Replay;
    var w := Adapter.Working(Setting(c, HEADER_TABLE_SIZE), entries);
    var d := c.(tableChanges := c.tableChanges + |Adapter.TableSizes(w)|);
    Adapter.DistinctOrNot(w);
    if w != [] { ReplayEvents(d, w, 0); }
  }

  lemma {:induction false} ReplayEvents(c: Connection, w: seq<Entry>, i: nat)
    requires i < |w|
    ensures Adapter.Replay(c, w, i).Received? ==> Adapter.Replay(c, w, i).events == []
    decreases |w| - i
  {
    var r := ReceiveSettings(c, [w[i]]);
    if r.Received? && i < |w| - 1 && r.c.outbound == [SettingsAck] { ReplayEvents(r.c.(outbound := []), w, i + 1); }
  }

  lemma SettingsCounted(env: Env, s: Core, past: seq<ParsedFrame>, f: ParsedFrame)
    requires Counted(s, past) && Set(s, past, f) && f.payload.Settings? && Adapter.ApplySettings(s.conn, f.payload.entries).Received?
    ensures Counted(s.(conn := Adapter.ApplySettings(s.conn, f.payload.entries).c), past + [f])
  {
    hide Counted, Adapter.ApplySettings, Adapter.SomeFaulty, Adapter.TooManyChanges, BodyInv, IdleInv, Goaways;
    Adapter.SettingsTakeEffectInWireOrder(s.conn, f.payload.entries);
    var d := Adapter.InWireOrder(s.conn, f.payload.entries);
    SettingsKeepPhases(s.conn, f.payload.entries);
    SettingsEffect(s, f.payload.entries);
    AnswerCounted(s, d, [], past, f, Calm, s.(conn := d));
  }

  lemma SettingsEffect(s: Core, entries: seq<Entry>)
    requires s.conn.outbound == []
    ensures var d := Adapter.InWireOrder(s.conn, entries); d.credits == s.conn.credits && Effect(s, d, Calm, s.(conn := d))
    ensures Refusals(s.written + Adapter.InWireOrder(s.conn, entries).outbound) == Refusals(s.written + s.conn.outbound)
  {
    hide Adapter.SupportedOnly, Adapter.WindowAfter, Adapter.TableSizes, Effective, Refusals;
    QueuedRefusals(s.written, [], [SettingsAck]);
    assert [] + [SettingsAck] == [SettingsAck];
    var d := Adapter.InWireOrder(s.conn, entries);
    assert d.credits + [] == d.credits;
  }

  lemma ForwardCounted(env: Env, s: Core, past: seq<ParsedFrame>, f: ParsedFrame)
    requires Counted(s, past) && Set(s, past, f) && !f.payload.PriorityUpdate? && Forward(env, s, f).raised.Quiet?
    ensures Counted(Forward(env, s, f).core, past + [f])
  {
    hide Counted, Forward, ReceiveFrame, ProcessEvents, Adapter.ApplySettings, Fits, Sane, Forwarded, ConnInv, IdleInv, Goaways, Flush,
         Effect, Explains, Refusals, Mild;
    RequestKnown(s, past);
    if f.header.kind == SETTINGS && f.payload.Settings? && !f.payload.ack {
      var r := Adapter.ApplySettings(s.conn, f.payload.entries);
      ForwardQuiet(env, s, f, r);
      AppliedEvents(s.conn, f.payload.entries);
      SettingsCounted(env, s, past, f);
      assert ProcessEvents(env, s.(conn := r.c), []) == Step(s.(conn := r.c), Quiet) by { NoEvents(env, s.(conn := r.c)); }
      FlushCounted(s.(conn := r.c), past + [f]);
    } else {
      var g := Forwarded(f);
      var r := ReceiveFrame(env, s.conn, s.capture.frames, g);
      ForwardQuiet(env, s, f, r);
      var x := ShapeOf(env, s.conn, s.capture.frames, g);
      ForwardedSame(s.conn, r.c, x, f);
      FrameCredit(env, s.conn, s.capture.frames, g);
      CarriesFlow(s.conn, r.c, r.events, f, x);
      AnswerEffect(env, s, r.c, r.events, x);
      FrameIsMild(env, s.conn, s.capture.frames, g);
      QueuedRefusals(s.written, s.conn.outbound, r.c.outbound[|s.conn.outbound|..]);
      assert s.conn.outbound + r.c.outbound[|s.conn.outbound|..] == r.c.outbound;
      var t := ProcessEvents(env, s.(conn := r.c), r.events).core;
      AnswerCounted(s, r.c, r.events, past, f, x, t);
      FlushCounted(t, past + [f]);
    }
  }

  lemma CarriesFlow(c: Connection, d: Connection, events: seq<Event>, f: ParsedFrame, x: Shape)
    requires Sane(f) && Fits(x, c, d, events) && Explains(x, c, f)
    requires events != [] && events[0].DataReceived? ==> events[0].flow == Forwarded(f).header.length
    ensures x.Carries? ==> x.flow == f.header.length
  {
    if x.Carries? { assert ([DataReceived(x.id, x.data, x.flow)] + EndEvents(x.id, x.ended))[0] == DataReceived(x.id, x.data, x.flow); }
  }

  lemma NoEvents(env: Env, s: Core)
    ensures ProcessEvents(env, s, []) == Step(s, Quiet)
  {
  }

  lemma ShapeOf(env: Env, c: Connection, frames: seq<ParsedFrame>, f: ParsedFrame) returns (x: Shape)
    requires ReceiveFrame(env, c, frames, f).Received?
    ensures Fits(x, c, ReceiveFrame(env, c, frames, f).c, ReceiveFrame(env, c, frames, f).events) && Explains(x, c, f)
  {
    hide ReceiveFrame, Fits, Explains, PendingFollows, Goaways;
    FrameIsAnswered(env, c, frames, f);
    var r := ReceiveFrame(env, c, frames, f);
    x :| Fits(x, c, r.c, r.events) && Explains(x, c, f);
  }

  lemma RequestKnown(s: Core, past: seq<ParsedFrame>)
    requires BodyInv(s, past, None)
    ensures s.capture.streamId.Some? ==> s.capture.streamId.value in s.conn.streams
  {
  }

  /** A frame that is not handed to h2. */
  lemma AsideCounted(s: Core, t: Core, past: seq<ParsedFrame>, f: ParsedFrame)
    requires Counted(s, past) && !f.payload.Data?
    requires t.conn == s.conn && t.capture == s.capture && t.requestBytes == s.requestBytes && t.written == s.written
    requires t.idle == s.idle + if f.payload.PriorityUpdate? && f.payload.prioritized > s.conn.highest then {f.payload.prioritized} else {}
    ensures Counted(t, past + [f])
  {
    hide Refusals;
    NamedNext(past, f, s.conn.highest, s.conn.highest);
    if s.capture.streamId.Some? {
      BodyBytesNext(past, f, s.capture.streamId.value);
      CarriedNext(past, f, s.capture.streamId.value);
    }
  }

  lemma DispatchCounted(env: Env, s: Core, past: seq<ParsedFrame>, f: ParsedFrame)
    requires Counted(s, past) && Set(s, past, f) && Typed(f) && Dispatch(env, s, f).raised.Quiet?
    ensures Counted(Dispatch(env, s, f).core, past + [f])
  {
    hide Counted, Forward, OverPriorityLimit, Close, Ready, Goaways;
    var t := Dispatch(env, s, f).core;
    if f.header.kind in {ALTSVC, ORIGIN, PRIORITY} || f.payload.PriorityUpdate? || f.payload.Goaway? {
      AsideCounted(s, t, past, f);
    } else {
      ForwardCounted(env, s, past, f);
    }
  }

  lemma ChecksCount(s: Core, t: Core, frames: seq<ParsedFrame>)
    requires Counted(s, frames) && t.conn == s.conn && t.idle == s.idle && t.requestBytes == s.requestBytes
    requires t.capture.streamId == s.capture.streamId && t.written == s.written
    ensures Counted(t, frames)
  {
    hide Named, Carried, Credited, BodyBytes, Refusals;
  }

  lemma ProcessCounted(env: Env, s: Core, past: seq<ParsedFrame>, f: ParsedFrame)
    requires Counted(s, past) && Poised(s, past, f) && ProcessFrame(env, s, f).raised.Quiet?
    ensures Counted(ProcessFrame(env, s, f).core, past + [f])
  {
    hide Counted, Dispatch, Poised, Set, Typed, Sane, Close;
    var a := OnFirstFrame(s, f);
    FirstFrameChecked(s, past, f);
    ChecksCount(s, a.core, past);
    PoisedIsSet(a.core, past, f);
    BlockChecked(a.core, past, f);
    var b := OnHeaderBlock(a.core, f);
    BlockLeaves(a.core, b.core, past, f);
    ChecksCount(a.core, b.core, past);
    DispatchCounted(env, b.core, past, f);
  }

  lemma PoisedIsSet(s: Core, past: seq<ParsedFrame>, f: ParsedFrame)
    requires Poised(s, past, f)
    ensures Set(s, past, f) && Typed(f) && Silent(s) && BlockInv(s, past)
  {
  }

  /** One frame off the wire keeps the counters in step with the frames. */
  lemma FrameCounted(env: Env, s: Core, wire: Bytes)
    requires Inv(s) && Counted(s, s.capture.frames) && TakeFrame(env, s, wire).raised.Quiet?
    ensures var t := TakeFrame(env, s, wire).core; Counted(t, t.capture.frames)
  {
    hide FrameSpec, ProcessFrame, Counted, Typed, Sane, Inv, Poised, Complete;
    var room := MAX_CAPTURE_ENTRIES - s.entries;
    EntriesFit(s);
    ParsedIsTyped(wire, room);
    var r := FrameSpec(wire, SERVER_MAX_FRAME_SIZE, false, true, Some(room));
    var f, past := r.frame, s.capture.frames;
    var u := s.(entries := s.entries + r.used, capture := s.capture.(frames := past + [f]));
    CapturePoised(s, u, f);
    ChecksCount(s, u, past);
    ProcessCounted(env, u, past, f);
    FrameProcessed(env, u, past, f);
  }

  lemma EntriesFit(s: Core)
    requires Inv(s)
    ensures s.entries <= MAX_CAPTURE_ENTRIES
  {
  }
}
