/** When a frame ends the session, and with which code: exactly the rules below, read off the frames before it,
    the streams of the connection and what h2 makes of the frame. */
module Failures {
  import opened Wire
  import opened Frames
  import opened H2
  import opened H2Proofs
  import opened SessionSpec
  import opened SessionInvariant
  import opened SessionSteps
  import opened SessionRuns
  import opened SessionTheorems
  import opened SessionLife
  import opened Tallies
  import Adapter
  import Decimal
  import Requests

  function Raise(code: Option<int>): Raised { if code.None? then Quiet else Protocol(code.value) }

  // -------------------------------------------------------------- Content-Length

  function Lengths(fields: Fields): seq<Bytes> { ValuesOf(fields, Text("content-length")) }

  /** The fields are acceptable, and their Content-Length fields, if any, are digit strings for one number. */
  ghost predicate Sound(env: Env, fields: Fields) {
    (Lengths(fields) == [] || exists n :: Decimal.AllDenote(Lengths(fields), n)) && env.accepts(fields, false)
  }

  /** Every declared length is this one. */
  predicate Declares(fields: Fields, n: nat) {
    forall i :: 0 <= i < |Lengths(fields)| ==> Decimal.AllDigits(Lengths(fields)[i]) && Decimal.Value(Lengths(fields)[i]) == n
  }

  predicate DeclaresMore(fields: Fields, n: nat) {
    exists i :: 0 <= i < |Lengths(fields)| && Decimal.AllDigits(Lengths(fields)[i]) && Decimal.Value(Lengths(fields)[i]) > n
  }

  lemma SoundIffValid(env: Env, fields: Fields)
    ensures Sound(env, fields) <==> ValidFields(env, fields, false)
  {
    hide ValuesOf, Text;
    if Lengths(fields) != [] { Decimal.LengthsAgreeIffOneNumber(Lengths(fields)); }
  }

  /** The bounded length stands for the declared one. */
  lemma DeclaredMeans(fields: Fields, n: nat)
    requires LengthsValid(fields)
    ensures Declared(fields).Some? && Declared(fields).value > 1048576 <==> DeclaresMore(fields, 1048576)
    ensures n <= 1048576 ==> (Declared(fields).Some? && Declared(fields).value != n <==> !Declares(fields, n))
  {
    hide ValuesOf, Text, Decimal.BoundedContentLength, Decimal.LengthsAgree, Decimal.Value;
    var lengths := Lengths(fields);
    if lengths != [] {
      Decimal.LengthsAgreeIffOneNumber(lengths);
      var m :| Decimal.AllDenote(lengths, m);
      var last := |lengths| - 1;
      Decimal.BoundedIsMinimum(lengths[last]);
      assert Decimal.Value(lengths[last]) == m;
    }
  }

  // ------------------------------------------------------------------- h2's answer

  /** The code for what h2 reports: `d` are its streams after the frame. */
  ghost function Judge(env: Env, s: Core, past: seq<ParsedFrame>, f: ParsedFrame, d: Connection, events: seq<Event>): Option<int> {
    if events == [] then None
    else
      match events[0]
      case RequestReceived(id, fields, ended) =>
        if s.capture.streamId.Some? then None
        else if |Named(past, id)| + |OpenStreams(d)| > 100 || !Sound(env, fields) then Some(1)
        else if DeclaresMore(fields, 1048576) then Some(11)
        else if ended && !Declares(fields, 0) then Some(1)
        else None
      case TrailersReceived(id, fields) =>
        if Lengths(fields) != [] || !env.accepts(fields, true) then Some(1)
        else if s.capture.streamId == Some(id) && s.capture.headers.Some? && !Declares(s.capture.headers.value, BodyBytes(past, id)) then Some(1)
        else None
      case DataReceived(id, _, _) =>
        if s.capture.streamId != Some(id) then None
        else if BodyBytes(past + [f], id) > 1048576 then Some(11)
        else if |events| > 1 && s.capture.headers.Some? && !Declares(s.capture.headers.value, BodyBytes(past + [f], id)) then Some(1)
        else None
      case _ => None
  }

  lemma EndRaises(env: Env, s: Core, id: nat, ended: bool)
    ensures ProcessEvents(env, s, EndEvents(id, ended)).raised ==
            if ended && s.capture.streamId == Some(id) && s.expected.Some? && s.expected.value != s.requestBytes
            then Protocol(1) else Quiet
  {
    hide OnRequest, OnTrailers, OnData, Close;
    if ended { assert EndEvents(id, ended)[1..] == []; }
  }

  /** What an accepted request raises, and what it leaves for its end. */
  lemma AcceptRaises(env: Env, s: Core, id: nat, fields: Fields, ended: bool)
    requires ended || (id in s.conn.streams && s.conn.streams[id].phase.Open?)
    requires s.expected.None?
    ensures var r := AcceptRequest(env, s, id, fields, ended);
            && r.raised == (if Declared(fields).Some? && Declared(fields).value > 1048576 then Protocol(11) else Quiet)
            && (r.raised.Quiet? ==> r.core.capture.streamId == Some(id) && r.core.expected == Declared(fields)
                                    && r.core.requestBytes == s.requestBytes)
  {
    hide Declared, Expectations, OnlyContinue, Lookup, Text, Close;
  }

  lemma OpensRaises(env: Env, s: Core, d: Connection, past: seq<ParsedFrame>, f: ParsedFrame, x: Shape)
    requires x.Opens? && Counted(s, past) && BodyInv(s, past, None)
    requires Fits(x, s.conn, d, [RequestReceived(x.id, x.fields, x.ended)] + EndEvents(x.id, x.ended))
    ensures var events := [RequestReceived(x.id, x.fields, x.ended)] + EndEvents(x.id, x.ended);
            ProcessEvents(env, s.(conn := d), events).raised == Raise(Judge(env, s, past, f, d, events))
  {
    var u := s.(conn := d);
    var t := ForgetIdle(u, x.id);
    var events := [RequestReceived(x.id, x.fields, x.ended)] + EndEvents(x.id, x.ended);
    assert events[0] == RequestReceived(x.id, x.fields, x.ended);
    EventsSplit(env, u, RequestReceived(x.id, x.fields, x.ended), EndEvents(x.id, x.ended));
    var a := OnRequest(env, u, x.id, x.fields, x.ended);
    EndRaises(env, a.core, x.id, x.ended);
    if s.capture.streamId.Some? {
      RequestKnown(s, past);
      hide ProcessEvents, AcceptRequest, ValidFields, Named, OpenStreams, BodyInv;
    } else {
      assert t.idle == Named(past, x.id) by { assert t.idle == set i | i in s.idle && i > x.id; }
      SoundIffValid(env, x.fields);
      AcceptRaises(env, t, x.id, x.fields, x.ended);
      hide ProcessEvents, AcceptRequest, ValidFields, Named, OpenStreams, Sound, Declares, DeclaresMore, Declared, Close;
      if ValidFields(env, x.fields, false) {
        ValidLengths(env, x.fields);
        DeclaredMeans(x.fields, 0);
      }
    }
  }

  /** The end of the request's stream is judged by the lengths it declared. */
  lemma LengthJudged(s: Core, past: seq<ParsedFrame>, n: nat)
    requires BodyInv(s, past, None) && s.capture.streamId.Some? && n <= 1048576
    ensures s.capture.headers.Some?
    ensures s.expected.Some? && s.expected.value != n <==> !Declares(s.capture.headers.value, n)
  {
    hide Declares, DeclaresMore, Declared, LengthsValid, Unmet, BodyBytes;
    DeclaredMeans(s.capture.headers.value, n);
  }

  lemma DataRaises(env: Env, s: Core, id: nat, data: Bytes, flow: nat)
    requires s.requestBytes <= 1048576
    ensures var r := OnData(env, s, id, data, flow);
            var bytes := s.requestBytes + if s.capture.streamId == Some(id) then |data| else 0;
            && r.raised == (if bytes > 1048576 then Protocol(11) else Quiet)
            && (r.raised.Quiet? ==> r.core.capture == s.capture && r.core.expected == s.expected && r.core.requestBytes == bytes)
  {
    hide Close, Acknowledge;
  }

  /** The request's octets so far, while its stream can still carry some. */
  lemma BodySoFar(s: Core, past: seq<ParsedFrame>, id: nat)
    requires Counted(s, past) && BodyInv(s, past, None)
    requires s.capture.streamId == Some(id) && id in s.conn.streams && !s.conn.streams[id].phase.ClosedByReset?
    ensures s.requestBytes == BodyBytes(past, id) && s.capture.headers.Some?
  {
    hide BodyBytes, Credited, Carried, Named, RequestInv, Declared, LengthsValid, Unmet;
  }

  /** What DATA and the end that may come with it raise, in octets of the captured frames. */
  lemma DataAndEndRaise(env: Env, s: Core, d: Connection, past: seq<ParsedFrame>, f: ParsedFrame, x: Shape, body: nat)
    requires x.Carries? && BodyInv(s, past, None)
    requires s.capture.streamId == Some(x.id) ==> s.capture.headers.Some? && body == s.requestBytes + |x.data|
    ensures ProcessEvents(env, s.(conn := d), [DataReceived(x.id, x.data, x.flow)] + EndEvents(x.id, x.ended)).raised ==
            if s.capture.streamId != Some(x.id) then Quiet
            else if body > 1048576 then Protocol(11)
            else if x.ended && !Declares(s.capture.headers.value, body) then Protocol(1)
            else Quiet
  {
    var u := s.(conn := d);
    EventsSplit(env, u, DataReceived(x.id, x.data, x.flow), EndEvents(x.id, x.ended));
    EndRaises(env, OnData(env, u, x.id, x.data, x.flow).core, x.id, x.ended);
    hide ProcessEvents, Declares, BodyInv, OnData;
    BodyIsBounded(s, past);
    DataRaises(env, u, x.id, x.data, x.flow);
    if s.capture.streamId == Some(x.id) && body <= 1048576 { LengthJudged(s, past, body); }
  }

  lemma CarriesRaises(env: Env, s: Core, d: Connection, past: seq<ParsedFrame>, f: ParsedFrame, x: Shape)
    requires x.Carries? && Counted(s, past) && BodyInv(s, past, None) && Explains(x, s.conn, f)
    requires Fits(x, s.conn, d, [DataReceived(x.id, x.data, x.flow)] + EndEvents(x.id, x.ended))
    ensures var events := [DataReceived(x.id, x.data, x.flow)] + EndEvents(x.id, x.ended);
            ProcessEvents(env, s.(conn := d), events).raised == Raise(Judge(env, s, past, f, d, events))
  {
    var events := [DataReceived(x.id, x.data, x.flow)] + EndEvents(x.id, x.ended);
    assert events[0] == DataReceived(x.id, x.data, x.flow) && (|events| > 1 <==> x.ended);
    hide ProcessEvents, Declares, DeclaresMore, Sound, Named, OpenStreams, BodyBytes, BodyInv, Counted, OnlyMoved;
    if s.capture.streamId == Some(x.id) {
      BodyBytesNext(past, f, x.id);
      BodySoFar(s, past, x.id);
    }
    hide Fits, Explains;
    DataAndEndRaise(env, s, d, past, f, x, BodyBytes(past + [f], x.id));
  }

  lemma TrailersRaise(env: Env, s: Core, id: nat, fields: Fields)
    ensures var r := OnTrailers(env, s, id, fields);
            && r.raised == (if Lengths(fields) != [] || !env.accepts(fields, true) then Protocol(1) else Quiet)
            && (r.raised.Quiet? ==> r.core.capture.streamId == s.capture.streamId && r.core.expected == s.expected
                                    && r.core.requestBytes == s.requestBytes)
  {
    hide Close, ValuesOf, Text;
  }

  lemma TrailsRaises(env: Env, s: Core, d: Connection, past: seq<ParsedFrame>, f: ParsedFrame, x: Shape)
    requires x.Trails? && Counted(s, past) && BodyInv(s, past, None)
    requires Fits(x, s.conn, d, [TrailersReceived(x.id, x.fields), StreamEnded(x.id)])
    ensures var events := [TrailersReceived(x.id, x.fields), StreamEnded(x.id)];
            ProcessEvents(env, s.(conn := d), events).raised == Raise(Judge(env, s, past, f, d, events))
  {
    var u := s.(conn := d);
    EventsSplit(env, u, TrailersReceived(x.id, x.fields), EndEvents(x.id, true));
    assert [TrailersReceived(x.id, x.fields)] + EndEvents(x.id, true) == [TrailersReceived(x.id, x.fields), StreamEnded(x.id)];
    EndRaises(env, OnTrailers(env, u, x.id, x.fields).core, x.id, true);
    hide ProcessEvents, Declares, DeclaresMore, Sound, Named, OpenStreams, BodyBytes, BodyInv, Counted, OnTrailers, Lengths;
    TrailersRaise(env, u, x.id, x.fields);
    if s.capture.streamId == Some(x.id) {
      BodyIsBounded(s, past);
      BodySoFar(s, past, x.id);
      LengthJudged(s, past, s.requestBytes);
    }
  }

  /** Whatever h2 reports, the session raises the code it is judged with, or nothing. */
  lemma AnswerRaises(env: Env, s: Core, d: Connection, events: seq<Event>, past: seq<ParsedFrame>, f: ParsedFrame, x: Shape)
    requires Counted(s, past) && BodyInv(s, past, None) && Fits(x, s.conn, d, events) && Explains(x, s.conn, f)
    ensures ProcessEvents(env, s.(conn := d), events).raised == Raise(Judge(env, s, past, f, d, events))
  {
    hide Counted, BodyInv, OnRequest, OnTrailers, OnData, OnEnd, SamePhases, OnlyMoved, Sound, Declares, DeclaresMore, Named, OpenStreams, BodyBytes;
    match x
    case Calm =>
    case Opens(_, _, _) => OpensRaises(env, s, d, past, f, x);
    case Trails(_, _) => TrailsRaises(env, s, d, past, f, x);
    case Carries(_, _, _, _) => CarriesRaises(env, s, d, past, f, x);
    case Resets(id) => assert [StreamReset(id)][1..] == [];
  }

  // ----------------------------------------------------------------------- one frame

  /** What h2 makes of a frame: the client's SETTINGS through the adapter, the rest without priority envelope. */
  function Answer(env: Env, s: Core, f: ParsedFrame): Received
    requires Sane(f)
  {
    if f.header.kind == 4 && f.payload.Settings? && !f.payload.ack then Adapter.ApplySettings(s.conn, f.payload.entries)
    else ReceiveFrame(env, s.conn, s.capture.frames, Forwarded(f))
  }

  /** The octets of the header block a frame belongs to. */
  function BlockOctets(past: seq<ParsedFrame>, f: ParsedFrame): nat {
    match BlockAfter(past)
    case NoBlock => f.header.length
    case OpenBlock(_, octets) => octets + f.header.length
  }

  /** The first rule a frame breaks after the frames `past`. */
  ghost function Offence(env: Env, s: Core, past: seq<ParsedFrame>, f: ParsedFrame): Option<int>
    requires Sane(f)
  {
    var h, open := f.header, BlockAfter(past);
    if past == [] && (h.kind != 4 || h.flags % 2 == 1) then Some(1)
    else if open.OpenBlock? && (h.kind != 9 || h.streamId != open.stream) then Some(1)
    else if (h.kind == 1 || h.kind == 9) && BlockOctets(past, f) > 65536 then Some(11)
    else if h.kind == 10 || h.kind == 12 then None
    else if f.payload.Unknown? && f.payload.parseError.Some? then f.payload.parseError
    else if h.kind == 5 then Some(1)
    else if h.kind == 3 && (h.streamId % 2 == 0 || h.streamId > s.conn.highest) then Some(1)
    else if h.kind == 2 || h.kind == 7 then None
    else if h.kind == 16 then
      if f.payload.PriorityUpdate?
         && (f.payload.prioritized % 2 == 0 || |Named(past + [f], s.conn.highest)| + |OpenStreams(s.conn)| > 100)
      then Some(1) else None
    else
      match Answer(env, s, f)
      case Refused(_, code) => Some(code)
      case Received(d, events) => Judge(env, s, past, f, d, events)
      case Broken(_) => None
  }

  /** What `Forward` raises. */
  lemma ForwardRaises(env: Env, s: Core, past: seq<ParsedFrame>, f: ParsedFrame)
    requires Set(s, past, f) && Counted(s, past)
    ensures Forward(env, s, f).raised ==
            match Answer(env, s, f)
            case Refused(_, code) => Protocol(code)
            case Received(d, events) => Raise(Judge(env, s, past, f, d, events))
            case Broken(_) => Quiet
  {
    hide Counted, BodyInv, IdleInv, ReceiveFrame, ProcessEvents, Adapter.ApplySettings, Adapter.SomeFaulty, Adapter.TooManyChanges,
         Adapter.InWireOrder, Goaways, Forwarded, Judge, Fits, Explains, PendingFollows, Flush, Sane;
    if f.header.kind == SETTINGS && f.payload.Settings? && !f.payload.ack {
      Adapter.SettingsTakeEffectInWireOrder(s.conn, f.payload.entries);
      NothingJudged(env, s, past, f, Answer(env, s, f).c);
    } else {
      var g := Forwarded(f);
      var r := ReceiveFrame(env, s.conn, s.capture.frames, g);
      FrameIsAnswered(env, s.conn, s.capture.frames, g);
      if r.Received? {
        var x := ShapeOf(env, s.conn, s.capture.frames, g);
        ForwardedSame(s.conn, r.c, x, f);
        AnswerRaises(env, s, r.c, r.events, past, f, x);
      }
    }
  }

  lemma NothingJudged(env: Env, s: Core, past: seq<ParsedFrame>, f: ParsedFrame, d: Connection)
    ensures Judge(env, s, past, f, d, []) == None && ProcessEvents(env, s.(conn := d), []).raised == Quiet
  {
  }

  lemma UpdateRaises(s: Core, past: seq<ParsedFrame>, f: ParsedFrame)
    requires Counted(s, past) && IdleInv(s) && f.payload.PriorityUpdate?
    ensures OnPriorityUpdate(s, f.payload.prioritized).raised ==
            Raise(if f.payload.prioritized % 2 == 0 || |Named(past + [f], s.conn.highest)| + |OpenStreams(s.conn)| > 100 then Some(1) else None)
  {
    var id := f.payload.prioritized;
    NamedNext(past, f, s.conn.highest, s.conn.highest);
    assert (set i | i in Named(past, s.conn.highest) && i > s.conn.highest) == s.idle;
    hide Named, OpenStreams, Close, BodyCounted, CreditKnown;
    if id <= s.conn.highest { assert s.idle + {} == s.idle; }
  }

  /** A frame whose type the session knows has the payload of that type or an error. */
  lemma TypedKinds(f: ParsedFrame)
    requires Typed(f) && !(f.payload.Unknown? && f.payload.parseError.Some?)
    ensures f.header.kind == 7 <==> f.payload.Goaway?
    ensures f.header.kind == 16 <==> f.payload.PriorityUpdate?
    ensures f.header.kind == 3 ==> f.header.streamId != 0
  {
  }

  lemma DispatchRaises(env: Env, s: Core, past: seq<ParsedFrame>, f: ParsedFrame)
    requires Set(s, past, f) && Typed(f) && Counted(s, past)
    requires past != [] || (f.header.kind == 4 && f.header.flags % 2 == 0)
    requires BlockAfter(past).OpenBlock? ==> f.header.kind == 9 && f.header.streamId == BlockAfter(past).stream
    requires f.header.kind == 1 || f.header.kind == 9 ==> BlockOctets(past, f) <= 65536
    ensures Dispatch(env, s, f).raised == Raise(Offence(env, s, past, f))
  {
    ForwardRaises(env, s, past, f);
    if f.payload.PriorityUpdate? { UpdateRaises(s, past, f); }
    if !(f.payload.Unknown? && f.payload.parseError.Some?) { TypedKinds(f); }
    hide Set, Typed, Counted, Forward, OnPriorityUpdate, Close, BlockAfter, BlockOctets, Answer, Judge, Named, OpenStreams, Sane, Ready, Clean;
  }

  /** The session knows the open block and whether the frame is the first. */
  lemma CheckRaises(s: Core, past: seq<ParsedFrame>, f: ParsedFrame)
    requires BlockInv(s, past)
    ensures OnHeaderBlock(s, f).raised ==
            if BlockAfter(past).OpenBlock? && (f.header.kind != 9 || f.header.streamId != BlockAfter(past).stream) then Protocol(1)
            else if (f.header.kind == 1 || f.header.kind == 9) && BlockOctets(past, f) > 65536 then Protocol(11)
            else Quiet
  {
    hide Close, Contiguous, BlockAfter;
  }

  lemma FirstRaises(s: Core, f: ParsedFrame)
    ensures OnFirstFrame(s, f).raised == if s.firstFrame && (f.header.kind != 4 || f.header.flags % 2 == 1) then Protocol(1) else Quiet
  {
    hide Close;
  }

  /** Offences do not depend on what the checks before h2 have noted. */
  lemma OffenceSees(env: Env, s: Core, t: Core, past: seq<ParsedFrame>, f: ParsedFrame)
    requires Sane(f) && t.conn == s.conn && t.capture.frames == s.capture.frames
    requires t.capture.streamId == s.capture.streamId && t.capture.headers == s.capture.headers
    ensures Offence(env, t, past, f) == Offence(env, s, past, f)
  {
    hide Sound, Declares, DeclaresMore, Named, OpenStreams, BodyBytes, BlockAfter, BlockOctets, Adapter.ApplySettings, ReceiveFrame, Forwarded,
         Lengths, Sane;
  }

  lemma ProcessRaises(env: Env, s: Core, past: seq<ParsedFrame>, f: ParsedFrame)
    requires Poised(s, past, f) && Counted(s, past) && (s.firstFrame <==> past == [])
    ensures Sane(f) && ProcessFrame(env, s, f).raised == Raise(Offence(env, s, past, f))
  {
    FirstRaises(s, f);
    FirstFrameChecked(s, past, f);
    PoisedIsSet(s, past, f);
    var a := OnFirstFrame(s, f);
    hide Counted, Poised, Typed, Set, Dispatch, Close, Judge, Answer, Named, OpenStreams, BlockAfter, BlockOctets, OnFirstFrame, OnHeaderBlock;
    if a.raised.Quiet? {
      PoisedIsSet(a.core, past, f);
      FirstLeaves(s, f);
      CheckRaises(a.core, past, f);
      BlockChecked(a.core, past, f);
      var b := OnHeaderBlock(a.core, f);
      if b.raised.Quiet? {
        BlockLeaves(a.core, b.core, past, f);
        ChecksCount(s, b.core, past);
        DispatchRaises(env, b.core, past, f);
        hide Offence;
        OffenceSees(env, s, b.core, past, f);
      }
    }
  }

  lemma FirstLeaves(s: Core, f: ParsedFrame)
    ensures var a := OnFirstFrame(s, f);
            a.raised.Quiet? ==> a.core == s.(firstFrame := a.core.firstFrame, capture := s.capture.(initialSettings := a.core.capture.initialSettings))
  {
    hide Close;
  }

  /** A frame off the wire: too many entries or frames, or the first rule it breaks. */
  ghost function Verdict(env: Env, s: Core, wire: Bytes): Option<int> {
    match FrameSpec(wire, 65536, false, true, Some(1024 - s.entries))
    case Rejected(_, _) => Some(11)
    case Frame(f, used) =>
      if |s.capture.frames| >= 4096 || !Sane(f) then Some(11)
      else Offence(env, s.(capture := s.capture.(frames := s.capture.frames + [f])), s.capture.frames, f)
  }

  lemma FrameIsJudged(env: Env, s: Core, wire: Bytes)
    requires Inv(s) && Counted(s, s.capture.frames) && Complete(wire, SERVER_MAX_FRAME_SIZE)
    ensures TakeFrame(env, s, wire).raised == Raise(Verdict(env, s, wire))
  {
    hide Counted, Inv, ProcessFrame, Typed, Sane, Close, Offence, Complete, FrameSpec;
    EntriesFit(s);
    var room := MAX_CAPTURE_ENTRIES - s.entries;
    ParsedIsTyped(wire, room);
    var r := FrameSpec(wire, SERVER_MAX_FRAME_SIZE, false, true, Some(room));
    if r.Rejected? {
      RejectedIsCalm(wire, room);
    } else if |s.capture.frames| < MAX_CAPTURE_FRAMES {
      CapturedIsJudged(env, s, r.frame, r.used);
    }
  }

  lemma CapturedIsJudged(env: Env, s: Core, f: ParsedFrame, used: nat)
    requires Inv(s) && Counted(s, s.capture.frames) && Sane(f) && Typed(f)
    ensures ProcessFrame(env, s.(entries := s.entries + used, capture := s.capture.(frames := s.capture.frames + [f])), f).raised ==
            Raise(Offence(env, s.(capture := s.capture.(frames := s.capture.frames + [f])), s.capture.frames, f))
  {
    hide Counted, Inv, ProcessFrame, Typed, Sane, Poised, Offence;
    var past := s.capture.frames;
    var u := s.(entries := s.entries + used, capture := s.capture.(frames := past + [f]));
    CapturePoised(s, u, f);
    ChecksCount(s, u, past);
    FirstIffEmpty(s);
    ProcessRaises(env, u, past, f);
    OffenceSees(env, s.(capture := s.capture.(frames := past + [f])), u, past, f);
  }

  lemma FirstIffEmpty(s: Core)
    requires Inv(s)
    ensures s.firstFrame <==> s.capture.frames == []
  {
  }

  lemma RejectedIsCalm(wire: Bytes, room: nat)
    requires Complete(wire, SERVER_MAX_FRAME_SIZE)
    ensures var r := FrameSpec(wire, SERVER_MAX_FRAME_SIZE, false, true, Some(room)); r.Rejected? ==> r.code == 11
  {
    hide PayloadSpec;
  }

  // ------------------------------------------------------------------------------ runs

  /** In every run that has not failed and has nothing left over, for the next read, a frame with its nine octets of
      header and its payload: the session fails if and only if there are more than 2097152 octets in all (11), the
      frame is longer than 65536 octets (6), it has too many entries or is one frame too many (11), or it breaks a
      rule, and then with that code. */
  lemma EveryFrameIsJudged(env: Env, incoming: Bytes, calls: seq<Call>, wire: Bytes)
    requires var s := Serve(env, incoming, calls).session; !s.core.closed && s.buffer == []
    requires |wire| >= 9 && |wire| == FrameEnd(wire)
    ensures var s := Serve(env, incoming, calls).session;
            var r := Receive(env, s, wire).raised;
            var fault := if |Intake(env, incoming, calls)| + |wire| > 2097152 then Some(11)
                         else if |wire| - 9 > 65536 then Some(6)
                         else Verdict(env, s.core, wire);
            (fault.Some? ==> r == Protocol(fault.value)) && (fault.None? ==> !r.Protocol?)
  {
    hide Serve, Intake, Good, Requests.Tells, Verdict, Receive, Counted;
    ServeSpoken(env, incoming, calls);
    Requests.ServeTold(env, incoming, calls);
    var s := Serve(env, incoming, calls).session;
    ReadIsJudged(env, s, wire);
  }

  lemma ReadIsJudged(env: Env, s: Session, wire: Bytes)
    requires Good(s.core) && Counted(s.core, s.core.capture.frames) && s.buffer == [] && |wire| >= 9 && |wire| == FrameEnd(wire)
    ensures var r := Receive(env, s, wire).raised;
            var fault := if s.captureBytes + |wire| > 2097152 then Some(11)
                         else if |wire| - 9 > 65536 then Some(6)
                         else Verdict(env, s.core, wire);
            (fault.Some? ==> r == Protocol(fault.value)) && (fault.None? ==> !r.Protocol?)
  {
    hide Counted, Inv, TakeFrame, Verdict, Close;
    assert [] + wire == wire && wire[..|wire|] == wire && wire[|wire|..] == [];
    var t := s.(captureBytes := s.captureBytes + |wire|, buffer := wire);
    if |wire| - 9 <= 65536 { FrameIsJudged(env, s.core, wire); FrameTaken(env, s.core, wire); }
    var u := t.(buffer := [], core := TakeFrame(env, s.core, wire).core);
    assert Drain(env, u) == Outcome(u, Quiet);
  }
}
