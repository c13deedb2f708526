/** The parsers accept exactly the rendered payloads, and forensic mode refines strict mode. */
module FrameProofs {
  import opened Wire
  import opened Frames

  /** `p` is a wire form of `payload` under header `h`: independent of how the parsers work. */
  ghost predicate Denotes(h: FrameHeader, p: Bytes, payload: Payload, strict: bool) {
    && Heads(h, payload)
    && exists padding: Bytes, reserved: bool ::
         && WellFormed(payload, padding)
         && p == Render(payload, padding, reserved)
         && (strict ==> AllZero(padding))
  }

  // ------------------------------------------------------------ small pieces

  lemma StreamIdSplit(s: Bytes)
    requires |s| == 4
    ensures s == Put32(WithReserved(StreamIdOf(s), U32(s) >= RESERVED_BIT))
  {
    Put32OfU32(s);
  }

  lemma StreamIdOfPut(id: nat, reserved: bool)
    requires id <= MAX_STREAM_ID
    ensures StreamIdOf(Put32(WithReserved(id, reserved))) == id
  {
  }

  lemma PrioritySplit(s: Bytes)
    requires |s| == 5
    ensures WellFormedPriority(PriorityOf(s)) && RenderPriority(PriorityOf(s)) == s
  {
    Put32OfU32(s[..4]);
    assert s == s[..4] + [s[4]];
  }

  lemma PriorityOfRender(info: PriorityInfo)
    requires WellFormedPriority(info)
    ensures PriorityOf(RenderPriority(info)) == info
  {
    var id := Put32(WithReserved(info.dependency, info.exclusive));
    assert RenderPriority(info)[..4] == id;
  }

  // ----------------------------------------------------------- padded frames

  lemma DataExact(h: FrameHeader, p: Bytes, strict: bool)
    requires |p| == h.length && h.kind == DATA && DataSpec(h, p, strict).Parsed?
    ensures Denotes(h, p, DataSpec(h, p, strict).payload, strict)
  {
    var stop := h.length - PadLength(h, p).value;
    var x := DataSpec(h, p, strict).payload;
    assert p == RenderPad(Padded(h.flags), p[stop..]) + p[PadField(h)..stop] + p[stop..];
    assert p == Render(x, p[stop..], false);
  }

  lemma DataParses(h: FrameHeader, x: Payload, padding: Bytes, strict: bool)
    requires x.Data? && WellFormed(x, padding) && Heads(h, x) && (strict ==> AllZero(padding))
    requires h.length == |Render(x, padding, false)|
    ensures DataSpec(h, Render(x, padding, false), strict) == Parsed(x, 0)
  {
    var p := Render(x, padding, false);
    var stop := |p| - |padding|;
    assert p[stop..] == padding && p[PadField(h)..stop] == x.data;
  }

  lemma Cut(p: Bytes, a: nat, b: nat, c: nat)
    requires a <= b <= c <= |p|
    ensures p == p[..a] + p[a..b] + p[b..c] + p[c..]
  {
  }

  lemma HeadersExact(h: FrameHeader, p: Bytes, strict: bool)
    requires |p| == h.length && h.kind == HEADERS && HeadersSpec(h, p, strict).Parsed?
    ensures Denotes(h, p, HeadersSpec(h, p, strict).payload, strict)
  {
    var stop := h.length - PadLength(h, p).value;
    var f := PadField(h);
    var start := if HasPriority(h.flags) then f + 5 else f;
    var x := HeadersSpec(h, p, strict).payload;
    assert p[..f] == RenderPad(Padded(h.flags), p[stop..]);
    assert p[f..start] == if x.priority.Some? then RenderPriority(x.priority.value) else [] by {
      if HasPriority(h.flags) { PrioritySplit(p[f..f + 5]); }
    }
    assert WellFormed(x, p[stop..]) by {
      if HasPriority(h.flags) { PrioritySplit(p[f..f + 5]); }
    }
    Cut(p, f, start, stop);
    hide U16, U32, Put32, RenderPriority, PriorityOf, EndStream, EndHeaders, Padded, HasPriority;
    assert strict ==> AllZero(p[stop..]);
    assert p == Render(x, p[stop..], false);
  }

  lemma HeadersParses(h: FrameHeader, x: Payload, padding: Bytes, strict: bool)
    requires x.Headers? && WellFormed(x, padding) && Heads(h, x) && (strict ==> AllZero(padding))
    requires h.length == |Render(x, padding, false)|
    ensures HeadersSpec(h, Render(x, padding, false), strict) == Parsed(x, 0)
  {
    var p := Render(x, padding, false);
    var stop := |p| - |padding|;
    var f := PadField(h);
    assert p[stop..] == padding;
    if x.priority.Some? {
      PriorityOfRender(x.priority.value);
      assert p[f..f + 5] == RenderPriority(x.priority.value);
      assert p[f + 5..stop] == x.block;
    } else {
      assert p[f..stop] == x.block;
    }
  }

  lemma PushPromiseExact(h: FrameHeader, p: Bytes, strict: bool)
    requires |p| == h.length && h.kind == PUSH_PROMISE && PushPromiseSpec(h, p, strict).Parsed?
    ensures Denotes(h, p, PushPromiseSpec(h, p, strict).payload, strict)
  {
    var stop := h.length - PadLength(h, p).value;
    var f := PadField(h);
    var x := PushPromiseSpec(h, p, strict).payload;
    StreamIdSplit(p[f..f + 4]);
    assert p[..f] == RenderPad(Padded(h.flags), p[stop..]);
    Cut(p, f, f + 4, stop);
    hide U16, U32, Put32, StreamIdOf, EndHeaders, Padded;
    assert strict ==> AllZero(p[stop..]);
    assert p == Render(x, p[stop..], U32(p[f..f + 4]) >= RESERVED_BIT);
  }

  lemma PushPromiseParses(h: FrameHeader, x: Payload, padding: Bytes, reserved: bool, strict: bool)
    requires x.PushPromise? && WellFormed(x, padding) && Heads(h, x) && (strict ==> AllZero(padding))
    requires h.length == |Render(x, padding, reserved)|
    ensures PushPromiseSpec(h, Render(x, padding, reserved), strict) == Parsed(x, 0)
  {
    var p := Render(x, padding, reserved);
    var stop := |p| - |padding|;
    var f := PadField(h);
    StreamIdOfPut(x.promised, reserved);
    assert p[f..f + 4] == Put32(WithReserved(x.promised, reserved));
    assert p[stop..] == padding && p[f + 4..stop] == x.block;
  }

  // ---------------------------------------------------------------- SETTINGS

  lemma RenderedEntryAt(p: Bytes, k: nat)
    requires k * 6 + 6 <= |p|
    ensures p[..k * 6 + 6] == p[..k * 6] + Put16(EntryAt(p, k).0) + Put32(EntryAt(p, k).1)
  {
    var a, b := p[k * 6..k * 6 + 2], p[k * 6 + 2..k * 6 + 6];
    Put16OfU16(a);
    Put32OfU32(b);
    assert p[..k * 6 + 6] == p[..k * 6] + a + b;
  }

  lemma {:induction false} GoodEntries(entries: seq<Entry>, i: nat)
    requires i <= |entries|
    ensures FirstBad(entries, i).None? <==> forall j :: i <= j < |entries| ==> Acceptable(entries[j])
    decreases |entries| - i
  {
    if i < |entries| && BadSetting(entries[i]).None? {
      GoodEntries(entries, i + 1);
    }
  }

  lemma {:induction false} EntriesRender(p: Bytes, k: nat)
    requires k * 6 <= |p|
    ensures PackableEntries(EntriesOf(p, k)) && RenderEntries(EntriesOf(p, k)) == p[..k * 6]
  {
    if k > 0 {
      EntriesRender(p, k - 1);
      RenderedEntryAt(p, k - 1);
      hide U16, U32, Put16, Put32, EntryAt;
      assert EntriesOf(p, k)[..k - 1] == EntriesOf(p, k - 1);
    }
  }

  lemma {:induction false} RenderedEntry(entries: seq<Entry>, k: nat)
    requires PackableEntries(entries) && k < |entries|
    ensures EntryAt(RenderEntries(entries), k) == entries[k]
  {
    var n := |entries| - 1;
    var before, a, b := RenderEntries(entries[..n]), Put16(entries[n].0), Put32(entries[n].1);
    var p := before + a + b;
    if k == n {
      assert p[k * 6..k * 6 + 2] == a && p[k * 6 + 2..k * 6 + 6] == b;
    } else {
      RenderedEntry(entries[..n], k);
      assert p[k * 6..k * 6 + 2] == before[k * 6..k * 6 + 2];
      assert p[k * 6 + 2..k * 6 + 6] == before[k * 6 + 2..k * 6 + 6];
    }
  }

  lemma RenderedEntries(entries: seq<Entry>)
    requires PackableEntries(entries)
    ensures EntriesOf(RenderEntries(entries), |entries|) == entries
  {
    forall k | 0 <= k < |entries| ensures EntryAt(RenderEntries(entries), k) == entries[k] {
      RenderedEntry(entries, k);
    }
  }

  lemma SettingsExact(h: FrameHeader, p: Bytes, room: Option<int>, strict: bool)
    requires h.kind == SETTINGS && SettingsSpec(h, p, room).Parsed?
    ensures Denotes(h, p, SettingsSpec(h, p, room).payload, strict)
  {
    var x := SettingsSpec(h, p, room).payload;
    if !Ack(h.flags) {
      var k := |p| / 6;
      GoodEntries(EntriesOf(p, k), 0);
      EntriesRender(p, k);
      assert p[..k * 6] == p;
    }
    assert p == Render(x, [], false);
  }

  lemma SettingsParses(h: FrameHeader, x: Payload, padding: Bytes, room: Option<int>)
    requires x.Settings? && WellFormed(x, padding) && Heads(h, x) && !Overdrawn(|x.entries|, room)
    ensures SettingsSpec(h, Render(x, padding, false), room) == Parsed(x, |x.entries|)
  {
    hide U16, U32, Put16, Put32, Ack;
    RenderedEntries(x.entries);
    GoodEntries(x.entries, 0);
  }

  // ------------------------------------------------------------------ ORIGIN

  lemma {:induction false} RenderOriginsAppend(a: seq<Bytes>, b: seq<Bytes>)
    requires forall o :: o in a + b ==> |o| < 0x1_0000
    ensures forall o :: o in a ==> |o| < 0x1_0000
    ensures forall o :: o in b ==> |o| < 0x1_0000
    ensures RenderOrigins(a + b) == RenderOrigins(a) + RenderOrigins(b)
  {
    assert forall o :: o in a ==> o in a + b;
    assert forall o :: o in b ==> o in a + b;
    if a == [] {
      assert a + b == b;
    } else {
      assert (a + b)[1..] == a[1..] + b;
      RenderOriginsAppend(a[1..], b);
    }
  }

  lemma OriginMoved(p: Bytes, n: nat, origins: seq<Bytes>)
    requires forall o :: o in origins ==> |o| < 0x1_0000
    requires 2 + n <= |p| && n == U16(p[..2])
    ensures n < 0x1_0000
    ensures RenderOrigins(origins + [p[2..2 + n]]) + p[2 + n..] == RenderOrigins(origins) + p
  {
    Put16OfU16(p[..2]);
    hide U16, Put16;
    var o := p[2..2 + n];
    RenderOriginsAppend(origins, [o]);
    assert RenderOrigins([o]) == Put16(n) + o + RenderOrigins([]);
    hide RenderOrigins;
    assert p == p[..2] + o + p[2 + n..];
  }

  lemma {:induction false} OriginsExact(p: Bytes, origins: seq<Bytes>, room: Option<int>)
    requires forall o :: o in origins ==> |o| < 0x1_0000
    ensures var r := OriginsFrom(p, origins, room);
            r.Parsed? ==>
              && r.payload.Origin? && r.used == |r.payload.origins|
              && (forall o :: o in r.payload.origins ==> |o| < 0x1_0000)
              && RenderOrigins(r.payload.origins) == RenderOrigins(origins) + p
    decreases |p|
  {
    hide RenderOrigins, U16;
    if OriginsFrom(p, origins, room).Parsed? && p != [] {
      var n := U16(p[..2]);
      OriginMoved(p, n, origins);
      OriginsExact(p[2 + n..], origins + [p[2..2 + n]], room);
    }
  }

  lemma OriginFirst(origins: seq<Bytes>)
    requires origins != [] && forall o :: o in origins ==> |o| < 0x1_0000
    ensures var n, p := |origins[0]|, RenderOrigins(origins);
            && 2 + n <= |p| && U16(p[..2]) == n
            && p[2..2 + n] == origins[0] && p[2 + n..] == RenderOrigins(origins[1..])
  {
    var p := RenderOrigins(origins);
    assert p[..2] == Put16(|origins[0]|);
  }

  lemma {:induction false} OriginsParse(before: seq<Bytes>, after: seq<Bytes>, room: Option<int>)
    requires forall o :: o in after ==> |o| < 0x1_0000
    requires !Overdrawn(|before| + |after|, room)
    ensures OriginsFrom(RenderOrigins(after), before, room) == Parsed(Origin(before + after), |before| + |after|)
    decreases |after|
  {
    if after == [] {
      assert before + after == before;
    } else {
      hide RenderOrigins, U16;
      var o := after[0];
      OriginFirst(after);
      OriginsParse(before + [o], after[1..], room);
      assert before + [o] + after[1..] == before + after;
    }
  }

  lemma {:induction false} OriginsBudget(p: Bytes, origins: seq<Bytes>, room: Option<int>)
    requires room.Some? ==> |origins| <= room.value
    ensures var r := OriginsFrom(p, origins, room);
            && (room.Some? ==> r.used <= room.value)
            && (r.Malformed? ==> r.code == PROTOCOL_ERROR || r.code == ENHANCE_YOUR_CALM)
            && (r.Malformed? && r.code == ENHANCE_YOUR_CALM ==> room == Some(r.used))
    decreases |p|
  {
    if |p| >= 2 {
      var n := U16(p[..2]);
      if 2 + n <= |p| && !Overdrawn(|origins| + 1, room) {
        OriginsBudget(p[2 + n..], origins + [p[2..2 + n]], room);
      }
    }
  }

  lemma OriginExact(h: FrameHeader, p: Bytes, room: Option<int>, strict: bool)
    requires h.kind == ORIGIN && OriginSpec(h, p, room).Parsed? && (room.Some? ==> room.value >= 0)
    ensures var r := OriginSpec(h, p, room);
            Denotes(h, p, r.payload, strict) && r.used == EntryCount(r.payload) && !Overdrawn(r.used, room)
  {
    OriginsExact(p, [], room);
    OriginsBudget(p, [], room);
    assert RenderOrigins([]) + p == p;
    assert p == Render(OriginSpec(h, p, room).payload, [], false);
  }

  // ------------------------------------------------------------ main results

  lemma FixedExact(h: FrameHeader, p: Bytes, strict: bool, room: Option<int>)
    requires |p| == h.length && PayloadSpec(h, p, strict, room).Parsed?
    requires h.kind !in {DATA, HEADERS, SETTINGS, PUSH_PROMISE, ORIGIN}
    ensures Denotes(h, p, PayloadSpec(h, p, strict, room).payload, strict)
  {
    var x := PayloadSpec(h, p, strict, room).payload;
    var reserved := |p| >= 4 && U32(p[..4]) >= RESERVED_BIT;
    if h.kind == PRIORITY { PrioritySplit(p); }
    else if h.kind == RST_STREAM { Put32OfU32(p); }
    else if h.kind == GOAWAY { GoawayExact(h, p, reserved); }
    else if h.kind == WINDOW_UPDATE { StreamIdSplit(p); assert p[..4] == p; }
    else if h.kind == ALTSVC { AltSvcExact(p); }
    else if h.kind == PRIORITY_UPDATE { StreamIdSplit(p[..4]); assert p == p[..4] + p[4..]; }
    hide U16, U32, Put16, Put32;
    assert p == Render(x, [], reserved);
  }

  lemma GoawayExact(h: FrameHeader, p: Bytes, reserved: bool)
    requires GoawaySpec(h, p).Parsed? && reserved == (U32(p[..4]) >= RESERVED_BIT)
    ensures WellFormed(GoawaySpec(h, p).payload, []) && p == Render(GoawaySpec(h, p).payload, [], reserved)
  {
    StreamIdSplit(p[..4]);
    Put32OfU32(p[4..8]);
    Cut(p, 4, 4, 8);
  }

  lemma AltSvcExact(p: Bytes)
    requires AltSvcSpec(p).Parsed?
    ensures WellFormed(AltSvcSpec(p).payload, []) && p == Render(AltSvcSpec(p).payload, [], false)
  {
    Put16OfU16(p[..2]);
    Cut(p, 2, 2, 2 + U16(p[..2]));
  }

  lemma FixedParses(h: FrameHeader, x: Payload, padding: Bytes, reserved: bool, strict: bool, room: Option<int>)
    requires WellFormed(x, padding) && Heads(h, x) && h.length == |Render(x, padding, reserved)|
    requires h.kind !in {DATA, HEADERS, SETTINGS, PUSH_PROMISE, ORIGIN}
    ensures PayloadSpec(h, Render(x, padding, reserved), strict, room) == Parsed(x, 0)
  {
    var p := Render(x, padding, reserved);
    match x {
      case Priority(info) => PriorityOfRender(info);
      case Goaway(last, code, debug) =>
        StreamIdOfPut(last, reserved);
        assert p[..4] == Put32(WithReserved(last, reserved)) && p[4..8] == Put32(code) && p[8..] == debug;
      case WindowUpdate(increment) => StreamIdOfPut(increment, reserved);
      case AltSvc(origin, value) =>
        assert p[..2] == Put16(|origin|) && p[2..2 + |origin|] == origin && p[2 + |origin|..] == value;
      case PriorityUpdate(id, value) =>
        StreamIdOfPut(id, reserved);
        assert p[..4] == Put32(WithReserved(id, reserved)) && p[4..] == value;
      case _ =>
    }
  }

  lemma AcceptedIsDenoted(h: FrameHeader, p: Bytes, strict: bool, room: Option<int>)
    requires |p| == h.length && PayloadSpec(h, p, strict, room).Parsed?
    requires room.Some? ==> room.value >= 0
    ensures var r := PayloadSpec(h, p, strict, room);
            Denotes(h, p, r.payload, strict) && r.used == EntryCount(r.payload) && !Overdrawn(r.used, room)
  {
    hide Denotes, WellFormed, Heads, Render;
    if h.kind == DATA { DataExact(h, p, strict); }
    else if h.kind == HEADERS { HeadersExact(h, p, strict); }
    else if h.kind == SETTINGS { SettingsExact(h, p, room, strict); }
    else if h.kind == PUSH_PROMISE { PushPromiseExact(h, p, strict); }
    else if h.kind == ORIGIN { OriginExact(h, p, room, strict); }
    else { FixedExact(h, p, strict, room); }
  }

  lemma DenotedIsAccepted(h: FrameHeader, p: Bytes, x: Payload, strict: bool, room: Option<int>)
    requires |p| == h.length && Denotes(h, p, x, strict) && !Overdrawn(EntryCount(x), room)
    ensures PayloadSpec(h, p, strict, room) == Parsed(x, EntryCount(x))
  {
    hide U16, U32, Put16, Put32, DataSpec, HeadersSpec, SettingsSpec, PushPromiseSpec;
    var padding: Bytes, reserved: bool :|
      WellFormed(x, padding) && p == Render(x, padding, reserved) && (strict ==> AllZero(padding));
    if h.kind == DATA { DataParses(h, x, padding, strict); }
    else if h.kind == HEADERS { HeadersParses(h, x, padding, strict); }
    else if h.kind == SETTINGS { SettingsParses(h, x, padding, room); }
    else if h.kind == PUSH_PROMISE { PushPromiseParses(h, x, padding, reserved, strict); }
    else if h.kind == ORIGIN {
      OriginsParse([], x.origins, room);
      assert [] + x.origins == x.origins;
    } else { FixedParses(h, x, padding, reserved, strict, room); }
  }

  /** All thirteen parsers at once: a payload is accepted as `x` exactly when the octets are a wire
      form of `x` and its entries fit the budget. Nothing is dropped, nothing is left unread. */
  lemma ParsersAreExact(h: FrameHeader, p: Bytes, x: Payload, used: nat, strict: bool, room: Option<int>)
    requires |p| == h.length && (room.Some? ==> room.value >= 0)
    ensures PayloadSpec(h, p, strict, room) == Parsed(x, used)
       <==> Denotes(h, p, x, strict) && used == EntryCount(x) && !Overdrawn(used, room)
  {
    if PayloadSpec(h, p, strict, room) == Parsed(x, used) {
      AcceptedIsDenoted(h, p, strict, room);
    }
    if Denotes(h, p, x, strict) && used == EntryCount(x) && !Overdrawn(used, room) {
      DenotedIsAccepted(h, p, x, strict, room);
    }
  }

  /** Reserved entries never exceed the budget, whether or not the payload turns out well-formed. */
  lemma EntriesStayInBudget(h: FrameHeader, p: Bytes, strict: bool, room: Option<int>)
    requires |p| == h.length && (room.Some? ==> room.value >= 0)
    ensures !Overdrawn(PayloadSpec(h, p, strict, room).used, room)
  {
    if h.kind == ORIGIN { OriginsBudget(p, [], room); }
  }

  lemma {:induction false} FirstBadIsOrdinary(entries: seq<Entry>, i: nat)
    ensures FirstBad(entries, i) != Some(ENHANCE_YOUR_CALM)
    decreases |entries| - i
  {
    if i < |entries| {
      FirstBadIsOrdinary(entries, i + 1);
    }
  }

  /** Only the entry budget produces ENHANCE_YOUR_CALM, so forensic mode can tell it apart. */
  lemma CalmMeansBudget(h: FrameHeader, p: Bytes, strict: bool, room: Option<int>)
    requires |p| == h.length && PayloadSpec(h, p, strict, room).Malformed?
    requires PayloadSpec(h, p, strict, room).code == ENHANCE_YOUR_CALM
    ensures room.Some? && h.kind in {SETTINGS, ORIGIN}
  {
    if h.kind == SETTINGS && !Ack(h.flags) && |p| % 6 == 0 {
      FirstBadIsOrdinary(EntriesOf(p, |p| / 6), 0);
    }
    if h.kind == ORIGIN && room.None? {
      OriginsBudget(p, [], room);
    }
  }

  /** Forensic mode refines strict mode frame by frame, and both always land on the next frame. */
  lemma ForensicRefinesStrict(data: Bytes, maximum: int, padding: bool, room: Option<int>)
    requires Complete(data, maximum) && (room.Some? ==> room.value >= 0)
    ensures var strict := FrameSpec(data, maximum, padding, false, room);
            var forensic := FrameSpec(data, maximum, padding, true, room);
            var payload := data[FRAME_HEADER_SIZE..FrameEnd(data)];
            && forensic.used == strict.used && !Overdrawn(forensic.used, room)
            && (strict.Frame? ==> forensic == strict)
            && (strict.Rejected? && strict.code != ENHANCE_YOUR_CALM ==>
                  && forensic.Frame?
                  && forensic.frame == ParsedFrame(HeaderOf(data), Unknown(data[3], payload, Some(strict.code)), data[..FrameEnd(data)]))
            && (forensic.Rejected? <==> strict == Rejected(ENHANCE_YOUR_CALM, strict.used))
            && (forensic.Rejected? ==> room.Some? && data[3] in {SETTINGS, ORIGIN})
            && (forensic.Frame? ==> forensic.frame.raw == data[..FrameEnd(data)] && forensic.frame.header == HeaderOf(data))
  {
    var h := HeaderOf(data);
    var p := data[FRAME_HEADER_SIZE..FrameEnd(data)];
    EntriesStayInBudget(h, p, padding, room);
    var r := PayloadSpec(h, p, padding, room);
    if r.Malformed? && r.code == ENHANCE_YOUR_CALM {
      CalmMeansBudget(h, p, padding, room);
    }
  }

  // ------------------------------------------------------- build, then parse

  lemma BuiltFrameIsRead(kind: byte, flags: byte, streamId: nat, payload: Bytes)
    requires |payload| <= MAX_ALLOWED_FRAME_SIZE && streamId <= MAX_STREAM_ID
    ensures var wire := FrameBytes(kind, flags, streamId, payload);
            && HeaderOf(wire) == FrameHeader(|payload|, kind, flags, streamId)
            && FrameEnd(wire) == |wire| && wire[FRAME_HEADER_SIZE..] == payload
  {
    var wire := FrameBytes(kind, flags, streamId, payload);
    assert wire[..3] == Put24(|payload|) && wire[5..9] == Put32(streamId);
  }

  lemma BuiltFrameParses(h: FrameHeader, payload: Bytes, x: Payload, used: nat,
                         maximum: int, strict: bool, forensic: bool, room: Option<int>)
    requires h.length == |payload| <= maximum <= MAX_ALLOWED_FRAME_SIZE && h.streamId <= MAX_STREAM_ID
    requires PayloadSpec(h, payload, strict, room) == Parsed(x, used)
    ensures var wire := FrameBytes(h.kind, h.flags, h.streamId, payload);
            FrameSpec(wire, maximum, strict, forensic, room) == Frame(ParsedFrame(h, x, wire), used)
  {
    var wire := FrameBytes(h.kind, h.flags, h.streamId, payload);
    BuiltFrameIsRead(h.kind, h.flags, h.streamId, payload);
    assert wire[..|wire|] == wire && wire[FRAME_HEADER_SIZE..|wire|] == payload;
    hide FrameBytes, HeaderOf, U16, U24, U32, PayloadSpec;
  }

  /** Building a HEADERS frame and reading it back, in either mode and under any budget. */
  lemma HeadersRoundTrip(streamId: nat, block: Bytes, endStream: bool, endHeaders: bool,
                         maximum: int, strict: bool, forensic: bool, room: Option<int>)
    requires 0 < streamId <= MAX_STREAM_ID && |block| <= maximum <= MAX_ALLOWED_FRAME_SIZE
    ensures var h := FrameHeader(|block|, HEADERS, HeaderFlags(endStream, endHeaders), streamId);
            var wire := FrameBytes(HEADERS, h.flags, streamId, block);
            FrameSpec(wire, maximum, strict, forensic, room) ==
            Frame(ParsedFrame(h, Headers(block, None, endStream, endHeaders, false), wire), 0)
  {
    var h := FrameHeader(|block|, HEADERS, HeaderFlags(endStream, endHeaders), streamId);
    var x := Headers(block, None, endStream, endHeaders, false);
    assert Heads(h, x);
    assert Render(x, [], false) == block;
    HeadersParses(h, x, [], strict);
    hide HeadersSpec, FrameSpec, FrameBytes, HeaderFlags;
    BuiltFrameParses(h, block, x, 0, maximum, strict, forensic, room);
  }

  /** The frame h2 receives in place of a HEADERS frame with priority or padding means the same. */
  lemma EnvelopeStripped(data: Bytes, maximum: int, room: Option<int>)
    requires maximum <= MAX_ALLOWED_FRAME_SIZE
    requires var r := FrameSpec(data, maximum, false, true, room); r.Frame? && r.frame.payload.Headers?
    ensures var frame := FrameSpec(data, maximum, false, true, room).frame;
            var x := frame.payload;
            && |x.block| <= maximum && 0 < frame.header.streamId <= MAX_STREAM_ID
            && var wire := FrameBytes(HEADERS, HeaderFlags(x.endStream, x.endHeaders), frame.header.streamId, x.block);
               var rebuilt := FrameSpec(wire, maximum, true, false, Some(0));
               && rebuilt.Frame? && rebuilt.used == 0
               && rebuilt.frame.payload == x.(priority := None, padded := false)
               && rebuilt.frame.header.streamId == frame.header.streamId
               && rebuilt.frame.header.kind == frame.header.kind
               && rebuilt.frame.header.length <= frame.header.length
  {
    var frame := FrameSpec(data, maximum, false, true, room).frame;
    var p := data[FRAME_HEADER_SIZE..FrameEnd(data)];
    HeadersOnly(HeaderOf(data), p, room);
    hide PayloadSpec, FrameBytes, HeaderFlags, U16, U24, U32;
    var x := frame.payload;
    HeadersRoundTrip(frame.header.streamId, x.block, x.endStream, x.endHeaders, maximum, true, false, Some(0));
  }

  lemma HeadersOnly(h: FrameHeader, p: Bytes, room: Option<int>)
    requires |p| == h.length && PayloadSpec(h, p, false, room).Parsed?
    requires PayloadSpec(h, p, false, room).payload.Headers?
    ensures h.kind == HEADERS && h.streamId != 0 && |PayloadSpec(h, p, false, room).payload.block| <= |p|
  {
    if h.kind == ORIGIN { OriginsExact(p, [], room); }
  }

  lemma SettingsPayload(entries: seq<Entry>, strict: bool, room: Option<int>)
    requires WellFormedEntries(entries) && !Overdrawn(|entries|, room)
    ensures var p := RenderEntries(entries);
            PayloadSpec(FrameHeader(|p|, SETTINGS, 0, 0), p, strict, room) ==
            Parsed(Settings(false, Some(Effective(entries)), entries), |entries|)
  {
    var h := FrameHeader(|RenderEntries(entries)|, SETTINGS, 0, 0);
    hide RenderEntries, Effective, WellFormedEntries, SettingsSpec;
    SettingsParses(h, Settings(false, Some(Effective(entries)), entries), [], room);
  }

  /** Building a SETTINGS frame from acceptable entries and reading it back. */
  lemma SettingsRoundTrip(entries: seq<Entry>, payload: Bytes, maximum: int, strict: bool, forensic: bool, room: Option<int>)
    requires WellFormedEntries(entries) && payload == RenderEntries(entries)
    requires |payload| <= maximum <= MAX_ALLOWED_FRAME_SIZE && !Overdrawn(|entries|, room)
    ensures var h := FrameHeader(|payload|, SETTINGS, 0, 0);
            var wire := FrameBytes(SETTINGS, 0, 0, payload);
            FrameSpec(wire, maximum, strict, forensic, room) ==
            Frame(ParsedFrame(h, Settings(false, Some(Effective(entries)), entries), wire), |entries|)
  {
    var h := FrameHeader(|payload|, SETTINGS, 0, 0);
    var x := Settings(false, Some(Effective(entries)), entries);
    hide RenderEntries, FrameSpec, FrameBytes, Effective, WellFormedEntries, PayloadSpec;
    SettingsPayload(entries, strict, room);
    BuiltFrameParses(h, payload, x, |entries|, maximum, strict, forensic, room);
  }
}
