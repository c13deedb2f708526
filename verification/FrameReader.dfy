/** The cursor-based reader and the builder, proved against the payload specifications. */
module FrameReaders {
  import opened Wire
  import opened Frames

  /** How a parser's answer and the entries it reserved relate to the specification. */
  predicate Matches(r: Checked<Payload>, used: int, spec: Parse) {
    match r
    case Ok(payload) => spec.Parsed? && spec.payload == payload && spec.used == used
    case Err(code) => spec.Malformed? && spec.code == code && spec.used == used
  }

  lemma Sub(data: Bytes, start: nat, length: nat, a: nat, b: nat)
    requires start + length <= |data| && a <= b <= length
    ensures data[start..start + length][a..b] == data[start + a..start + b]
  {
    var x, y := data[start..start + length][a..b], data[start + a..start + b];
    assert |x| == |y| && forall i :: 0 <= i < |x| ==> x[i] == y[i];
  }

  lemma EntryAtCursor(data: Bytes, start: nat, length: nat, k: nat)
    requires start + length <= |data| && k * 6 + 6 <= length
    ensures EntryAt(data[start..start + length], k) ==
            (U16(data[start + k * 6..start + k * 6 + 2]), U32(data[start + k * 6 + 2..start + k * 6 + 6]))
  {
    Sub(data, start, length, k * 6, k * 6 + 2);
    Sub(data, start, length, k * 6 + 2, k * 6 + 6);
  }

  /** One turn of the ORIGIN loop, in terms of the cursor. */
  lemma OriginStep(data: Bytes, pos: nat, stop: nat, origins: seq<Bytes>, room: Option<int>)
    requires pos < stop <= |data|
    ensures OriginsFrom(data[pos..stop], origins, room) ==
            if pos + 2 > stop then Malformed(PROTOCOL_ERROR, |origins|)
            else
              var n := U16(data[pos..pos + 2]);
              if pos + 2 + n > stop then Malformed(PROTOCOL_ERROR, |origins|)
              else if Overdrawn(|origins| + 1, room) then Malformed(ENHANCE_YOUR_CALM, |origins|)
              else OriginsFrom(data[pos + 2 + n..stop], origins + [data[pos + 2..pos + 2 + n]], room)
  {
    var p := data[pos..stop];
    if |p| >= 2 {
      Sub(data, pos, |p|, 0, 2);
      hide U16;
      var n := U16(p[..2]);
      if 2 + n <= |p| {
        Sub(data, pos, |p|, 2, 2 + n);
        Sub(data, pos, |p|, 2 + n, |p|);
        assert p[2 + n..] == p[2 + n..|p|];
      }
    }
  }

  class FrameReader {
    const data: Bytes
    const maxFrameSize: int
    const strictPadding: bool
    const forensic: bool
    const maxEntries: Option<int>
    var pos: nat
    var payloadEnd: Option<nat>
    var entriesRead: nat

    constructor (data: Bytes, maxFrameSize: int, strictPadding: bool, forensic: bool, maxEntries: Option<int>)
      ensures Valid() && payloadEnd.None? && pos == 0 && entriesRead == 0
      ensures this.data == data && this.strictPadding == strictPadding && this.forensic == forensic
      ensures this.maxEntries == maxEntries
      ensures this.maxFrameSize == if maxFrameSize < MAX_ALLOWED_FRAME_SIZE then maxFrameSize else MAX_ALLOWED_FRAME_SIZE
    {
      this.data := data;
      this.pos := 0;
      this.maxFrameSize := if maxFrameSize < MAX_ALLOWED_FRAME_SIZE then maxFrameSize else MAX_ALLOWED_FRAME_SIZE;
      this.strictPadding := strictPadding;
      this.forensic := forensic;
      this.payloadEnd := None;
      this.maxEntries := maxEntries;
      this.entriesRead := 0;
    }

    function End(): nat
      reads this
    {
      if payloadEnd.Some? then payloadEnd.value else |data|
    }

    ghost predicate Valid()
      reads this
    {
      pos <= End() <= |data|
    }

    /** The cursor stands at the start of the payload that `h` announces. */
    ghost predicate AtPayload(h: FrameHeader)
      reads this
    {
      Valid() && payloadEnd == Some(pos + h.length)
    }

    function Room(): Option<int>
      reads this
    {
      if maxEntries.None? then None else Some(maxEntries.value - entriesRead)
    }

    ghost function PayloadAt(start: nat, h: FrameHeader): (p: Bytes)
      requires start + h.length <= |data|
      ensures |p| == h.length
    {
      data[start..start + h.length]
    }

    method ReserveEntries(count: nat) returns (r: Checked<()>)
      modifies `entriesRead
      ensures r.Err? <==> Overdrawn(count, old(Room()))
      ensures r.Err? ==> r.code == ENHANCE_YOUR_CALM && entriesRead == old(entriesRead)
      ensures r.Ok? ==> entriesRead == old(entriesRead) + count
    {
      if maxEntries.Some? && entriesRead + count > maxEntries.value {
        return Err(ENHANCE_YOUR_CALM);
      }
      entriesRead := entriesRead + count;
      return Ok(());
    }

    method Read(n: int) returns (r: Checked<Bytes>)
      requires Valid()
      modifies `pos
      ensures Valid()
      ensures r.Ok? <==> 0 <= n && old(pos) + n <= End()
      ensures r.Ok? ==> r.value == data[old(pos)..old(pos) + n] && pos == old(pos) + n
      ensures r.Err? ==> r.code == FRAME_SIZE_ERROR && pos == old(pos)
    {
      if n < 0 || pos + n > End() {
        return Err(FRAME_SIZE_ERROR);
      }
      r := Ok(data[pos..pos + n]);
      pos := pos + n;
    }

    method ReadUint8() returns (r: Checked<byte>)
      requires Valid()
      modifies `pos
      ensures Valid()
      ensures r.Ok? <==> old(pos) + 1 <= End()
      ensures r.Ok? ==> r.value == data[old(pos)] && pos == old(pos) + 1
      ensures r.Err? ==> r.code == FRAME_SIZE_ERROR && pos == old(pos)
    {
      var s :- Read(1);
      return Ok(s[0]);
    }

    method ReadUint16() returns (r: Checked<nat>)
      requires Valid()
      modifies `pos
      ensures Valid()
      ensures r.Ok? <==> old(pos) + 2 <= End()
      ensures r.Ok? ==> r.value == U16(data[old(pos)..old(pos) + 2]) && pos == old(pos) + 2
      ensures r.Err? ==> r.code == FRAME_SIZE_ERROR && pos == old(pos)
    {
      var s :- Read(2);
      return Ok(U16(s));
    }

    method ReadUint24() returns (r: Checked<nat>)
      requires Valid()
      modifies `pos
      ensures Valid()
      ensures r.Ok? <==> old(pos) + 3 <= End()
      ensures r.Ok? ==> r.value == U24(data[old(pos)..old(pos) + 3]) && pos == old(pos) + 3
      ensures r.Err? ==> r.code == FRAME_SIZE_ERROR && pos == old(pos)
    {
      var s :- Read(3);
      return Ok(U24(s));
    }

    method ReadUint32() returns (r: Checked<nat>)
      requires Valid()
      modifies `pos
      ensures Valid()
      ensures r.Ok? <==> old(pos) + 4 <= End()
      ensures r.Ok? ==> r.value == U32(data[old(pos)..old(pos) + 4]) && pos == old(pos) + 4
      ensures r.Err? ==> r.code == FRAME_SIZE_ERROR && pos == old(pos)
    {
      var s :- Read(4);
      return Ok(U32(s));
    }

    /** The reserved bit is ignored on receipt, not rejected. */
    method ReadUint32WithReserved() returns (r: Checked<nat>)
      requires Valid()
      modifies `pos
      ensures Valid()
      ensures r.Ok? <==> old(pos) + 4 <= End()
      ensures r.Ok? ==> r.value == StreamIdOf(data[old(pos)..old(pos) + 4]) && pos == old(pos) + 4
      ensures r.Err? ==> r.code == FRAME_SIZE_ERROR && pos == old(pos)
    {
      var n :- ReadUint32();
      return Ok(if n >= RESERVED_BIT then n - RESERVED_BIT else n);
    }

    method ReadPriority() returns (r: Checked<PriorityInfo>)
      requires Valid()
      modifies `pos
      ensures Valid()
      ensures r.Ok? <==> old(pos) + 5 <= End()
      ensures r.Ok? ==> r.value == PriorityOf(data[old(pos)..old(pos) + 5]) && pos == old(pos) + 5
      ensures r.Err? ==> r.code == FRAME_SIZE_ERROR
    {
      var dependency :- ReadUint32();
      var weight :- ReadUint8();
      assert data[old(pos)..old(pos) + 5][..4] == data[old(pos)..old(pos) + 4];
      var exclusive := dependency >= RESERVED_BIT;
      return Ok(PriorityInfo(exclusive, if exclusive then dependency - RESERVED_BIT else dependency, (weight as int) + 1));
    }

    method ReadPaddingLength(h: FrameHeader) returns (r: Checked<nat>)
      requires AtPayload(h)
      modifies `pos
      ensures Valid()
      ensures r == PadLength(h, PayloadAt(old(pos), h))
      ensures r.Ok? ==> pos == old(pos) + PadField(h)
    {
      if !Padded(h.flags) {
        return Ok(0);
      }
      var length :- ReadUint8();
      if length >= h.length {
        return Err(PROTOCOL_ERROR);
      }
      return Ok(length);
    }

    method SkipPadding(length: nat) returns (r: Checked<()>)
      requires Valid() && pos + length <= End()
      modifies `pos
      ensures Valid() && pos == old(pos) + length
      ensures r == if strictPadding && !AllZero(data[old(pos)..old(pos) + length]) then Err(PROTOCOL_ERROR) else Ok(())
    {
      var padding :- Read(length);
      var zero := true;
      for i := 0 to |padding|
        invariant zero == AllZero(padding[..i])
      {
        assert padding[..i + 1] == padding[..i] + [padding[i]];
        zero := zero && padding[i] == 0;
      }
      assert padding[..|padding|] == padding;
      if strictPadding && !zero {
        return Err(PROTOCOL_ERROR);
      }
      return Ok(());
    }

    /** The shared tail of DATA, HEADERS and PUSH_PROMISE: `length` octets, then the padding. */
    method ReadBlock(start: nat, h: FrameHeader, length: int, pad: nat) returns (r: Checked<Bytes>)
      requires start <= pos && Valid() && payloadEnd == Some(start + h.length)
      requires length == h.length - (pos - start) - pad && pad <= h.length
      modifies `pos
      ensures Valid() && (r.Ok? ==> pos == End())
      ensures r == BlockOf(PayloadAt(start, h), old(pos) - start, pad, strictPadding)
    {
      if length < 0 {
        return Err(PROTOCOL_ERROR);
      }
      Sub(data, start, h.length, pos - start, h.length - pad);
      Sub(data, start, h.length, h.length - pad, h.length);
      var content :- Read(length);
      var _ :- SkipPadding(pad);
      return Ok(content);
    }

    /** Every typed parser: agrees with its specification and, on success, stops exactly where the
        payload ends. */
    method ParseData(h: FrameHeader) returns (r: Checked<Payload>)
      requires AtPayload(h)
      modifies `pos
      ensures Valid() && (r.Ok? ==> pos == End())
      ensures Matches(r, 0, DataSpec(h, PayloadAt(old(pos), h), strictPadding))
    {
      hide U16, U32, StreamIdOf, PriorityOf, BlockOf, EndStream, EndHeaders, Padded, HasPriority;
      var start := pos;
      if h.streamId == 0 {
        return Err(PROTOCOL_ERROR);
      }
      var pad :- ReadPaddingLength(h);
      var length := h.length - (if Padded(h.flags) then 1 else 0) - pad;
      var content :- ReadBlock(start, h, length, pad);
      return Ok(Data(content, EndStream(h.flags), Padded(h.flags)));
    }

    method ParseHeaders(h: FrameHeader) returns (r: Checked<Payload>)
      requires AtPayload(h)
      modifies `pos
      ensures Valid() && (r.Ok? ==> pos == End())
      ensures Matches(r, 0, HeadersSpec(h, PayloadAt(old(pos), h), strictPadding))
    {
      hide U16, U32, StreamIdOf, PriorityOf, BlockOf, EndStream, EndHeaders, Padded, HasPriority;
      var start := pos;
      if h.streamId == 0 {
        return Err(PROTOCOL_ERROR);
      }
      var pad :- ReadPaddingLength(h);
      var priority := None;
      if HasPriority(h.flags) {
        var info :- ReadPriority();
        Sub(data, start, h.length, PadField(h), PadField(h) + 5);
        priority := Some(info);
      }
      var length: int := h.length;
      if Padded(h.flags) {
        length := length - 1;
      }
      if HasPriority(h.flags) {
        length := length - 5;
      }
      length := length - pad;
      var block :- ReadBlock(start, h, length, pad);
      return Ok(Headers(block, priority, EndStream(h.flags), EndHeaders(h.flags), Padded(h.flags)));
    }

    method ParsePriority(h: FrameHeader) returns (r: Checked<Payload>)
      requires AtPayload(h)
      modifies `pos
      ensures Valid() && (r.Ok? ==> pos == End())
      ensures Matches(r, 0, PrioritySpec(h, PayloadAt(old(pos), h)))
    {
      if h.length != 5 {
        return Err(FRAME_SIZE_ERROR);
      }
      if h.streamId == 0 {
        return Err(PROTOCOL_ERROR);
      }
      var info :- ReadPriority();
      return Ok(Priority(info));
    }

    method ParseRstStream(h: FrameHeader) returns (r: Checked<Payload>)
      requires AtPayload(h)
      modifies `pos
      ensures Valid() && (r.Ok? ==> pos == End())
      ensures Matches(r, 0, RstStreamSpec(h, PayloadAt(old(pos), h)))
    {
      if h.length != 4 {
        return Err(FRAME_SIZE_ERROR);
      }
      if h.streamId == 0 {
        return Err(PROTOCOL_ERROR);
      }
      var code :- ReadUint32();
      return Ok(RstStream(code));
    }

    method ParseSettings(h: FrameHeader) returns (r: Checked<Payload>)
      requires AtPayload(h)
      modifies `pos, `entriesRead
      ensures Valid() && (r.Ok? ==> pos == End())
      ensures Matches(r, entriesRead - old(entriesRead), SettingsSpec(h, PayloadAt(old(pos), h), old(Room())))
    {
      hide U16, U32, StreamIdOf;
      ghost var start, p := pos, PayloadAt(pos, h);
      if h.streamId != 0 {
        return Err(PROTOCOL_ERROR);
      }
      if Ack(h.flags) {
        if h.length != 0 {
          return Err(FRAME_SIZE_ERROR);
        }
        return Ok(Settings(true, None, []));
      }
      if h.length % 6 != 0 {
        return Err(FRAME_SIZE_ERROR);
      }
      var count := h.length / 6;
      var _ :- ReserveEntries(count);
      var settings: map<nat, nat> := map[];
      var entries: seq<Entry> := [];
      ghost var all := EntriesOf(p, count);
      for k := 0 to count
        invariant Valid() && payloadEnd == old(payloadEnd) && pos == start + k * 6
        invariant entriesRead == old(entriesRead) + count
        invariant entries == all[..k] && settings == Effective(entries)
        invariant FirstBad(all, 0) == FirstBad(all, k)
      {
        EntryAtCursor(data, start, h.length, k);
        hide EntryAt;
        var id :- ReadUint16();
        var value :- ReadUint32();
        assert all[k] == (id, value);
        if id == ENABLE_PUSH && value != 0 && value != 1 {
          return Err(PROTOCOL_ERROR);
        }
        if id == INITIAL_WINDOW_SIZE && value > MAX_STREAM_ID {
          return Err(FLOW_CONTROL_ERROR);
        }
        if id == MAX_FRAME_SIZE && !(DEFAULT_MAX_FRAME_SIZE <= value <= MAX_ALLOWED_FRAME_SIZE) {
          return Err(PROTOCOL_ERROR);
        }
        assert all[..k + 1] == entries + [(id, value)] && all[..k + 1][..k] == entries;
        entries := entries + [(id, value)];
        settings := settings[id := value];
      }
      assert all[..count] == all;
      return Ok(Settings(false, Some(settings), entries));
    }

    method ParsePushPromise(h: FrameHeader) returns (r: Checked<Payload>)
      requires AtPayload(h)
      modifies `pos
      ensures Valid() && (r.Ok? ==> pos == End())
      ensures Matches(r, 0, PushPromiseSpec(h, PayloadAt(old(pos), h), strictPadding))
    {
      hide U16, U32, StreamIdOf, PriorityOf, BlockOf, EndStream, EndHeaders, Padded, HasPriority;
      var start := pos;
      if h.streamId == 0 {
        return Err(PROTOCOL_ERROR);
      }
      var pad :- ReadPaddingLength(h);
      var promised :- ReadUint32WithReserved();
      Sub(data, start, h.length, PadField(h), PadField(h) + 4);
      if promised == 0 {
        return Err(PROTOCOL_ERROR);
      }
      var length: int := h.length;
      if Padded(h.flags) {
        length := length - 1;
      }
      length := length - 4;
      length := length - pad;
      var block :- ReadBlock(start, h, length, pad);
      return Ok(PushPromise(promised, block, EndHeaders(h.flags), Padded(h.flags)));
    }

    method ParsePing(h: FrameHeader) returns (r: Checked<Payload>)
      requires AtPayload(h)
      modifies `pos
      ensures Valid() && (r.Ok? ==> pos == End())
      ensures Matches(r, 0, PingSpec(h, PayloadAt(old(pos), h)))
    {
      if h.streamId != 0 {
        return Err(PROTOCOL_ERROR);
      }
      if h.length != 8 {
        return Err(FRAME_SIZE_ERROR);
      }
      var content :- Read(8);
      return Ok(Ping(content, Ack(h.flags)));
    }

    method ParseGoaway(h: FrameHeader) returns (r: Checked<Payload>)
      requires AtPayload(h)
      modifies `pos
      ensures Valid() && (r.Ok? ==> pos == End())
      ensures Matches(r, 0, GoawaySpec(h, PayloadAt(old(pos), h)))
    {
      ghost var start, p := pos, PayloadAt(pos, h);
      if h.streamId != 0 {
        return Err(PROTOCOL_ERROR);
      }
      if h.length < 8 {
        return Err(FRAME_SIZE_ERROR);
      }
      var last :- ReadUint32WithReserved();
      var code :- ReadUint32();
      Sub(data, start, h.length, 0, 4);
      Sub(data, start, h.length, 4, 8);
      var debug: Bytes := [];
      if h.length - 8 > 0 {
        debug :- Read(h.length - 8);
      }
      Sub(data, start, h.length, 8, h.length);
      return Ok(Goaway(last, code, debug));
    }

    method ParseWindowUpdate(h: FrameHeader) returns (r: Checked<Payload>)
      requires AtPayload(h)
      modifies `pos
      ensures Valid() && (r.Ok? ==> pos == End())
      ensures Matches(r, 0, WindowUpdateSpec(PayloadAt(old(pos), h)))
    {
      if h.length != 4 {
        return Err(FRAME_SIZE_ERROR);
      }
      var increment :- ReadUint32WithReserved();
      if increment == 0 {
        return Err(PROTOCOL_ERROR);
      }
      return Ok(WindowUpdate(increment));
    }

    method ParseContinuation(h: FrameHeader) returns (r: Checked<Payload>)
      requires AtPayload(h)
      modifies `pos
      ensures Valid() && (r.Ok? ==> pos == End())
      ensures Matches(r, 0, ContinuationSpec(h, PayloadAt(old(pos), h)))
    {
      if h.streamId == 0 {
        return Err(PROTOCOL_ERROR);
      }
      var block :- Read(h.length);
      return Ok(Continuation(block, EndHeaders(h.flags)));
    }

    method ParseAltSvc(h: FrameHeader) returns (r: Checked<Payload>)
      requires AtPayload(h)
      modifies `pos
      ensures Valid() && (r.Ok? ==> pos == End())
      ensures Matches(r, 0, AltSvcSpec(PayloadAt(old(pos), h)))
    {
      ghost var start, p := pos, PayloadAt(pos, h);
      if h.length < 2 {
        return Err(PROTOCOL_ERROR);
      }
      var originLength :- ReadUint16();
      Sub(data, start, h.length, 0, 2);
      if originLength > h.length - 2 {
        return Err(PROTOCOL_ERROR);
      }
      var origin :- Read(originLength);
      var value :- Read(h.length - 2 - originLength);
      Sub(data, start, h.length, 2, 2 + originLength);
      Sub(data, start, h.length, 2 + originLength, h.length);
      return Ok(AltSvc(origin, value));
    }

    method ParseOrigin(h: FrameHeader) returns (r: Checked<Payload>)
      requires AtPayload(h)
      modifies `pos, `entriesRead
      ensures Valid() && (r.Ok? ==> pos == End())
      ensures Matches(r, entriesRead - old(entriesRead), OriginSpec(h, PayloadAt(old(pos), h), old(Room())))
    {
      ghost var start, stop, room := pos, End(), Room();
      if h.streamId != 0 {
        return Err(PROTOCOL_ERROR);
      }
      var origins: seq<Bytes> := [];
      var bytesRead := 0;
      while bytesRead < h.length
        invariant Valid() && payloadEnd == Some(stop) && pos == start + bytesRead <= stop
        invariant entriesRead == old(entriesRead) + |origins|
        invariant OriginsFrom(data[pos..stop], origins, room) == OriginsFrom(data[start..stop], [], room)
      {
        OriginStep(data, pos, stop, origins, room);
        hide OriginsFrom, U16;
        if bytesRead + 2 > h.length {
          return Err(PROTOCOL_ERROR);
        }
        var originLength :- ReadUint16();
        bytesRead := bytesRead + 2;
        if bytesRead + originLength > h.length {
          return Err(PROTOCOL_ERROR);
        }
        var _ :- ReserveEntries(1);
        var origin :- Read(originLength);
        origins := origins + [origin];
        bytesRead := bytesRead + originLength;
      }
      return Ok(Origin(origins));
    }

    method ParsePriorityUpdate(h: FrameHeader) returns (r: Checked<Payload>)
      requires AtPayload(h)
      modifies `pos
      ensures Valid() && (r.Ok? ==> pos == End())
      ensures Matches(r, 0, PriorityUpdateSpec(h, PayloadAt(old(pos), h)))
    {
      ghost var start, p := pos, PayloadAt(pos, h);
      if h.streamId != 0 {
        return Err(PROTOCOL_ERROR);
      }
      if h.length < 4 {
        return Err(FRAME_SIZE_ERROR);
      }
      var id :- ReadUint32WithReserved();
      Sub(data, start, h.length, 0, 4);
      if id == 0 {
        return Err(PROTOCOL_ERROR);
      }
      var value :- Read(h.length - 4);
      Sub(data, start, h.length, 4, h.length);
      return Ok(PriorityUpdate(id, value));
    }

    method ParsePayloadByType(h: FrameHeader) returns (r: Checked<Payload>)
      requires AtPayload(h)
      modifies `pos, `entriesRead
      ensures Valid() && (r.Ok? ==> pos == End())
      ensures Matches(r, entriesRead - old(entriesRead), PayloadSpec(h, PayloadAt(old(pos), h), strictPadding, old(Room())))
    {
      hide DataSpec, HeadersSpec, PrioritySpec, RstStreamSpec, SettingsSpec,
           PushPromiseSpec, PingSpec, GoawaySpec, WindowUpdateSpec, ContinuationSpec, AltSvcSpec, OriginSpec, PriorityUpdateSpec;
      if h.kind == DATA { r := ParseData(h); }
      else if h.kind == HEADERS { r := ParseHeaders(h); }
      else if h.kind == PRIORITY { r := ParsePriority(h); }
      else if h.kind == RST_STREAM { r := ParseRstStream(h); }
      else if h.kind == SETTINGS { r := ParseSettings(h); }
      else if h.kind == PUSH_PROMISE { r := ParsePushPromise(h); }
      else if h.kind == PING { r := ParsePing(h); }
      else if h.kind == GOAWAY { r := ParseGoaway(h); }
      else if h.kind == WINDOW_UPDATE { r := ParseWindowUpdate(h); }
      else if h.kind == CONTINUATION { r := ParseContinuation(h); }
      else if h.kind == ALTSVC { r := ParseAltSvc(h); }
      else if h.kind == ORIGIN { r := ParseOrigin(h); }
      else if h.kind == PRIORITY_UPDATE { r := ParsePriorityUpdate(h); }
      else {
        var raw :- Read(h.length);
        r := Ok(Unknown(h.kind, raw, None));
      }
    }

    /** Reads one frame; whatever the payload was, a returned frame leaves the cursor on the next. */
    method ParseFrame() returns (r: Checked<ParsedFrame>)
      requires Valid() && payloadEnd.None?
      modifies this
      ensures Valid() && payloadEnd.None?
      ensures var spec := FrameSpec(data[old(pos)..], maxFrameSize, strictPadding, forensic, old(Room()));
              && entriesRead == old(entriesRead) + spec.used
              && (r.Ok? <==> spec.Frame?)
              && (r.Ok? ==> r.value == spec.frame && pos == old(pos) + |spec.frame.raw|)
              && (r.Err? ==> r.code == spec.code)
    {
      hide PayloadSpec, U16, U24, U32;
      var frameStart := pos;
      ghost var view := data[pos..];
      if |data| - pos < FRAME_HEADER_SIZE {
        return Err(FRAME_SIZE_ERROR);
      }
      var length :- ReadUint24();
      var kind :- ReadUint8();
      var flags :- ReadUint8();
      var streamId :- ReadUint32WithReserved();
      assert data[frameStart..frameStart + 3] == view[..3] && data[frameStart + 5..frameStart + 9] == view[5..9];
      if length > maxFrameSize {
        return Err(FRAME_SIZE_ERROR);
      }
      if length > |data| - pos {
        return Err(FRAME_SIZE_ERROR);
      }
      var h := FrameHeader(length, kind, flags, streamId);
      assert h == HeaderOf(view);
      var payloadStart := pos;
      var stop := payloadStart + length;
      assert PayloadAt(pos, h) == view[FRAME_HEADER_SIZE..FrameEnd(view)];
      assert data[frameStart..stop] == view[..FrameEnd(view)];
      payloadEnd := Some(stop);
      var payload := ParsePayloadByType(h);
      if payload.Ok? && pos - payloadStart != length {
        payload := Err(FRAME_SIZE_ERROR);
      }
      payloadEnd := None;
      if payload.Err? {
        if payload.code == ENHANCE_YOUR_CALM {
          return Err(payload.code);
        }
        if !forensic && kind != ALTSVC && kind != ORIGIN {
          return Err(payload.code);
        }
        pos := stop;
        payload := Ok(Unknown(kind, data[payloadStart..stop], Some(payload.code)));
      }
      return Ok(ParsedFrame(h, payload.value, data[frameStart..stop]));
    }
  }

  // ----------------------------------------------------------------- builder

  /** None stands for the ValueError on an oversized payload or stream identifier. */
  method BuildFrame(kind: byte, flags: byte, streamId: int, payload: Bytes) returns (r: Option<Bytes>)
    ensures r.Some? <==> |payload| <= MAX_ALLOWED_FRAME_SIZE && 0 <= streamId <= MAX_STREAM_ID
    ensures r.Some? ==> r.value == FrameBytes(kind, flags, streamId, payload)
  {
    if |payload| > MAX_ALLOWED_FRAME_SIZE {
      return None;
    }
    if !(0 <= streamId <= MAX_STREAM_ID) {
      return None;
    }
    var header := Put24(|payload|);
    header := header + [kind, flags];
    header := header + Put32(streamId);
    return Some(header + payload);
  }

  method BuildHeadersFrame(streamId: int, block: Bytes, endStream: bool, endHeaders: bool) returns (r: Option<Bytes>)
    ensures r.Some? <==> |block| <= MAX_ALLOWED_FRAME_SIZE && 0 <= streamId <= MAX_STREAM_ID
    ensures r.Some? ==> r.value == FrameBytes(HEADERS, HeaderFlags(endStream, endHeaders), streamId, block)
  {
    var flags: byte := 0;
    if endStream {
      flags := flags + 1;
    }
    if endHeaders {
      flags := flags + 4;
    }
    r := BuildFrame(HEADERS, flags, streamId, block);
  }

  /** `settings` lists the dictionary's items in insertion order. */
  method BuildSettingsFrame(settings: seq<Entry>, ack: bool) returns (r: Option<Bytes>)
    requires PackableEntries(settings)
    ensures var payload := if ack then [] else RenderEntries(settings);
            && (r.Some? <==> |payload| <= MAX_ALLOWED_FRAME_SIZE)
            && (r.Some? ==> r.value == FrameBytes(SETTINGS, if ack then 1 else 0, 0, payload))
  {
    var payload: Bytes := [];
    if !ack {
      for k := 0 to |settings|
        invariant payload == RenderEntries(settings[..k])
      {
        assert settings[..k + 1][..k] == settings[..k];
        payload := payload + Put16(settings[k].0) + Put32(settings[k].1);
      }
      assert settings[..|settings|] == settings;
    }
    r := BuildFrame(SETTINGS, if ack then 1 else 0, 0, payload);
  }
}
