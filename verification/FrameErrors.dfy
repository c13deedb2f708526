/** Which error a malformed payload gets, and the layout of frames, in the numbers of RFC 9113. */
module FrameErrors {
  import opened Wire
  import opened Frames
  import opened FrameProofs

  // -------------------------------------------------------------------- layout

  /** Flags are single bits of one octet. */
  lemma FlagsAreBits(flags: byte)
    ensures EndStream(flags) <==> (flags as bv8) & 0x01 == 0x01
    ensures Ack(flags) <==> (flags as bv8) & 0x01 == 0x01
    ensures EndHeaders(flags) <==> (flags as bv8) & 0x04 == 0x04
    ensures Padded(flags) <==> (flags as bv8) & 0x08 == 0x08
    ensures HasPriority(flags) <==> (flags as bv8) & 0x20 == 0x20
  {
    var b := flags as bv8;
    assert (b & 0x01 == 0x01) <==> b % 2 == 1;
    assert (b & 0x04 == 0x04) <==> b / 4 % 2 == 1;
    assert (b & 0x08 == 0x08) <==> b / 8 % 2 == 1;
    assert (b & 0x20 == 0x20) <==> b / 32 % 2 == 1;
  }

  /** Nine octets in front of the payload: length, type, flags, stream, high octet first. */
  lemma FrameLayout(kind: byte, flags: byte, streamId: nat, payload: Bytes)
    requires |payload| <= MAX_ALLOWED_FRAME_SIZE && streamId <= MAX_STREAM_ID
    ensures var wire, n := FrameBytes(kind, flags, streamId, payload), |payload|;
            && wire[..9] == [n / 0x1_0000, n / 0x100 % 0x100, n % 0x100, kind, flags, streamId / 0x100_0000,
                             streamId / 0x1_0000 % 0x100, streamId / 0x100 % 0x100, streamId % 0x100]
            && wire[9..] == payload
  {
    Digits24(|payload|);
    Digits32(streamId);
    hide Put24, Put32;
  }

  lemma Digit(n: nat)
    ensures n % 0x1_0000 / 0x100 == n / 0x100 % 0x100 && n % 0x1_0000 % 0x100 == n % 0x100
  {
    var a, b, c := n / 0x1_0000, n % 0x1_0000 / 0x100, n % 0x100;
    assert n == (a * 0x100 + b) * 0x100 + c;
  }

  lemma Digits24(n: nat)
    requires n < 0x100_0000
    ensures Put24(n) == [n / 0x1_0000, n / 0x100 % 0x100, n % 0x100]
  {
    Digit(n);
  }

  lemma Digits32(n: nat)
    requires n < 0x1_0000_0000
    ensures Put32(n) == [n / 0x100_0000, n / 0x1_0000 % 0x100, n / 0x100 % 0x100, n % 0x100]
  {
    Digit(n);
    assert n / 0x1_0000 / 0x100 == n / 0x100_0000;
  }

  // ------------------------------------------------------------------ SETTINGS

  lemma {:induction false} FirstUnacceptable(entries: seq<Entry>, i: nat, k: nat)
    requires i <= k < |entries| && !Acceptable(entries[k]) && forall j :: i <= j < k ==> Acceptable(entries[j])
    ensures FirstBad(entries, i) == Some(if entries[k].0 == 4 then 3 else 1)
    decreases k - i
  {
    if i < k { FirstUnacceptable(entries, i + 1, k); }
  }

  /** The i-th entry is the first that is not acceptable. */
  ghost predicate FirstOffence(entries: seq<Entry>, i: int) {
    0 <= i < |entries| && !Acceptable(entries[i]) && forall j :: 0 <= j < i ==> Acceptable(entries[j])
  }

  /** SETTINGS of whole entries within the budget are accepted exactly if every entry is acceptable; otherwise
      the first that is not decides: FLOW_CONTROL_ERROR for the initial window, PROTOCOL_ERROR for the others. */
  lemma SettingsAreJudged(h: FrameHeader, p: Bytes, strict: bool, room: Option<int>)
    requires |p| == h.length && h.kind == 4 && h.streamId == 0 && h.flags % 2 == 0
    requires |p| % 6 == 0 && (room.Some? ==> |p| / 6 <= room.value)
    ensures var entries, r := EntriesOf(p, |p| / 6), PayloadSpec(h, p, strict, room);
            && (r.Parsed? <==> forall i :: 0 <= i < |entries| ==> Acceptable(entries[i]))
            && (r.Parsed? ==> r.payload == Settings(false, Some(Effective(entries)), entries))
            && forall i :: FirstOffence(entries, i) ==> r == Malformed(if entries[i].0 == 4 then 3 else 1, |p| / 6)
  {
    hide EntryAt, Effective;
    var entries := EntriesOf(p, |p| / 6);
    GoodEntries(entries, 0);
    forall i | FirstOffence(entries, i)
      ensures FirstBad(entries, 0) == Some(if entries[i].0 == 4 then 3 else 1)
    {
      FirstUnacceptable(entries, 0, i);
    }
  }

  // --------------------------------------------------------------- other errors

  /** Payloads too long or too short for their type, on a stream where the type is allowed. */
  predicate WrongSize(h: FrameHeader, p: Bytes) {
    var padded := h.flags / 8 % 2 == 1;
    var pad := if padded then 1 else 0;
    match h.kind
    case 0 => h.streamId != 0 && padded && p == []
    case 1 => h.streamId != 0 && ((padded && p == []) || (h.flags / 32 % 2 == 1 && |p| < pad + 5 && (padded ==> p[0] < |p|)))
    case 2 => |p| != 5
    case 3 => |p| != 4
    case 4 => h.streamId == 0 && if h.flags % 2 == 1 then p != [] else |p| % 6 != 0
    case 5 => h.streamId != 0 && ((padded && p == []) || (|p| < pad + 4 && (padded ==> p[0] < |p|)))
    case 6 => h.streamId == 0 && |p| != 8
    case 7 => h.streamId == 0 && |p| < 8
    case 8 => |p| != 4
    case 16 => h.streamId == 0 && |p| < 4
    case _ => false
  }

  /** A malformed payload is a FRAME_SIZE_ERROR exactly if its size is wrong, ENHANCE_YOUR_CALM only for entries
      beyond the budget, FLOW_CONTROL_ERROR only for an initial window, and else a PROTOCOL_ERROR. */
  lemma ErrorsAreClassified(h: FrameHeader, p: Bytes, strict: bool, room: Option<int>)
    requires |p| == h.length && PayloadSpec(h, p, strict, room).Malformed?
    ensures var code := PayloadSpec(h, p, strict, room).code;
            && (code == 6 <==> WrongSize(h, p))
            && (code == 11 ==> room.Some? && (h.kind == 4 || h.kind == 12))
            && (h.kind == 4 ==> (code == 11 <==> h.streamId == 0 && h.flags % 2 == 0 && |p| % 6 == 0 && Overdrawn(|p| / 6, room)))
            && (code == 3 ==> h.kind == 4)
            && (code == 1 || code == 3 || code == 6 || code == 11)
  {
    hide U16, U32, Effective, EntriesOf, AllZero;
    if h.kind == 4 {
      if h.streamId == 0 && h.flags % 2 == 0 && |p| % 6 == 0 {
        FirstBadIsOrdinary(EntriesOf(p, |p| / 6), 0);
        FirstBadKinds(EntriesOf(p, |p| / 6), 0);
      }
    } else if h.kind == 12 {
      hide OriginsFrom;
      OriginErrors(p, [], room);
    }
  }

  lemma {:induction false} FirstBadKinds(entries: seq<Entry>, i: nat)
    ensures FirstBad(entries, i).Some? ==> FirstBad(entries, i).value == 1 || FirstBad(entries, i).value == 3
    decreases |entries| - i
  {
    if i < |entries| && BadSetting(entries[i]).None? { FirstBadKinds(entries, i + 1); }
  }

  lemma {:induction false} OriginErrors(p: Bytes, origins: seq<Bytes>, room: Option<int>)
    ensures var r := OriginsFrom(p, origins, room);
            r.Malformed? ==> r.code == 1 || (r.code == 11 && room.Some?)
    decreases |p|
  {
    if |p| >= 2 && 2 + U16(p[..2]) <= |p| {
      OriginErrors(p[2 + U16(p[..2])..], origins + [p[2..2 + U16(p[..2])]], room);
    }
  }
}
