/** The dynamic tables on both ends of the response direction (sections 4.2 to 4.4 of RFC 7541):
    hpack's encoder with the size-update collapse of `_ResponseEncoder`, and the client's decoder. */
module Hpack {
  import opened Wire

  datatype Field = Field(name: Bytes, value: Bytes)

  function FieldSize(f: Field): nat { |f.name| + |f.value| + 32 }

  /** Newest entry first. */
  function TableSize(t: seq<Field>): nat {
    if t == [] then 0 else TableSize(t[..|t| - 1]) + FieldSize(t[|t| - 1])
  }

  /** Drops the oldest entries until the rest fits. */
  function Evict(t: seq<Field>, limit: nat): (r: seq<Field>)
    ensures r <= t && TableSize(r) <= limit
    decreases |t|
  {
    if TableSize(t) <= limit then t else Evict(t[..|t| - 1], limit)
  }

  /** A table brought through every size in turn. */
  function Shrink(t: seq<Field>, sizes: seq<nat>): seq<Field> {
    if sizes == [] then t else Evict(Shrink(t, sizes[..|sizes| - 1]), sizes[|sizes| - 1])
  }

  function Smallest(sizes: seq<nat>): (m: nat)
    requires sizes != []
    ensures m in sizes && forall s :: s in sizes ==> m <= s
  {
    if |sizes| == 1 then sizes[0]
    else
      var m := Smallest(sizes[..|sizes| - 1]);
      var last := sizes[|sizes| - 1];
      assert sizes == sizes[..|sizes| - 1] + [last];
      if last < m then last else m
  }

  function Last(sizes: seq<nat>): nat
    requires sizes != []
  {
    sizes[|sizes| - 1]
  }

  function Collapse(sizes: seq<nat>): seq<nat> {
    if sizes == [] then []
    else if Smallest(sizes) == Last(sizes) then [Smallest(sizes)]
    else [Smallest(sizes), Last(sizes)]
  }

  /** Entries are added one by one, each evicting what no longer fits (section 4.4). */
  function InsertAll(t: seq<Field>, limit: nat, fields: seq<Field>): seq<Field> {
    if fields == [] then t
    else Evict([fields[|fields| - 1]] + InsertAll(t, limit, fields[..|fields| - 1]), limit)
  }

  // ------------------------------------------------------------- the encoder

  datatype Encoder = Encoder(table: seq<Field>, maxSize: nat, resized: bool, changes: seq<nat>)

  const DEFAULT_TABLE_SIZE: nat := 4096

  /** hpack's `header_table_size` setter: an assignment of the current size clears `resized`. */
  function Resize(e: Encoder, size: nat): Encoder {
    var resized := size != e.maxSize;
    Encoder(Evict(e.table, size), size, resized, if resized then e.changes + [size] else e.changes)
  }

  function ResizeAll(e: Encoder, sizes: seq<nat>): Encoder {
    if sizes == [] then e else Resize(ResizeAll(e, sizes[..|sizes| - 1]), sizes[|sizes| - 1])
  }

  /** What `encode` puts in front of the header block. */
  function Updates(e: Encoder): seq<nat> { if e.resized then Collapse(e.changes) else [] }

  /** The collapse rewrites the queue first; hpack then emits and forgets it only when `resized`. */
  function Encoded(e: Encoder, fields: seq<Field>): Encoder {
    Encoder(InsertAll(e.table, e.maxSize, fields), e.maxSize, false,
            if e.resized then [] else Collapse(e.changes))
  }

  class ResponseEncoder {
    var table: seq<Field>
    var maxSize: nat
    var resized: bool
    var changes: seq<nat>

    function Value(): Encoder
      reads this
    {
      Encoder(table, maxSize, resized, changes)
    }

    constructor ()
      ensures Value() == Encoder([], DEFAULT_TABLE_SIZE, false, [])
    {
      table, maxSize, resized, changes := [], DEFAULT_TABLE_SIZE, false, [];
    }

    method SetTableSize(size: nat)
      modifies this
      ensures Value() == Resize(old(Value()), size)
    {
      resized := size != maxSize;
      maxSize := size;
      while TableSize(table) > size
        modifies `table
        invariant Evict(table, size) == Evict(old(table), size)
        decreases |table|
      {
        table := table[..|table| - 1];
      }
      if resized {
        changes := changes + [size];
      }
    }

    method Add(f: Field)
      modifies `table
      ensures table == Evict([f] + old(table), maxSize)
    {
      if FieldSize(f) > maxSize {
        TooBig(f, table, maxSize);
        table := [];
      } else {
        table := [f] + table;
        while TableSize(table) > maxSize
          invariant Evict(table, maxSize) == Evict([f] + old(table), maxSize)
          decreases |table|
        {
          table := table[..|table| - 1];
        }
      }
    }

    /** `fields` are the literals the block adds to the table; the updates precede the block. */
    method Encode(fields: seq<Field>) returns (updates: seq<nat>)
      modifies this
      ensures updates == Updates(old(Value()))
      ensures Value() == Encoded(old(Value()), fields)
    {
      if changes != [] {
        var smallest, final := Smallest(changes), Last(changes);
        changes := if smallest == final then [smallest] else [smallest, final];
      }
      updates := [];
      if resized {
        updates := changes;
        changes := [];
        resized := false;
      }
      ghost var before := table;
      for k := 0 to |fields|
        invariant table == InsertAll(before, maxSize, fields[..k])
        invariant maxSize == old(maxSize) && !resized
        invariant changes == if old(resized) then [] else Collapse(old(changes))
      {
        assert fields[..k + 1][..k] == fields[..k];
        Add(fields[k]);
      }
      assert fields[..|fields|] == fields;
    }
  }

  lemma {:induction false} TooBig(f: Field, t: seq<Field>, limit: nat)
    requires FieldSize(f) > limit
    ensures Evict([f] + t, limit) == []
    decreases |t|
  {
    var all := [f] + t;
    AtLeastHead(all);
    if t == [] {
      assert all[..0] == [];
    } else {
      assert all[..|all| - 1] == [f] + t[..|t| - 1];
      TooBig(f, t[..|t| - 1], limit);
    }
  }

  lemma {:induction false} AtLeastHead(t: seq<Field>)
    requires t != []
    ensures TableSize(t) >= FieldSize(t[0])
  {
    if |t| > 1 {
      AtLeastHead(t[..|t| - 1]);
    }
  }

  // ------------------------------------------------------------- the decoder

  datatype Decoder = Decoder(table: seq<Field>, maxSize: nat)

  function Decoded(d: Decoder, updates: seq<nat>, fields: seq<Field>): Decoder {
    var maxSize := if updates == [] then d.maxSize else Last(updates);
    Decoder(InsertAll(Shrink(d.table, updates), maxSize, fields), maxSize)
  }

  // ------------------------------------------------- eviction composes by min

  lemma {:induction false} EvictTwice(t: seq<Field>, a: nat, b: nat)
    ensures Evict(Evict(t, a), b) == Evict(t, if a < b then a else b)
    decreases |t|
  {
    var m := if a < b then a else b;
    if TableSize(t) > a {
      EvictTwice(t[..|t| - 1], a, b);
      assert Evict(t, a) == Evict(t[..|t| - 1], a) && Evict(t, m) == Evict(t[..|t| - 1], m);
    } else {
      assert Evict(t, a) == t;
    }
  }

  /** Going through every size leaves what the smallest one leaves. */
  lemma {:induction false} ShrinkIsSmallest(t: seq<Field>, sizes: seq<nat>)
    requires sizes != []
    ensures Shrink(t, sizes) == Evict(t, Smallest(sizes))
  {
    var init, last := sizes[..|sizes| - 1], sizes[|sizes| - 1];
    if init != [] {
      ShrinkIsSmallest(t, init);
      EvictTwice(t, Smallest(init), last);
    } else {
      assert Shrink(t, init) == t;
    }
  }

  /** Section 4.2 of RFC 7541: the smallest and the final size, smallest first, say it all. */
  lemma CollapsePreservesTable(t: seq<Field>, sizes: seq<nat>)
    ensures Shrink(t, Collapse(sizes)) == Shrink(t, sizes)
    ensures |Collapse(sizes)| <= 2
    ensures sizes != [] ==> Collapse(sizes) != [] && Last(Collapse(sizes)) == Last(sizes)
    ensures forall s :: s in Collapse(sizes) ==> s in sizes && s <= Last(sizes)
  {
    if sizes != [] {
      ShrinkIsSmallest(t, sizes);
      ShrinkIsSmallest(t, Collapse(sizes));
    }
  }

  // ------------------------------------------------------------ whole sessions

  function After(current: nat, sizes: seq<nat>): nat { if sizes == [] then current else Last(sizes) }

  /** The sizes `apply_settings` lets through: those that differ from the size before them. */
  function Effectual(current: nat, sizes: seq<nat>): seq<nat> {
    if sizes == [] then []
    else
      var earlier := Effectual(current, sizes[..|sizes| - 1]);
      if Last(sizes) == After(current, earlier) then earlier else earlier + [Last(sizes)]
  }

  /** `Announced` is one SETTINGS frame's table sizes in wire order; `Block` is one response block. */
  datatype Step = Announced(sizes: seq<nat>) | Block(fields: seq<Field>)

  datatype Ends = Ends(encoder: Encoder, decoder: Decoder)

  const FRESH := Ends(Encoder([], DEFAULT_TABLE_SIZE, false, []), Decoder([], DEFAULT_TABLE_SIZE))

  function Advance(ends: Ends, step: Step): Ends {
    match step
    case Announced(sizes) =>
      ends.(encoder := ResizeAll(ends.encoder, Effectual(ends.encoder.maxSize, sizes)))
    case Block(fields) =>
      Ends(Encoded(ends.encoder, fields), Decoded(ends.decoder, Updates(ends.encoder), fields))
  }

  function Exchange(steps: seq<Step>): Ends {
    if steps == [] then FRESH
    else Advance(Exchange(steps[..|steps| - 1]), steps[|steps| - 1])
  }

  /** The decoder lags behind by exactly the queued sizes, and a queue is always announced. */
  ghost predicate InStep(ends: Ends) {
    var e, d := ends.encoder, ends.decoder;
    && (e.resized <==> e.changes != [])
    && e.table == Shrink(d.table, e.changes)
    && e.maxSize == (if e.changes == [] then d.maxSize else Last(e.changes))
  }

  ghost predicate Effective(current: nat, sizes: seq<nat>) {
    sizes == [] || (Effective(current, sizes[..|sizes| - 1]) && Last(sizes) != After(current, sizes[..|sizes| - 1]))
  }

  lemma {:induction false} EffectualIsEffective(current: nat, sizes: seq<nat>)
    ensures Effective(current, Effectual(current, sizes))
    ensures After(current, Effectual(current, sizes)) == After(current, sizes)
  {
    if sizes != [] {
      EffectualIsEffective(current, sizes[..|sizes| - 1]);
      var earlier := Effectual(current, sizes[..|sizes| - 1]);
      assert (earlier + [Last(sizes)])[..|earlier|] == earlier;
    }
  }

  lemma OneChange(ends: Ends, size: nat)
    requires InStep(ends) && size != ends.encoder.maxSize
    ensures InStep(ends.(encoder := Resize(ends.encoder, size)))
    ensures Resize(ends.encoder, size).changes == ends.encoder.changes + [size]
  {
    assert (ends.encoder.changes + [size])[..|ends.encoder.changes|] == ends.encoder.changes;
  }

  lemma {:induction false} ResizeKeepsStep(ends: Ends, sizes: seq<nat>)
    requires InStep(ends) && Effective(ends.encoder.maxSize, sizes)
    ensures InStep(ends.(encoder := ResizeAll(ends.encoder, sizes)))
    ensures ResizeAll(ends.encoder, sizes).maxSize == After(ends.encoder.maxSize, sizes)
    ensures ResizeAll(ends.encoder, sizes).changes == ends.encoder.changes + sizes
  {
    if sizes == [] {
      assert ends.encoder.changes + sizes == ends.encoder.changes;
    } else {
      var init, last := sizes[..|sizes| - 1], Last(sizes);
      ResizeKeepsStep(ends, init);
      hide InStep, Evict;
      OneChange(ends.(encoder := ResizeAll(ends.encoder, init)), last);
      assert ends.encoder.changes + sizes == ends.encoder.changes + init + [last];
    }
  }

  lemma AdvanceKeepsStep(ends: Ends, step: Step)
    requires InStep(ends)
    ensures InStep(Advance(ends, step))
  {
    match step {
      case Announced(sizes) =>
        EffectualIsEffective(ends.encoder.maxSize, sizes);
        ResizeKeepsStep(ends, Effectual(ends.encoder.maxSize, sizes));
      case Block(fields) => BlockSynchronises(ends, fields);
    }
  }

  lemma BlockSynchronises(ends: Ends, fields: seq<Field>)
    requires InStep(ends)
    ensures var next := Advance(ends, Block(fields));
            && next.encoder.table == next.decoder.table && next.encoder.maxSize == next.decoder.maxSize
            && next.encoder.changes == [] && !next.encoder.resized
    ensures Updates(ends.encoder) == Collapse(ends.encoder.changes)
  {
    CollapsePreservesTable(ends.decoder.table, ends.encoder.changes);
  }

  lemma {:induction false} RunsStayInStep(steps: seq<Step>)
    ensures InStep(Exchange(steps))
  {
    if steps != [] {
      RunsStayInStep(steps[..|steps| - 1]);
      AdvanceKeepsStep(Exchange(steps[..|steps| - 1]), steps[|steps| - 1]);
    }
  }

  /** Over every exchange of SETTINGS frames and responses: after a response both ends hold the same
      table under the same limit, although the client only ever saw the collapsed updates. */
  lemma TablesAgreeAfterEveryResponse(steps: seq<Step>, fields: seq<Field>)
    ensures var before := Exchange(steps);
            var after := Exchange(steps + [Block(fields)]);
            && after.encoder.table == after.decoder.table
            && after.encoder.maxSize == after.decoder.maxSize
            && after.encoder.changes == []
            && Updates(before.encoder) == Collapse(before.encoder.changes)
            && after.decoder == Decoded(before.decoder, Updates(before.encoder), fields)
  {
    RunsStayInStep(steps);
    assert (steps + [Block(fields)])[..|steps|] == steps;
    BlockSynchronises(Exchange(steps), fields);
  }

  lemma {:induction false} ResizeAllFacts(e: Encoder, sizes: seq<nat>)
    requires sizes != []
    ensures var r := ResizeAll(e, sizes);
            r.maxSize == Last(sizes) && (r.resized <==> Last(sizes) != After(e.maxSize, sizes[..|sizes| - 1]))
  {
    var init := sizes[..|sizes| - 1];
    if init != [] {
      ResizeAllFacts(e, init);
    }
  }

  /** Without the filter the queue would be emitted exactly when the last assignment was a change. */
  lemma SuppressedExactlyByFinalNoOp(e: Encoder, sizes: seq<nat>)
    requires e.changes == [] && !e.resized && sizes != []
    ensures var r := ResizeAll(e, sizes);
            Updates(r) == Collapse(r.changes) <==>
            r.changes == [] || Last(sizes) != After(e.maxSize, sizes[..|sizes| - 1])
  {
    ResizeAllFacts(e, sizes);
    var r := ResizeAll(e, sizes);
    CollapsePreservesTable([], r.changes);
  }

  /** A concrete loss: shrinking to zero twice without the filter leaves the client one entry behind. */
  lemma UnfilteredNoOpLosesAnUpdate(f: Field)
    requires FieldSize(f) <= DEFAULT_TABLE_SIZE
    ensures var e := Encoder([f], DEFAULT_TABLE_SIZE, false, []);
            var d := Decoder([f], DEFAULT_TABLE_SIZE);
            var unfiltered := ResizeAll(e, [0, 0]);
            && unfiltered.changes == [0] && Updates(unfiltered) == []
            && Encoded(unfiltered, []).table != Decoded(d, Updates(unfiltered), []).table
            && Updates(ResizeAll(e, Effectual(DEFAULT_TABLE_SIZE, [0, 0]))) == [0]
  {
    var e := Encoder([f], DEFAULT_TABLE_SIZE, false, []);
    assert [0, 0][..1] == [0] && [0][..0] == [] && [f][..0] == [];
    assert ResizeAll(e, [0]) == Resize(e, 0);
    assert ResizeAll(e, [0, 0]) == Resize(Resize(e, 0), 0);
    assert Effectual(DEFAULT_TABLE_SIZE, [0]) == [0] && Effectual(DEFAULT_TABLE_SIZE, [0, 0]) == [0];
  }
}
