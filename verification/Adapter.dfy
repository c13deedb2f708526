/** `H2Adapter.apply_settings`: filtering and replaying SETTINGS entries has the effect of processing
    them in wire order (section 6.5.3 of RFC 9113). */
module Adapter {
  import opened Wire
  import opened Frames
  import opened H2
  import Hpack

  // ------------------------------------------------------------ specification

  /** The HEADER_TABLE_SIZE values among `entries`, in order. */
  function TableSizes(entries: seq<Entry>): seq<nat> {
    if entries == [] then []
    else
      var earlier, e := TableSizes(entries[..|entries| - 1]), entries[|entries| - 1];
      if e.0 == HEADER_TABLE_SIZE then earlier + [e.1] else earlier
  }

  /** Supported entries, without assignments of the table size already in force. */
  function Working(table: nat, entries: seq<Entry>): seq<Entry> {
    if entries == [] then []
    else
      var earlier, e := Working(table, entries[..|entries| - 1]), entries[|entries| - 1];
      if !Supported(e.0) then earlier
      else if e.0 == HEADER_TABLE_SIZE && e.1 == Hpack.After(table, TableSizes(earlier)) then earlier
      else earlier + [e]
  }

  predicate DistinctIds(entries: seq<Entry>) {
    forall i, j :: 0 <= i < j < |entries| ==> entries[i].0 != entries[j].0
  }

  /** One synthetic frame per entry; every acknowledgement but the last is discarded. */
  function Replay(c: Connection, entries: seq<Entry>, i: nat): Received
    requires i < |entries|
    decreases |entries| - i
  {
    var r := ReceiveSettings(c, [entries[i]]);
    if !r.Received? || i == |entries| - 1 then r
    else if r.c.outbound != [SettingsAck] then Broken(r.c)
    else Replay(r.c.(outbound := []), entries, i + 1)
  }

  function ApplySettings(c: Connection, entries: seq<Entry>): Received {
    var working := Working(Setting(c, HEADER_TABLE_SIZE), entries);
    var changes := |TableSizes(working)|;
    if c.tableChanges + changes > MAX_HEADER_TABLE_SIZE_CHANGES then Terminate(c, ENHANCE_YOUR_CALM)
    else
      var counted := c.(tableChanges := c.tableChanges + changes);
      if DistinctIds(working) then ReceiveSettings(counted, working) else Replay(counted, working, 0)
  }

  // ---------------------------------------------------------------- reference

  function SupportedOnly(entries: seq<Entry>): seq<Entry> {
    if entries == [] then []
    else
      var earlier, e := SupportedOnly(entries[..|entries| - 1]), entries[|entries| - 1];
      if Supported(e.0) then earlier + [e] else earlier
  }

  /** The initial window in force after `entries`. */
  function WindowAfter(initial: nat, entries: seq<Entry>): nat {
    if entries == [] then initial
    else if entries[|entries| - 1].0 == INITIAL_WINDOW_SIZE then entries[|entries| - 1].1
    else WindowAfter(initial, entries[..|entries| - 1])
  }

  /** The k-th entry is one section 6.5.2 forbids, or it overflows a stream window on arrival. */
  predicate Faulty(c: Connection, e: Entry) {
    Supported(e.0) && (InvalidSetting(e).Some? || (e.0 == INITIAL_WINDOW_SIZE && Overflows(c, e.1)))
  }

  predicate SomeFaulty(c: Connection, entries: seq<Entry>) {
    exists k :: 0 <= k < |entries| && Faulty(c, entries[k])
  }

  /** The state after `entries`, in closed form: the last value of every setting, every live window
      moved by the net change of the initial window, the table brought through every size. */
  function Applied(c: Connection, entries: seq<Entry>): Connection {
    c.(remote := c.remote + Effective(entries),
       streams := Shift(c.streams, WindowAfter(Setting(c, INITIAL_WINDOW_SIZE), entries) - Setting(c, INITIAL_WINDOW_SIZE)),
       encoder := Hpack.ResizeAll(c.encoder, TableSizes(entries)))
  }

  // ------------------------------------------------------------------- method

  lemma WorkingNext(table: nat, before: seq<Entry>, e: Entry)
    ensures var w := Working(table, before);
            Working(table, before + [e]) ==
              if !Supported(e.0) || (e.0 == HEADER_TABLE_SIZE && e.1 == Hpack.After(table, TableSizes(w))) then w else w + [e]
  {
    assert (before + [e])[..|before|] == before;
  }

  lemma SizesNext(table: nat, w: seq<Entry>, e: Entry)
    ensures TableSizes(w + [e]) == if e.0 == HEADER_TABLE_SIZE then TableSizes(w) + [e.1] else TableSizes(w)
    ensures e.0 == HEADER_TABLE_SIZE ==> Hpack.After(table, TableSizes(w + [e])) == e.1
  {
    assert (w + [e])[..|w|] == w;
  }

  /** Drops unsupported entries and table sizes already in force, and counts the changes that remain. */
  method FilterEntries(table: nat, entries: seq<Entry>) returns (working: seq<Entry>, tableChanges: nat)
    ensures working == Working(table, entries) && tableChanges == |TableSizes(working)|
  {
    working := [];
    var tableSize := table;
    tableChanges := 0;
    for k := 0 to |entries|
      invariant working == Working(table, entries[..k])
      invariant tableSize == Hpack.After(table, TableSizes(working)) && tableChanges == |TableSizes(working)|
    {
      hide Working, TableSizes, Hpack.After;
      var e := entries[k];
      assert entries[..k + 1] == entries[..k] + [e];
      WorkingNext(table, entries[..k], e);
      SizesNext(table, working, e);
      if !Supported(e.0) {
        continue;
      }
      if e.0 == HEADER_TABLE_SIZE {
        if e.1 == tableSize {
          continue;
        }
        tableSize := e.1;
        tableChanges := tableChanges + 1;
      }
      working := working + [e];
    }
    assert entries[..|entries|] == entries;
  }

  /** The adapter's own code, on a connection whose earlier output has been flushed. */
  method ApplySettingsInOrder(c: Connection, entries: seq<Entry>) returns (r: Received)
    ensures r == ApplySettings(c, entries)
  {
    hide Working, TableSizes, ReceiveSettings, Replay, DistinctIds;
    var working, tableChanges := FilterEntries(Setting(c, HEADER_TABLE_SIZE), entries);
    if c.tableChanges + tableChanges > MAX_HEADER_TABLE_SIZE_CHANGES {
      return Terminate(c, ENHANCE_YOUR_CALM);
    }
    var h := c.(tableChanges := c.tableChanges + tableChanges);
    var distinct := IdsAreDistinct(working);
    if distinct {
      return ReceiveSettings(h, working);
    }
    DistinctOrNot(working);
    r := ReplayInOrder(h, working);
  }

  method ReplayInOrder(c: Connection, working: seq<Entry>) returns (r: Received)
    requires working != []
    ensures r == Replay(c, working, 0)
  {
    var h := c;
    r := Received(h, []);
    for i := 0 to |working|
      invariant i < |working| ==> Replay(h, working, i) == Replay(c, working, 0)
      invariant i == |working| ==> r == Replay(c, working, 0)
    {
      r := ReceiveSettings(h, [working[i]]);
      if !r.Received? {
        return;
      }
      hide ReceiveSettings;
      h := r.c;
      if i != |working| - 1 {
        var acknowledgement := h.outbound;
        h := h.(outbound := []);
        if acknowledgement != [SettingsAck] {
          return Broken(r.c);
        }
      }
    }
  }

  /** `len(working) == len(dict(working))`. */
  method IdsAreDistinct(entries: seq<Entry>) returns (distinct: bool)
    ensures distinct == DistinctIds(entries)
  {
    var seen: set<nat> := {};
    for k := 0 to |entries|
      invariant forall id :: id in seen <==> exists i :: 0 <= i < k && entries[i].0 == id
      invariant DistinctIds(entries[..k])
    {
      if entries[k].0 in seen {
        var i :| 0 <= i < k && entries[i].0 == entries[k].0;
        return false;
      }
      seen := seen + {entries[k].0};
    }
    assert entries[..|entries|] == entries;
    return true;
  }

  // ------------------------------------------------------------- one entry

  lemma EffectiveOne(e: Entry)
    ensures Effective([e]) == map[e.0 := e.1] && FirstInvalid([e]) == InvalidSetting(e)
  {
    assert [e][..0] == [] && [e][1..] == [];
  }

  lemma OneEntrySettles(c: Connection, e: Entry)
    requires Settled(c)
    ensures var r := ReceiveSettings(c, [e]); r.Received? ==> Settled(r.c)
  {
    EffectiveOne(e);
  }

  // ------------------------------------------------------- replay, entry by entry

  lemma OverflowsLater(c: Connection, before: seq<Entry>, value: nat)
    requires Settled(c)
    ensures Overflows(Applied(c, before), value) <==> Overflows(c, value)
  {
    EffectiveWindow(c, before);
    var d := Applied(c, before);
    if Overflows(c, value) {
      var id :| id in c.streams && Live(c.streams[id])
                && c.streams[id].window + value - Setting(c, INITIAL_WINDOW_SIZE) > MAX_WINDOW;
      assert id in d.streams && Live(d.streams[id]);
    }
    if Overflows(d, value) {
      var id :| id in d.streams && Live(d.streams[id])
                && d.streams[id].window + value - Setting(d, INITIAL_WINDOW_SIZE) > MAX_WINDOW;
      assert id in c.streams && Live(c.streams[id]);
    }
  }

  lemma {:induction false} EffectiveWindow(c: Connection, entries: seq<Entry>)
    requires Settled(c)
    ensures INITIAL_WINDOW_SIZE in c.remote + Effective(entries)
    ensures (c.remote + Effective(entries))[INITIAL_WINDOW_SIZE] == WindowAfter(Setting(c, INITIAL_WINDOW_SIZE), entries)
  {
    if entries != [] {
      EffectiveWindow(c, entries[..|entries| - 1]);
    }
  }

  lemma {:induction false} ResizedMax(e: Hpack.Encoder, sizes: seq<nat>)
    ensures Hpack.ResizeAll(e, sizes).maxSize == Hpack.After(e.maxSize, sizes)
  {
  }

  lemma {:induction false} EffectiveTable(c: Connection, entries: seq<Entry>)
    requires Settled(c)
    ensures HEADER_TABLE_SIZE in c.remote + Effective(entries)
    ensures (c.remote + Effective(entries))[HEADER_TABLE_SIZE] == Hpack.After(Setting(c, HEADER_TABLE_SIZE), TableSizes(entries))
  {
    if entries != [] {
      EffectiveTable(c, entries[..|entries| - 1]);
    }
  }

  lemma ShiftTwice(streams: map<nat, Stream>, a: int, b: int)
    ensures Shift(Shift(streams, a), b) == Shift(streams, a + b)
  {
  }

  lemma ShiftNothing(streams: map<nat, Stream>)
    ensures Shift(streams, 0) == streams
  {
  }

  lemma EffectiveNext(c: Connection, s: seq<Entry>, e: Entry)
    ensures c.remote + Effective(s + [e]) == (c.remote + Effective(s))[e.0 := e.1]
  {
    assert (s + [e])[..|s|] == s;
  }

  lemma WindowNext(initial: nat, before: seq<Entry>, e: Entry)
    ensures WindowAfter(initial, before + [e]) == if e.0 == INITIAL_WINDOW_SIZE then e.1 else WindowAfter(initial, before)
  {
    assert (before + [e])[..|before|] == before;
  }

  lemma ResizeNext(encoder: Hpack.Encoder, before: seq<Entry>, e: Entry)
    ensures var now := Hpack.ResizeAll(encoder, TableSizes(before));
            Hpack.ResizeAll(encoder, TableSizes(before + [e])) == if e.0 == HEADER_TABLE_SIZE then Hpack.Resize(now, e.1) else now
  {
    assert (before + [e])[..|before|] == before;
    var sizes := TableSizes(before);
    hide TableSizes, Hpack.Resize;
    SizesNext(0, before, e);
    assert (sizes + [e.1])[..|sizes|] == sizes;
  }

  lemma WindowInForce(c: Connection, before: seq<Entry>)
    requires Settled(c)
    ensures Setting(Applied(c, before), INITIAL_WINDOW_SIZE) == WindowAfter(Setting(c, INITIAL_WINDOW_SIZE), before)
  {
    EffectiveWindow(c, before);
  }

  lemma AppliedNext(c: Connection, before: seq<Entry>, e: Entry)
    requires Settled(c) && Settled(Applied(c, before))
    ensures var d := Applied(c, before);
            var delta := if e.0 == INITIAL_WINDOW_SIZE then (e.1 as int) - Setting(d, INITIAL_WINDOW_SIZE) else 0;
            Applied(c, before + [e]) ==
            d.(remote := d.remote[e.0 := e.1],
               streams := Shift(d.streams, delta),
               encoder := if e.0 == HEADER_TABLE_SIZE then Hpack.Resize(d.encoder, e.1) else d.encoder)
  {
    hide Shift, Effective, WindowAfter, TableSizes, Hpack.ResizeAll, Hpack.Resize, Settled, Setting;
    WindowInForce(c, before);
    var initial := Setting(c, INITIAL_WINDOW_SIZE);
    WindowNext(initial, before, e);
    ShiftTwice(c.streams, WindowAfter(initial, before) - initial, WindowAfter(initial, before + [e]) - WindowAfter(initial, before));
    EffectiveNext(c, before, e);
    ResizeNext(c.encoder, before, e);
  }

  /** What h2 does with a frame of one supported entry. */
  lemma OneEntryFrame(d: Connection, e: Entry)
    requires Supported(e.0)
    ensures var r := ReceiveSettings(d, [e]);
            var delta := if e.0 == INITIAL_WINDOW_SIZE then (e.1 as int) - Setting(d, INITIAL_WINDOW_SIZE) else 0;
            if InvalidSetting(e).Some? || (e.0 == INITIAL_WINDOW_SIZE && Overflows(d, e.1))
            then r.Refused? && r.c.outbound == d.outbound + [GoawaySent(d.highest, r.code)]
            else r == Received(Queue(d.(remote := d.remote[e.0 := e.1],
                                        streams := Shift(d.streams, delta),
                                        encoder := if e.0 == HEADER_TABLE_SIZE then Hpack.Resize(d.encoder, e.1) else d.encoder),
                                     [SettingsAck]), [])
  {
    hide Shift, Overflows, InvalidSetting, Hpack.Resize;
    EffectiveOne(e);
    assert d.remote + map[e.0 := e.1] == d.remote[e.0 := e.1];
  }

  /** One replayed entry moves the closed form forward by one. */
  lemma ReplayedEntry(c: Connection, before: seq<Entry>, e: Entry)
    requires Settled(c) && Settled(Applied(c, before)) && Supported(e.0)
    ensures var d := Applied(c, before);
            var r := ReceiveSettings(d, [e]);
            if Faulty(c, e) then r.Refused? && r.c.outbound == d.outbound + [GoawaySent(c.highest, r.code)]
            else r == Received(Queue(Applied(c, before + [e]), [SettingsAck]), [])
  {
    hide ReceiveSettings, Overflows, InvalidSetting, Shift, Effective, WindowAfter, TableSizes, Hpack.ResizeAll, Hpack.Resize;
    OverflowsLater(c, before, e.1);
    AppliedNext(c, before, e);
    OneEntryFrame(Applied(c, before), e);
  }

  lemma {:induction false} ReplayFrom(c: Connection, w: seq<Entry>, i: nat)
    requires c.outbound == [] && i < |w| && Settled(c) && Settled(Applied(c, w[..i]))
    requires forall k :: 0 <= k < |w| ==> Supported(w[k].0)
    requires forall k :: 0 <= k < i ==> !Faulty(c, w[k])
    ensures var r := Replay(Applied(c, w[..i]), w, i);
            if SomeFaulty(c, w) then r.Refused? && r.c.outbound == [GoawaySent(c.highest, r.code)]
            else r == Received(Queue(Applied(c, w), [SettingsAck]), [])
    decreases |w| - i
  {
    var d := Applied(c, w[..i]);
    ReplayedEntry(c, w[..i], w[i]);
    OneEntrySettles(d, w[i]);
    assert w[..i] + [w[i]] == w[..i + 1];
    hide ReceiveSettings, Faulty;
    if !Faulty(c, w[i]) {
      if i == |w| - 1 {
        assert w[..i + 1] == w;
      } else {
        assert Queue(Applied(c, w[..i + 1]), [SettingsAck]).(outbound := []) == Applied(c, w[..i + 1]);
        ReplayFrom(c, w, i + 1);
      }
    }
  }

  lemma AppliedNothing(c: Connection)
    requires Settled(c)
    ensures Applied(c, []) == c
  {
    ShiftNothing(c.streams);
    assert c.remote + Effective([]) == c.remote;
  }

  // --------------------------------------------------------- a single dictionary

  lemma {:induction false} FirstInvalidIff(entries: seq<Entry>)
    ensures FirstInvalid(entries).Some? <==> exists k :: 0 <= k < |entries| && InvalidSetting(entries[k]).Some?
  {
    if entries != [] {
      FirstInvalidIff(entries[1..]);
      if k :| 0 <= k < |entries| && InvalidSetting(entries[k]).Some? {
        assert k > 0 ==> entries[1..][k - 1] == entries[k];
      }
      if k :| 0 <= k < |entries[1..]| && InvalidSetting(entries[1..][k]).Some? {
        assert entries[k + 1] == entries[1..][k];
      }
    }
  }

  lemma {:induction false} EffectiveKeys(entries: seq<Entry>, id: nat)
    ensures id in Effective(entries) <==> exists k :: 0 <= k < |entries| && entries[k].0 == id
  {
    if entries != [] {
      var n := |entries| - 1;
      EffectiveKeys(entries[..n], id);
      if k :| 0 <= k < |entries| && entries[k].0 == id {
        assert k < n ==> entries[..n][k] == entries[k];
      }
    }
  }

  lemma {:induction false} DistinctValue(entries: seq<Entry>, k: nat)
    requires DistinctIds(entries) && k < |entries|
    ensures entries[k].0 in Effective(entries) && Effective(entries)[entries[k].0] == entries[k].1
  {
    var n := |entries| - 1;
    if k < n {
      DistinctValue(entries[..n], k);
      assert entries[..n][k] == entries[k];
    }
  }

  lemma {:induction false} DistinctTable(entries: seq<Entry>)
    requires DistinctIds(entries)
    ensures TableSizes(entries) ==
            if HEADER_TABLE_SIZE in Effective(entries) then [Effective(entries)[HEADER_TABLE_SIZE]] else []
  {
    if entries != [] {
      var n := |entries| - 1;
      DistinctTable(entries[..n]);
      EffectiveKeys(entries[..n], HEADER_TABLE_SIZE);
      assert forall k :: 0 <= k < n ==> entries[..n][k].0 != entries[n].0;
    }
  }

  lemma DictionaryIsFold(c: Connection, w: seq<Entry>)
    requires Settled(c) && DistinctIds(w) && !SomeFaulty(c, w)
    requires forall k :: 0 <= k < |w| ==> Supported(w[k].0)
    ensures ReceiveSettings(c, w) == Received(Queue(Applied(c, w), [SettingsAck]), [])
  {
    FirstInvalidIff(w);
    EffectiveKeys(w, INITIAL_WINDOW_SIZE);
    EffectiveWindow(c, w);
    DistinctTable(w);
    var values := Effective(w);
    if INITIAL_WINDOW_SIZE in values {
      var k :| 0 <= k < |w| && w[k].0 == INITIAL_WINDOW_SIZE;
      DistinctValue(w, k);
      assert !Faulty(c, w[k]);
    }
    assert forall k :: 0 <= k < |w| ==> !Faulty(c, w[k]);
    if HEADER_TABLE_SIZE in values {
      var v := values[HEADER_TABLE_SIZE];
      assert [v][..0] == [];
      assert Hpack.ResizeAll(c.encoder, [v]) == Hpack.Resize(Hpack.ResizeAll(c.encoder, []), v);
    }
  }

  lemma DictionaryFails(c: Connection, w: seq<Entry>)
    requires Settled(c) && DistinctIds(w) && SomeFaulty(c, w)
    ensures var r := ReceiveSettings(c, w);
            r.Refused? && r.c == Queue(c, [GoawaySent(c.highest, r.code)])
  {
    FirstInvalidIff(w);
    var k :| 0 <= k < |w| && Faulty(c, w[k]);
    if InvalidSetting(w[k]).None? {
      DistinctValue(w, k);
    }
  }

  // -------------------------------------------------------------- the filter

  lemma {:induction false} FilteredSizes(table: nat, entries: seq<Entry>)
    ensures TableSizes(Working(table, entries)) == Hpack.Effectual(table, TableSizes(entries))
  {
    if entries != [] {
      var n := |entries| - 1;
      FilteredSizes(table, entries[..n]);
      var earlier, sizes := Working(table, entries[..n]), TableSizes(entries[..n]);
      assert (earlier + [entries[n]])[..|earlier|] == earlier;
      assert (sizes + [entries[n].1])[..|sizes|] == sizes;
    }
  }

  lemma SupportedNext(before: seq<Entry>, e: Entry)
    ensures SupportedOnly(before + [e]) == if Supported(e.0) then SupportedOnly(before) + [e] else SupportedOnly(before)
  {
    assert (before + [e])[..|before|] == before;
  }

  lemma {:induction false} FilteredValues(c: Connection, entries: seq<Entry>)
    requires Settled(c)
    ensures c.remote + Effective(Working(Setting(c, HEADER_TABLE_SIZE), entries)) == c.remote + Effective(SupportedOnly(entries))
  {
    if entries != [] {
      var n := |entries| - 1;
      var e, table := entries[n], Setting(c, HEADER_TABLE_SIZE);
      FilteredValues(c, entries[..n]);
      hide Effective, Working, SupportedOnly, TableSizes, Hpack.After, Supported;
      var w, s := Working(table, entries[..n]), SupportedOnly(entries[..n]);
      assert entries == entries[..n] + [e];
      WorkingNext(table, entries[..n], e);
      SupportedNext(entries[..n], e);
      EffectiveTable(c, w);
      EffectiveNext(c, w, e);
      EffectiveNext(c, s, e);
    }
  }

  lemma {:induction false} FilteredWindow(initial: nat, table: nat, entries: seq<Entry>)
    ensures WindowAfter(initial, Working(table, entries)) == WindowAfter(initial, entries)
  {
    if entries != [] {
      var n := |entries| - 1;
      FilteredWindow(initial, table, entries[..n]);
      var w := Working(table, entries[..n]);
      assert (w + [entries[n]])[..|w|] == w;
    }
  }

  lemma {:induction false} FilteredFaults(c: Connection, table: nat, entries: seq<Entry>)
    ensures forall k :: 0 <= k < |Working(table, entries)| ==> Supported(Working(table, entries)[k].0)
    ensures SomeFaulty(c, Working(table, entries)) <==> SomeFaulty(c, entries)
  {
    if entries != [] {
      var n := |entries| - 1;
      FilteredFaults(c, table, entries[..n]);
      var w, all := Working(table, entries[..n]), Working(table, entries);
      if k :| 0 <= k < |entries| && Faulty(c, entries[k]) {
        if k < n {
          assert entries[..n][k] == entries[k];
          var j :| 0 <= j < |w| && Faulty(c, w[j]);
          assert all[j] == w[j];
        } else {
          assert all == w + [entries[n]] && all[|w|] == entries[n];
        }
      }
      if j :| 0 <= j < |all| && Faulty(c, all[j]) {
        if j < |w| {
          assert all[j] == w[j];
          var k :| 0 <= k < n && Faulty(c, entries[..n][k]);
          assert entries[k] == entries[..n][k];
        } else {
          assert all[j] == entries[n];
        }
      }
    }
  }

  // -------------------------------------------------------------- main result

  ghost predicate TooManyChanges(c: Connection, entries: seq<Entry>) {
    c.tableChanges + |Hpack.Effectual(Setting(c, HEADER_TABLE_SIZE), TableSizes(entries))| > 128
  }

  /** The connection after a SETTINGS frame: the last value of every supported setting, live windows moved
      by the net change, the table brought through every effectual size, one acknowledgement queued. */
  function InWireOrder(c: Connection, entries: seq<Entry>): Connection {
    var initial := Setting(c, INITIAL_WINDOW_SIZE);
    var sizes := Hpack.Effectual(c.encoder.maxSize, TableSizes(entries));
    c.(remote := c.remote + Effective(SupportedOnly(entries)),
       streams := Shift(c.streams, WindowAfter(initial, entries) - initial),
       encoder := Hpack.ResizeAll(c.encoder, sizes),
       tableChanges := c.tableChanges + |sizes|,
       outbound := [SettingsAck])
  }

  /** A SETTINGS frame has the effect of its supported entries taken left to right, whichever path the
      adapter takes: it fails exactly when some entry is invalid or overflows a live stream window at
      its turn (or the table changed too often), and otherwise leaves one acknowledgement. */
  lemma SettingsTakeEffectInWireOrder(c: Connection, entries: seq<Entry>)
    requires Settled(c) && c.outbound == []
    ensures var r := ApplySettings(c, entries);
            && (r.Received? || r.Refused?)
            && (r.Refused? <==> TooManyChanges(c, entries) || SomeFaulty(c, entries))
            && (r.Refused? ==> r.c.outbound == [GoawaySent(c.highest, r.code)]) && (TooManyChanges(c, entries) ==> r.code == 11)
            && (r.Received? ==> r.events == [] && r.c == InWireOrder(c, entries))
  {
    hide ReceiveSettings, Replay, DistinctIds, Shift, Working, SupportedOnly, TableSizes, WindowAfter, SomeFaulty,
         Effective, Hpack.Effectual, Hpack.ResizeAll, Supported;
    var table := Setting(c, HEADER_TABLE_SIZE);
    var w := Working(table, entries);
    FilteredSizes(table, entries);
    FilteredValues(c, entries);
    FilteredWindow(Setting(c, INITIAL_WINDOW_SIZE), table, entries);
    FilteredFaults(c, table, entries);
    var counted := c.(tableChanges := c.tableChanges + |TableSizes(w)|);
    SameFaults(c, counted, w);
    DistinctOrNot(w);
    BothPaths(counted, w);
  }

  lemma DistinctOrNot(w: seq<Entry>)
    ensures DistinctIds(w) || w != []
  {
  }

  /** The one-frame path and the replay path have the same outcome. */
  lemma BothPaths(c: Connection, w: seq<Entry>)
    requires Settled(c) && c.outbound == []
    requires forall k :: 0 <= k < |w| ==> Supported(w[k].0)
    requires DistinctIds(w) || w != []
    ensures var r := if DistinctIds(w) then ReceiveSettings(c, w) else Replay(c, w, 0);
            if SomeFaulty(c, w) then r.Refused? && r.c.outbound == [GoawaySent(c.highest, r.code)]
            else r == Received(Queue(Applied(c, w), [SettingsAck]), [])
  {
    if DistinctIds(w) {
      if SomeFaulty(c, w) { DictionaryFails(c, w); } else { DictionaryIsFold(c, w); }
    } else {
      assert w[..0] == [];
      AppliedNothing(c);
      ReplayFrom(c, w, 0);
    }
  }

  lemma SameFaults(c: Connection, d: Connection, w: seq<Entry>)
    requires d.remote == c.remote && d.streams == c.streams
    ensures SomeFaulty(c, w) <==> SomeFaulty(d, w)
  {
    assert forall k :: 0 <= k < |w| ==> (Faulty(c, w[k]) <==> Faulty(d, w[k]));
  }

  // ------------------------------------------------- what a SETTINGS frame keeps

  lemma {:induction false} SupportedSizes(entries: seq<Entry>)
    ensures TableSizes(SupportedOnly(entries)) == TableSizes(entries)
  {
    if entries != [] {
      var n := |entries| - 1;
      SupportedSizes(entries[..n]);
      var s := SupportedOnly(entries[..n]);
      assert (s + [entries[n]])[..|s|] == s;
    }
  }

  lemma {:induction false} FrameSizeStaysPositive(c: Connection, entries: seq<Entry>)
    requires Settled(c) && !SomeFaulty(c, entries)
    ensures var remote := c.remote + Effective(SupportedOnly(entries));
            MAX_FRAME_SIZE in remote && remote[MAX_FRAME_SIZE] > 0
  {
    if entries != [] {
      var n := |entries| - 1;
      assert forall k :: 0 <= k < n ==> entries[..n][k] == entries[k];
      FrameSizeStaysPositive(c, entries[..n]);
      assert !Faulty(c, entries[n]);
      var s := SupportedOnly(entries[..n]);
      assert (s + [entries[n]])[..|s|] == s;
    }
  }

  lemma {:induction false} EffectiveFrameSize(entries: seq<Entry>)
    requires forall k :: 0 <= k < |entries| ==> InvalidSetting(entries[k]).None?
    ensures MAX_FRAME_SIZE in Effective(entries) ==> Effective(entries)[MAX_FRAME_SIZE] > 0
  {
    if entries != [] {
      EffectiveFrameSize(entries[..|entries| - 1]);
      assert InvalidSetting(entries[|entries| - 1]).None?;
    }
  }

  /** SETTINGS leave the connection settled, refused ones too. */
  lemma ReceivedSettles(c: Connection, entries: seq<Entry>)
    requires Settled(c)
    ensures Settled(ReceiveSettings(c, entries).c)
  {
    FirstInvalidIff(entries);
    if FirstInvalid(entries).None? { EffectiveFrameSize(entries); }
    hide Shift, Overflows;
  }

  predicate Announced(e: Hpack.Encoder) { e.resized <==> e.changes != [] }

  lemma {:induction false} AnnouncedStays(e: Hpack.Encoder, sizes: seq<nat>)
    requires Announced(e) && Hpack.Effective(e.maxSize, sizes)
    ensures Announced(Hpack.ResizeAll(e, sizes))
  {
    if sizes != [] {
      AnnouncedStays(e, sizes[..|sizes| - 1]);
      ResizedMax(e, sizes[..|sizes| - 1]);
    }
  }

  /** Applying SETTINGS keeps the connection settled and every queued table size announced. */
  lemma SettingsKeepSettled(c: Connection, entries: seq<Entry>)
    requires Settled(c) && Announced(c.encoder) && !SomeFaulty(c, entries)
    ensures Settled(InWireOrder(c, entries)) && Announced(InWireOrder(c, entries).encoder)
  {
    var sizes, table := TableSizes(entries), c.encoder.maxSize;
    var s := SupportedOnly(entries);
    SupportedSizes(entries);
    EffectiveTable(c, s);
    EffectiveWindow(c, s);
    FrameSizeStaysPositive(c, entries);
    Hpack.EffectualIsEffective(table, sizes);
    AnnouncedStays(c.encoder, Hpack.Effectual(table, sizes));
    ResizedMax(c.encoder, Hpack.Effectual(table, sizes));
    hide Effective, SupportedOnly, TableSizes, Hpack.Effectual, Hpack.ResizeAll, Hpack.After, Shift, WindowAfter;
  }
}
