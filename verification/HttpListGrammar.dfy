/** The list syntax as a grammar, without a scanner: plain characters and quoted strings with escapes (sections
    5.6.1 and 5.6.4 of RFC 9110). The splitter reads exactly what the grammar writes. */
module HttpListGrammar {
  import opened Wire
  import opened Decimal
  import opened HttpList

  /** Inside quotes: a character, or a backslash and any character. */
  datatype Inner = Char(c: byte) | Escape(c: byte)

  datatype Item = Plain(c: byte) | Quoted(inner: seq<Inner>)

  predicate GoodInner(x: Inner) { x.Char? ==> x.c != 34 && x.c != 92 }

  predicate GoodItem(x: Item) {
    match x
    case Plain(c) => c != 34
    case Quoted(inner) => forall i :: 0 <= i < |inner| ==> GoodInner(inner[i])
  }

  predicate GoodItems(items: seq<Item>) { forall i :: 0 <= i < |items| ==> GoodItem(items[i]) }

  function WriteOne(x: Inner): Bytes { match x case Char(c) => [c] case Escape(c) => [92, c] }

  function WriteInner(inner: seq<Inner>): Bytes {
    if inner == [] then [] else WriteInner(inner[..|inner| - 1]) + WriteOne(inner[|inner| - 1])
  }

  function WriteItem(x: Item): Bytes {
    match x
    case Plain(c) => [c]
    case Quoted(inner) => [34] + WriteInner(inner) + [34]
  }

  function Write(items: seq<Item>): Bytes {
    if items == [] then [] else Write(items[..|items| - 1]) + WriteItem(items[|items| - 1])
  }

  /** The runs of items between plain commas. */
  function Runs(items: seq<Item>): (r: seq<seq<Item>>)
    ensures r != []
  {
    if items == [] then [[]]
    else
      var earlier, x := Runs(items[..|items| - 1]), items[|items| - 1];
      if x == Plain(44) then earlier + [[]]
      else earlier[..|earlier| - 1] + [earlier[|earlier| - 1] + [x]]
  }

  function WriteAll(runs: seq<seq<Item>>): seq<Bytes> { seq(|runs|, i requires 0 <= i < |runs| => Write(runs[i])) }

  // ------------------------------------------------------------- one more octet

  lemma ScanNext(s: Bytes, c: byte)
    ensures Scan(s + [c]) == Next(Scan(s), c)
  {
    assert (s + [c])[..|s|] == s;
  }

  /** An octet that is no separator goes to the open piece. */
  lemma StaysOpen(s: Bytes, c: byte)
    requires c != 44 || Scan(s) != PLAIN
    ensures Split(s + [c]) == Pieces(Split(s).done, Split(s).open + [c])
  {
    hide Scan;
    LastPiece(s, c);
  }

  lemma Reopen(p: Pieces, a: Bytes, b: Bytes)
    ensures Pieces(p.done, p.open + a + b) == Pieces(p.done, p.open + (a + b))
  {
    assert p.open + a + b == p.open + (a + b);
  }

  // ------------------------------------------------------------ writing, then reading

  /** After `w`, which opens a quotation, the scanner is in quotes and nothing has been split since `s`. */
  ghost predicate Inside(s: Bytes, w: Bytes) {
    Scan(s + w) == Mode(true, false) && Split(s + w) == Pieces(Split(s).done, Split(s).open + w)
  }

  lemma InsideNext(s: Bytes, w: Bytes, x: Inner)
    requires Inside(s, w) && GoodInner(x)
    ensures Inside(s, w + WriteOne(x))
  {
    hide Split, Scan;
    var t, c := s + w, WriteOne(x)[0];
    ScanNext(t, c);
    StaysOpen(t, c);
    Reopen(Split(s), w, [c]);
    assert s + (w + [c]) == t + [c];
    if x.Escape? {
      var u := t + [92];
      ScanNext(u, x.c);
      StaysOpen(u, x.c);
      Reopen(Split(s), w + [92], [x.c]);
      assert w + [92] + [x.c] == w + WriteOne(x) && s + (w + [92] + [x.c]) == u + [x.c];
    }
  }

  /** Inside a quoted string the scanner stays quoted and nothing is split. */
  lemma {:induction false} InnerRead(s: Bytes, inner: seq<Inner>)
    requires Balanced(s) && forall i :: 0 <= i < |inner| ==> GoodInner(inner[i])
    ensures Inside(s, [34] + WriteInner(inner))
  {
    if inner == [] {
      assert [34] + WriteInner(inner) == [34];
      ScanNext(s, 34);
      StaysOpen(s, 34);
    } else {
      var init, x := inner[..|inner| - 1], inner[|inner| - 1];
      InnerRead(s, init);
      assert [34] + WriteInner(inner) == [34] + WriteInner(init) + WriteOne(x);
      hide Inside, WriteInner, WriteOne;
      InsideNext(s, [34] + WriteInner(init), x);
    }
  }

  lemma ItemRead(s: Bytes, x: Item)
    requires Balanced(s) && GoodItem(x) && x != Plain(44)
    ensures Balanced(s + WriteItem(x)) && Split(s + WriteItem(x)) == Pieces(Split(s).done, Split(s).open + WriteItem(x))
  {
    hide Split, Scan;
    match x
    case Plain(c) =>
      ScanNext(s, c);
      StaysOpen(s, c);
    case Quoted(inner) =>
      InnerRead(s, inner);
      var w := [34] + WriteInner(inner);
      ScanNext(s + w, 34);
      StaysOpen(s + w, 34);
      assert s + (w + [34]) == s + w + [34];
      Reopen(Split(s), w, [34]);
  }

  lemma WriteNext(run: seq<Item>, x: Item)
    ensures Write(run + [x]) == Write(run) + WriteItem(x)
  {
    assert (run + [x])[..|run|] == run;
  }

  /** The text is balanced, and splits into these runs. */
  ghost predicate SplitsInto(s: Bytes, runs: seq<seq<Item>>) { Balanced(s) && Split(s).All() == WriteAll(runs) }

  lemma SplitsNext(s: Bytes, runs: seq<seq<Item>>, x: Item)
    requires SplitsInto(s, runs) && runs != [] && GoodItem(x) && x != Plain(44)
    ensures SplitsInto(s + WriteItem(x), runs[..|runs| - 1] + [runs[|runs| - 1] + [x]])
  {
    hide Split, Scan, Write, WriteItem;
    var n := |runs| - 1;
    ItemRead(s, x);
    WriteNext(runs[n], x);
    var all := WriteAll(runs);
    assert Split(s).All()[..n] == Split(s).done && Split(s).open == all[n];
    var after := runs[..n] + [runs[n] + [x]];
    assert forall i :: 0 <= i < n ==> after[i] == runs[i];
    assert WriteAll(after) == all[..n] + [all[n] + WriteItem(x)];
  }

  lemma SplitsAtComma(s: Bytes, runs: seq<seq<Item>>)
    requires SplitsInto(s, runs)
    ensures SplitsInto(s + WriteItem(Plain(44)), runs + [[]])
  {
    hide Split, Scan, Write, WriteItem;
    CommaRead(s);
    NothingWritten();
    assert WriteAll(runs + [[]]) == WriteAll(runs) + [[]];
  }

  /** What the grammar writes is balanced, and splits into its runs. */
  lemma {:induction false} WrittenIsRead(items: seq<Item>)
    requires GoodItems(items)
    ensures SplitsInto(Write(items), Runs(items))
  {
    if items == [] {
      assert WriteAll(Runs(items)) == [[]];
    } else {
      var init, x := items[..|items| - 1], items[|items| - 1];
      WrittenIsRead(init);
      hide SplitsInto, Write, WriteItem;
      WriteNext(init, x);
      assert init + [x] == items;
      if x == Plain(44) { SplitsAtComma(Write(init), Runs(init)); } else { SplitsNext(Write(init), Runs(init), x); }
    }
  }

  lemma NothingWritten()
    ensures Write([]) == []
  {
  }

  lemma CommaRead(s: Bytes)
    requires Balanced(s)
    ensures Balanced(s + WriteItem(Plain(44))) && Split(s + WriteItem(Plain(44))).All() == Split(s).All() + [[]]
  {
    hide Scan, Split;
    ScanNext(s, 44);
    LastPiece(s, 44);
  }

  // ------------------------------------------------------------ reading, then writing

  /** How far a text in this mode has been explained: items, then perhaps an open quotation, then perhaps a
      backslash. */
  ghost predicate Explains(s: Bytes, m: Mode, items: seq<Item>, inner: seq<Inner>) {
    && GoodItems(items) && (forall i :: 0 <= i < |inner| ==> GoodInner(inner[i]))
    && s == match m
            case Mode(false, _) => Write(items)
            case Mode(true, false) => Write(items) + [34] + WriteInner(inner)
            case Mode(true, true) => Write(items) + [34] + WriteInner(inner) + [92]
  }

  lemma InnerNext(inner: seq<Inner>, x: Inner)
    ensures WriteInner(inner + [x]) == WriteInner(inner) + WriteOne(x)
  {
    assert (inner + [x])[..|inner|] == inner;
  }

  lemma ExplainsPlain(s: Bytes, m: Mode, c: byte, items: seq<Item>, inner: seq<Inner>)
    returns (items2: seq<Item>, inner2: seq<Inner>)
    requires Explains(s, m, items, inner) && !m.quoted && !m.escaped
    ensures Explains(s + [c], Next(m, c), items2, inner2)
  {
    hide Write, WriteInner;
    if c == 34 {
      NothingInner();
      items2, inner2 := items, [];
      assert Write(items) + [34] + [] == Write(items) + [34];
    } else {
      WriteNext(items, Plain(c));
      items2, inner2 := items + [Plain(c)], inner;
    }
  }

  lemma ExplainsQuoted(s: Bytes, m: Mode, c: byte, items: seq<Item>, inner: seq<Inner>)
    returns (items2: seq<Item>, inner2: seq<Inner>)
    requires Explains(s, m, items, inner) && m.quoted
    ensures Explains(s + [c], Next(m, c), items2, inner2)
  {
    hide Write, WriteInner;
    var w, v := Write(items), WriteInner(inner);
    if m.escaped {
      InnerNext(inner, Escape(c));
      items2, inner2 := items, inner + [Escape(c)];
      assert w + [34] + v + [92] + [c] == w + [34] + (v + [92, c]);
    } else if c == 34 {
      WriteNext(items, Quoted(inner));
      items2, inner2 := items + [Quoted(inner)], inner;
      assert w + [34] + v + [34] == w + ([34] + v + [34]);
    } else if c == 92 {
      items2, inner2 := items, inner;
    } else {
      InnerNext(inner, Char(c));
      items2, inner2 := items, inner + [Char(c)];
      assert w + [34] + v + [c] == w + [34] + (v + [c]);
    }
  }

  lemma {:induction false} Explained(s: Bytes) returns (items: seq<Item>, inner: seq<Inner>)
    ensures Explains(s, Scan(s), items, inner)
  {
    if s == [] {
      items, inner := [], [];
    } else {
      var init, c := s[..|s| - 1], s[|s| - 1];
      items, inner := Explained(init);
      assert s == init + [c];
      hide Explains, Next;
      if Scan(init).quoted { items, inner := ExplainsQuoted(init, Scan(init), c, items, inner); }
      else { items, inner := ExplainsPlain(init, Scan(init), c, items, inner); }
    }
  }

  lemma NothingInner()
    ensures WriteInner([]) == []
  {
  }

  // -------------------------------------------------------------------- trimming

  predicate Blanks(s: Bytes) { forall i :: 0 <= i < |s| ==> s[i] == 32 || s[i] == 9 }

  predicate Bare(s: Bytes) { s != [] ==> s[0] != 32 && s[0] != 9 && s[|s| - 1] != 32 && s[|s| - 1] != 9 }

  lemma {:induction false} LeftTrimmed(s: Bytes) returns (front: Bytes)
    ensures s == front + TrimLeft(s) && Blanks(front)
    ensures TrimLeft(s) != [] ==> TrimLeft(s)[0] != 32 && TrimLeft(s)[0] != 9
  {
    if s != [] && Blank(s[0]) {
      var later := LeftTrimmed(s[1..]);
      front := [s[0]] + later;
    } else {
      front := [];
    }
  }

  lemma {:induction false} RightTrimmed(s: Bytes) returns (back: Bytes)
    ensures s == TrimRight(s) + back && Blanks(back) && TrimRight(s) <= s
    ensures TrimRight(s) != [] ==> TrimRight(s)[|TrimRight(s)| - 1] != 32 && TrimRight(s)[|TrimRight(s)| - 1] != 9
  {
    if s != [] && Blank(s[|s| - 1]) {
      var init := s[..|s| - 1];
      var later := RightTrimmed(init);
      back := later + [s[|s| - 1]];
      assert TrimRight(s) == TrimRight(init);
      hide TrimRight;
      assert s == init + [s[|s| - 1]];
    } else {
      back := [];
    }
  }

  /** Trimming takes the spaces and tabs off both ends, and nothing else. */
  lemma TrimIsExact(s: Bytes)
    ensures exists front, back :: s == front + Trim(s) + back && Blanks(front) && Blanks(back)
    ensures Bare(Trim(s))
  {
    var front := LeftTrimmed(s);
    var back := RightTrimmed(TrimLeft(s));
    assert s == front + Trim(s) + back;
  }

  // --------------------------------------------------------------------- the list

  ghost predicate Reads(items: seq<Item>, s: Bytes) { GoodItems(items) && Write(items) == s }

  lemma {:induction false} MembersAre(segments: seq<Bytes>)
    ensures forall i :: 0 <= i < |Members(segments)| ==> Members(segments)[i] != []
    ensures forall m :: m in Members(segments) <==> m != [] && exists i :: 0 <= i < |segments| && m == Trim(segments[i])
  {
    if segments != [] {
      var n := |segments| - 1;
      MembersAre(segments[..n]);
      assert segments == segments[..n] + [segments[n]];
    }
  }

  ghost predicate Readable(s: Bytes) { exists items :: Reads(items, s) }

  lemma TextIsRead(s: Bytes)
    ensures Balanced(s) <==> Readable(s)
    ensures forall items :: Reads(items, s) ==> SplitsInto(s, Runs(items))
  {
    forall items | Reads(items, s) ensures SplitsInto(s, Runs(items)) { WrittenIsRead(items); }
    if Balanced(s) {
      var items, inner := Explained(s);
      assert Reads(items, s);
    }
  }

  /** The list is readable exactly if the grammar writes it, and then its members are the runs between plain
      commas: the octets of each, trimmed, if anything is left of them. */
  lemma ListIsRead(values: seq<Bytes>)
    ensures Parse(values).Some? <==> Readable(Join(values))
    ensures forall items :: Reads(items, Join(values)) ==> Parse(values) == Some(Members(WriteAll(Runs(items))))
  {
    TextIsRead(Join(values));
  }
}
