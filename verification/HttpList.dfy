/** Comma-separated field lists with quoted strings and escapes (section 5.6.1 of RFC 9110). */
module HttpList {
  import opened Wire
  import opened Decimal

  const QUOTE: byte := 34
  const BACKSLASH: byte := 92

  /** Where the scanner stands: inside a quoted string, after a backslash there. */
  datatype Mode = Mode(quoted: bool, escaped: bool)

  const PLAIN := Mode(false, false)

  function Next(m: Mode, c: byte): Mode {
    if m.escaped then m.(escaped := false)
    else if m.quoted && c == BACKSLASH then m.(escaped := true)
    else if c == QUOTE then m.(quoted := !m.quoted)
    else m
  }

  function Scan(s: Bytes): (m: Mode)
    ensures m.escaped ==> m.quoted
  {
    if s == [] then PLAIN else Next(Scan(s[..|s| - 1]), s[|s| - 1])
  }

  predicate Balanced(s: Bytes) { Scan(s) == PLAIN }

  /** The pieces between unquoted commas: the finished ones and the one still open. */
  datatype Pieces = Pieces(done: seq<Bytes>, open: Bytes) {
    function All(): seq<Bytes> { done + [open] }
  }

  function Push(p: Pieces, c: byte, separator: bool): Pieces {
    if separator then Pieces(p.done + [p.open], []) else Pieces(p.done, p.open + [c])
  }

  function Split(s: Bytes): Pieces {
    if s == [] then Pieces([], [])
    else
      var init, c := s[..|s| - 1], s[|s| - 1];
      Push(Split(init), c, c == COMMA && Scan(init) == PLAIN)
  }

  function Members(segments: seq<Bytes>): seq<Bytes> {
    if segments == [] then []
    else
      var earlier, member := Members(segments[..|segments| - 1]), Trim(segments[|segments| - 1]);
      if member == [] then earlier else earlier + [member]
  }

  function Join(values: seq<Bytes>): Bytes {
    if values == [] then []
    else if |values| == 1 then values[0]
    else Join(values[..|values| - 1]) + [COMMA] + values[|values| - 1]
  }

  /** None is the ValueError for an unterminated quoted string. */
  function Parse(values: seq<Bytes>): Option<seq<Bytes>> {
    if Balanced(Join(values)) then Some(Members(Split(Join(values)).All())) else None
  }

  method ParseHttpList(values: seq<Bytes>) returns (r: Option<seq<Bytes>>)
    ensures r == Parse(values)
  {
    hide Scan, Split, Members, Join;
    NothingScanned();
    var combined := Join(values);
    assert combined[..0] == [];
    var result: seq<Bytes> := [];
    var start := 0;
    var quoted, escaped := false, false;
    ghost var pieces := Pieces([], []);
    for index := 0 to |combined|
      invariant Mode(quoted, escaped) == Scan(combined[..index])
      invariant start <= index && pieces == Split(combined[..index])
      invariant combined[start..index] == pieces.open && result == Members(pieces.done)
    {
      var ch := combined[index];
      NextPiece(combined, index);
      assert combined[start..index + 1] == combined[start..index] + [ch];
      if escaped {
        escaped := false;
      } else if quoted && ch == BACKSLASH {
        escaped := true;
      } else if ch == QUOTE {
        quoted := !quoted;
      } else if ch == COMMA && !quoted {
        result := Append(result, combined[start..index], pieces.done);
        start := index + 1;
      }
      pieces := Split(combined[..index + 1]);
    }
    assert combined[..|combined|] == combined && combined[start..|combined|] == combined[start..];
    if quoted || escaped {
      return None;
    }
    result := Append(result, combined[start..], pieces.done);
    return Some(result);
  }

  lemma NothingScanned()
    ensures Scan([]) == PLAIN && Split([]) == Pieces([], []) && Members([]) == []
  {
  }

  /** Empty members are ignored. */
  method Append(result: seq<Bytes>, segment: Bytes, ghost done: seq<Bytes>) returns (r: seq<Bytes>)
    requires result == Members(done)
    ensures r == Members(done + [segment])
  {
    MembersPush(done, segment);
    var member := Trim(segment);
    r := result;
    if member != [] {
      r := r + [member];
    }
  }

  lemma MembersPush(done: seq<Bytes>, segment: Bytes)
    ensures Members(done + [segment]) == if Trim(segment) == [] then Members(done) else Members(done) + [Trim(segment)]
  {
    assert (done + [segment])[..|done|] == done;
  }

  lemma NextPiece(s: Bytes, index: nat)
    requires index < |s|
    ensures Scan(s[..index + 1]) == Next(Scan(s[..index]), s[index])
    ensures Split(s[..index + 1]) == Push(Split(s[..index]), s[index], s[index] == COMMA && Scan(s[..index]) == PLAIN)
  {
    assert s[..index + 1][..index] == s[..index];
  }

  // ------------------------------------------------------------- composition

  lemma {:induction false} ScanAfterBalanced(a: Bytes, b: Bytes)
    requires Balanced(a)
    ensures Scan(a + b) == Scan(b)
  {
    if b == [] {
      assert a + b == a;
    } else {
      ScanAfterBalanced(a, b[..|b| - 1]);
      assert (a + b)[..|a + b| - 1] == a + b[..|b| - 1];
    }
  }

  lemma BalancedThenComma(a: Bytes)
    requires Balanced(a)
    ensures Balanced(a + [COMMA])
  {
    assert (a + [COMMA])[..|a|] == a;
  }

  /** `Joined(p, q)`: what `q` continues when a comma separates it from `p`. */
  function Joined(p: Pieces, q: Pieces): Pieces { Pieces(p.All() + q.done, q.open) }

  lemma JoinedPush(p: Pieces, q: Pieces, c: byte, separator: bool)
    ensures Push(Joined(p, q), c, separator) == Joined(p, Push(q, c, separator))
  {
    assert p.All() + q.done + [q.open] == p.All() + (q.done + [q.open]);
  }

  lemma {:induction false} SplitOfJoined(a: Bytes, b: Bytes)
    requires Balanced(a)
    ensures Split(a + [COMMA] + b) == Joined(Split(a), Split(b))
  {
    var left := a + [COMMA];
    if b == [] {
      BalancedThenComma(a);
      NextPiece(left, |a|);
      assert left + b == left && left[..|a|] == a && left[..|a| + 1] == left;
    } else {
      var init, c := b[..|b| - 1], b[|b| - 1];
      SplitOfJoined(a, init);
      hide Split, Scan, Push, Joined;
      BalancedThenComma(a);
      ScanAfterBalanced(left, init);
      LastPiece(left + init, c);
      LastPiece(init, c);
      assert left + b == left + init + [c] && b == init + [c];
      JoinedPush(Split(a), Split(init), c, c == COMMA && Scan(init) == PLAIN);
    }
  }

  lemma LastPiece(s: Bytes, c: byte)
    ensures Split(s + [c]) == Push(Split(s), c, c == COMMA && Scan(s) == PLAIN)
  {
    assert (s + [c])[..|s|] == s;
  }

  lemma {:induction false} MembersAppend(a: seq<Bytes>, b: seq<Bytes>)
    ensures Members(a + b) == Members(a) + Members(b)
  {
    if b == [] {
      assert a + b == a;
    } else {
      MembersAppend(a, b[..|b| - 1]);
      assert (a + b)[..|a + b| - 1] == a + b[..|b| - 1];
    }
  }

  lemma NoMembers()
    ensures Parse([]) == Some([]) && Parse([[]]) == Some([])
  {
    var empty: Bytes := [];
    assert Split(empty).All() == [empty] && Join([empty]) == empty;
    MembersPush([], empty);
    assert [] + [empty] == [empty];
  }

  ghost predicate AllBalanced(values: seq<Bytes>) { forall i :: 0 <= i < |values| ==> Balanced(values[i]) }

  lemma {:induction false} JoinIsBalanced(values: seq<Bytes>)
    requires AllBalanced(values)
    ensures Balanced(Join(values))
  {
    if |values| > 1 {
      var n := |values| - 1;
      JoinIsBalanced(values[..n]);
      BalancedThenComma(Join(values[..n]));
      ScanAfterBalanced(Join(values[..n]) + [COMMA], values[n]);
    }
  }

  /** The members of separate fields, one after the other. */
  function Separately(values: seq<Bytes>): seq<Bytes>
    requires forall i :: 0 <= i < |values| ==> Parse([values[i]]).Some?
  {
    if values == [] then []
    else Separately(values[..|values| - 1]) + Parse([values[|values| - 1]]).value
  }

  lemma ParseOne(value: Bytes)
    requires Balanced(value)
    ensures Parse([value]) == Some(Members(Split(value).All()))
  {
  }

  lemma OneMore(values: seq<Bytes>)
    requires |values| > 1 && AllBalanced(values)
    ensures var n := |values| - 1;
            && Parse(values[..n]).Some? && Parse([values[n]]).Some?
            && Parse(values) == Some(Parse(values[..n]).value + Parse([values[n]]).value)
  {
    var n := |values| - 1;
    JoinIsBalanced(values);
    JoinIsBalanced(values[..n]);
    var p, q := Split(Join(values[..n])), Split(values[n]);
    SplitOfJoined(Join(values[..n]), values[n]);
    MembersAppend(p.All(), q.All());
    assert Joined(p, q).All() == p.All() + q.All();
  }

  /** Fields with balanced quotes can be parsed together or apart: splitting is compositional. */
  lemma {:induction false} ParsingIsCompositional(values: seq<Bytes>)
    requires AllBalanced(values)
    ensures forall i :: 0 <= i < |values| ==> Parse([values[i]]).Some?
    ensures Parse(values) == Some(Separately(values))
  {
    forall i | 0 <= i < |values| ensures Parse([values[i]]).Some? { ParseOne(values[i]); }
    if values == [] {
      NoMembers();
    } else if |values| == 1 {
      var v := values[0];
      assert values == [v] && values[..0] == [];
      assert Separately(values) == Separately(values[..0]) + Parse([v]).value;
      assert Separately(values) == Parse([v]).value;
    } else {
      ParsingIsCompositional(values[..|values| - 1]);
      OneMore(values);
    }
  }

  // ---------------------------------------------------------- what members are

  ghost predicate NoSeparator(s: Bytes) {
    forall i :: 0 <= i < |s| ==> !(s[i] == COMMA && Scan(s[..i]) == PLAIN)
  }

  predicate Tight(s: Bytes) { s != [] && !Blank(s[0]) && !Blank(s[|s| - 1]) }

  ghost predicate GoodMember(s: Bytes) { Tight(s) && Balanced(s) && NoSeparator(s) }

  lemma NoSeparatorNext(s: Bytes, c: byte)
    requires NoSeparator(s) && !(c == COMMA && Scan(s) == PLAIN)
    ensures NoSeparator(s + [c])
  {
    forall i | 0 <= i < |s + [c]| ensures !((s + [c])[i] == COMMA && Scan((s + [c])[..i]) == PLAIN) {
      assert (s + [c])[..i] == s[..i];
      if i == |s| { assert s[..i] == s; }
    }
  }

  ghost predicate Shape(p: Pieces, m: Mode) {
    && (forall i :: 0 <= i < |p.done| ==> NoSeparator(p.done[i]) && Balanced(p.done[i]))
    && NoSeparator(p.open) && Scan(p.open) == m
  }

  lemma {:induction false} SplitShape(s: Bytes)
    ensures Shape(Split(s), Scan(s))
  {
    if s != [] {
      var init, c := s[..|s| - 1], s[|s| - 1];
      SplitShape(init);
      var open := Split(init).open;
      if !(c == COMMA && Scan(init) == PLAIN) {
        NoSeparatorNext(open, c);
        assert (open + [c])[..|open|] == open;
      }
    }
  }

  lemma ScanDropsLeadingBlank(s: Bytes)
    requires s != [] && Blank(s[0])
    ensures Scan(s) == Scan(s[1..])
  {
    assert [s[0]][..0] == [];
    assert Balanced([s[0]]);
    ScanAfterBalanced([s[0]], s[1..]);
    assert [s[0]] + s[1..] == s;
  }

  lemma {:induction false} TrimLeftKeeps(s: Bytes)
    requires NoSeparator(s)
    ensures NoSeparator(TrimLeft(s)) && Scan(TrimLeft(s)) == Scan(s)
    ensures TrimLeft(s) != [] ==> !Blank(TrimLeft(s)[0])
  {
    if s != [] && Blank(s[0]) {
      var t := s[1..];
      forall i | 0 <= i < |t| ensures !(t[i] == COMMA && Scan(t[..i]) == PLAIN) {
        ScanDropsLeadingBlank(s[..i + 1]);
        assert s[..i + 1][1..] == t[..i] && s[i + 1] == t[i];
      }
      ScanDropsLeadingBlank(s);
      TrimLeftKeeps(t);
    }
  }

  lemma {:induction false} TrimRightKeeps(s: Bytes)
    requires NoSeparator(s) && Balanced(s) && (s != [] ==> !Blank(s[0]))
    ensures var t := TrimRight(s); NoSeparator(t) && Balanced(t) && (t != [] ==> Tight(t))
  {
    if s != [] && Blank(s[|s| - 1]) {
      var t := s[..|s| - 1];
      forall i | 0 <= i < |t| ensures !(t[i] == COMMA && Scan(t[..i]) == PLAIN) {
        assert t[..i] == s[..i];
      }
      TrimRightKeeps(t);
    }
  }

  lemma {:induction false} MembersAreGood(segments: seq<Bytes>)
    requires forall i :: 0 <= i < |segments| ==> NoSeparator(segments[i]) && Balanced(segments[i])
    ensures forall i :: 0 <= i < |Members(segments)| ==> GoodMember(Members(segments)[i])
  {
    if segments != [] {
      var n := |segments| - 1;
      MembersAreGood(segments[..n]);
      TrimLeftKeeps(segments[n]);
      TrimRightKeeps(TrimLeft(segments[n]));
    }
  }

  /** Every member is non-empty, trimmed, quote-balanced and free of unquoted commas. */
  lemma ParsedMembersAreGood(values: seq<Bytes>)
    requires Parse(values).Some?
    ensures forall i :: 0 <= i < |Parse(values).value| ==> GoodMember(Parse(values).value[i])
  {
    SplitShape(Join(values));
    MembersAreGood(Split(Join(values)).All());
  }

  // ---------------------------------------------------------------- stability

  lemma {:induction false} OnePiece(s: Bytes)
    requires NoSeparator(s)
    ensures Split(s) == Pieces([], s)
  {
    if s != [] {
      var init, c := s[..|s| - 1], s[|s| - 1];
      forall i | 0 <= i < |init| ensures !(init[i] == COMMA && Scan(init[..i]) == PLAIN) {
        assert init[..i] == s[..i];
      }
      OnePiece(init);
      assert init + [c] == s;
    }
  }

  lemma JoinLast(members: seq<Bytes>)
    requires members != []
    ensures var n := |members| - 1;
            Join(members) == if n == 0 then members[0] else Join(members[..n]) + [COMMA] + members[n]
  {
  }

  lemma {:induction false} JoinedMembers(members: seq<Bytes>)
    requires members != [] && forall i :: 0 <= i < |members| ==> GoodMember(members[i])
    ensures Balanced(Join(members)) && Split(Join(members)).All() == members
  {
    hide Split, Scan, NoSeparator, Join, Trim;
    var n := |members| - 1;
    JoinLast(members);
    OnePiece(members[n]);
    assert members == members[..n] + [members[n]];
    if n > 0 {
      JoinedMembers(members[..n]);
      SplitOfJoined(Join(members[..n]), members[n]);
      BalancedThenComma(Join(members[..n]));
      ScanAfterBalanced(Join(members[..n]) + [COMMA], members[n]);
    }
  }

  lemma {:induction false} GoodMembersStay(members: seq<Bytes>)
    requires forall i :: 0 <= i < |members| ==> GoodMember(members[i])
    ensures Members(members) == members
  {
    if members != [] {
      var n := |members| - 1;
      GoodMembersStay(members[..n]);
      assert Trim(members[n]) == members[n];
      assert members == members[..n] + [members[n]];
    }
  }

  /** Joining the parsed members with commas and parsing again gives them back. */
  lemma ParsingIsStable(values: seq<Bytes>)
    requires Parse(values).Some?
    ensures Parse([Join(Parse(values).value)]) == Parse(values)
    ensures Parse(Parse(values).value) == Parse(values)
  {
    var members := Parse(values).value;
    ParsedMembersAreGood(values);
    GoodMembersStay(members);
    if members == [] {
      NoMembers();
    } else {
      JoinedMembers(members);
    }
  }
}
