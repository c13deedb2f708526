/** Reading an HTTP/1.1 request head from chunks: the answer is a function of the byte stream alone. */
module Http1Head {
  import opened Wire

  const MAX_HEAD_SIZE := 65536
  const CRLF: Bytes := [13, 10]
  const HEAD_END: Bytes := [13, 10, 13, 10]
  const SPACE: Bytes := [32]
  const URI_TOO_LONG := 414
  const HEADERS_TOO_LARGE := 431
  const BAD_REQUEST := 400

  // ------------------------------------------------------------------ searching

  predicate At(s: Bytes, i: nat, pattern: Bytes) {
    i + |pattern| <= |s| && s[i..i + |pattern|] == pattern
  }

  /** `data.find(pattern, start)` */
  function Find(s: Bytes, pattern: Bytes, start: nat): (r: Option<nat>)
    ensures r.Some? ==> start <= r.value && At(s, r.value, pattern) && forall j :: start <= j < r.value ==> !At(s, j, pattern)
    ensures r.None? ==> forall j :: start <= j ==> !At(s, j, pattern)
    decreases |s| - start
  {
    if start + |pattern| > |s| then None
    else if s[start..start + |pattern|] == pattern then Some(start)
    else Find(s, pattern, start + 1)
  }

  /** `text.partition(b" ")`: what stands before the first space, and after it if there is one. */
  datatype Partition = Partition(before: Bytes, separated: bool, after: Bytes)

  function Split(s: Bytes): Partition {
    match Find(s, SPACE, 0)
    case None => Partition(s, false, [])
    case Some(i) => Partition(s[..i], true, s[i + 1..])
  }

  // ------------------------------------------------------------- check_head_size

  function Start(data: Bytes): nat { if CRLF <= data then 2 else 0 }

  function RequestLine(data: Bytes): Bytes {
    match Find(data, CRLF, Start(data))
    case None => data[Start(data)..]
    case Some(i) => data[Start(data)..i]
  }

  predicate LineTooLarge(data: Bytes) {
    var i := Find(data, CRLF, Start(data));
    i.None? || i.value + |HEAD_END| > MAX_HEAD_SIZE
  }

  /** Two spaces, the version, and the end of the head. */
  const FRAMING: Bytes := [32, 32, 72, 84, 84, 80, 47, 49, 46, 49, 13, 10, 13, 10]

  /** The target alone does not fit beside its method and the framing, and the method leaves some room. */
  predicate TargetTooLong(line: Bytes, start: nat) {
    var split := Split(line);
    split.separated && 0 < MAX_HEAD_SIZE - (start + |split.before| + |FRAMING|) < |Split(split.after).before|
  }

  /** The status of a head that is too large. */
  function Classify(data: Bytes): int {
    if LineTooLarge(data) && TargetTooLong(RequestLine(data), Start(data)) then URI_TOO_LONG else HEADERS_TOO_LARGE
  }

  predicate TooLarge(data: Bytes, incomplete: bool) {
    match Find(data, HEAD_END, 0)
    case None => |data| > MAX_HEAD_SIZE || (incomplete && |data| >= MAX_HEAD_SIZE)
    case Some(i) => i + |HEAD_END| > MAX_HEAD_SIZE
  }

  /** The status of the HTTP1Error, if one is raised. */
  function CheckHeadSize(data: Bytes, incomplete: bool): Option<int> {
    if TooLarge(data, incomplete) then Some(Classify(data)) else None
  }

  // ------------------------------------------------- the first 65536 octets decide

  lemma AtPrefix(s: Bytes, n: nat, i: nat, pattern: Bytes)
    requires n <= |s|
    ensures At(s[..n], i, pattern) <==> i + |pattern| <= n && At(s, i, pattern)
  {
    if i + |pattern| <= n { assert s[..n][i..i + |pattern|] == s[i..i + |pattern|]; }
  }

  /** Searching a prefix finds the same place, or stops short of one that reaches past it. */
  lemma FindInPrefix(s: Bytes, n: nat, pattern: Bytes, start: nat)
    requires n <= |s|
    ensures var whole, part := Find(s, pattern, start), Find(s[..n], pattern, start);
            part == if whole.Some? && whole.value + |pattern| <= n then whole else None
  {
    hide Find, At;
    var whole, part := Find(s, pattern, start), Find(s[..n], pattern, start);
    if part.Some? { AtPrefix(s, n, part.value, pattern); }
    if whole.Some? { AtPrefix(s, n, whole.value, pattern); }
    forall j | start <= j ensures At(s[..n], j, pattern) ==> At(s, j, pattern) { AtPrefix(s, n, j, pattern); }
  }

  /** Two lines that begin alike split alike, if the split falls where they agree. */
  lemma SplitAlike(a: Bytes, b: Bytes, k: nat)
    requires k <= |a| && k <= |b| && a[..k] == b[..k]
    ensures var x, y := Split(a), Split(b);
            if x.separated && |x.before| < k
            then y.separated && y.before == x.before && x.after == a[|x.before| + 1..] && y.after == b[|x.before| + 1..]
            else !(y.separated && |y.before| < k) && |x.before| >= k && |y.before| >= k
  {
    hide Find, At;
    FindInPrefix(a, k, SPACE, 0);
    FindInPrefix(b, k, SPACE, 0);
    var i := Find(a[..k], SPACE, 0);
    if i.Some? {
      AtPrefix(a, k, i.value, SPACE);
      assert a[..k][..i.value] == a[..i.value] && b[..k][..i.value] == b[..i.value];
    }
    FoundInside(a, 0);
    FoundInside(b, 0);
  }

  lemma FoundInside(s: Bytes, start: nat)
    ensures var i := Find(s, SPACE, start); i.Some? ==> i.value < |s|
  {
  }

  lemma SameVerdict(a: Bytes, b: Bytes, start: nat)
    requires start <= 2 && |a| >= MAX_HEAD_SIZE - 1 - start && |b| >= MAX_HEAD_SIZE - 1 - start
    requires a[..MAX_HEAD_SIZE - 1 - start] == b[..MAX_HEAD_SIZE - 1 - start]
    ensures TargetTooLong(a, start) == TargetTooLong(b, start)
  {
    hide Split;
    var k := MAX_HEAD_SIZE - 1 - start;
    SplitAlike(a, b, k);
    var x, y := Split(a), Split(b);
    if x.separated && |x.before| < k {
      var m := |x.before| + 1;
      assert x.after[..k - m] == a[..k][m..] && y.after[..k - m] == b[..k][m..];
      SplitAlike(x.after, y.after, k - m);
    }
  }

  /** Whatever follows them, the first 65536 octets decide between 414 and 431. */
  lemma FirstOctetsDecide(data: Bytes)
    requires |data| >= MAX_HEAD_SIZE
    ensures Classify(data) == Classify(data[..MAX_HEAD_SIZE])
  {
    hide Find, TargetTooLong, At;
    var part := data[..MAX_HEAD_SIZE];
    var start := Start(data);
    assert part[..2] == data[..2];
    assert Start(part) == start;
    FindInPrefix(data, MAX_HEAD_SIZE, CRLF, start);
    var i, j := Find(data, CRLF, start), Find(part, CRLF, start);
    if j.Some? {
      LineInside(part, j.value);
      assert part[start..j.value] == data[start..j.value];
    } else {
      var k := MAX_HEAD_SIZE - 1 - start;
      LineBegins(data, k);
      LineBegins(part, k);
      assert part[start..start + k] == data[start..start + k];
      SameVerdict(RequestLine(data), RequestLine(part), start);
    }
  }

  lemma LineInside(data: Bytes, i: nat)
    requires Find(data, CRLF, Start(data)) == Some(i)
    ensures Start(data) <= i <= |data| - 2
  {
  }

  /** A line that does not end within `k` octets starts with those octets. */
  lemma LineBegins(data: Bytes, k: nat)
    requires Start(data) + k <= |data|
    requires var i := Find(data, CRLF, Start(data)); i.Some? ==> Start(data) + k <= i.value
    ensures |RequestLine(data)| >= k && RequestLine(data)[..k] == data[Start(data)..Start(data) + k]
  {
    hide Find, At;
    var start := Start(data);
    match Find(data, CRLF, start)
    case None => assert data[start..][..k] == data[start..start + k];
    case Some(i) =>
      LineInside(data, i);
      assert data[start..i][..k] == data[start..start + k];
  }

  // ------------------------------------------------------------------ the head

  datatype Head = Complete(head: Bytes) | Oversized(status: int) | Unfinished

  /** What a byte stream says about its head. */
  function HeadOf(stream: Bytes): Head {
    var i := Find(stream, HEAD_END, 0);
    if i.Some? && i.value + |HEAD_END| <= MAX_HEAD_SIZE then Complete(stream[..i.value + |HEAD_END|])
    else if |stream| >= MAX_HEAD_SIZE then Oversized(Classify(stream[..MAX_HEAD_SIZE]))
    else Unfinished
  }

  /** Once decided, more octets change nothing. */
  lemma HeadIsStable(a: Bytes, b: Bytes)
    requires !HeadOf(a).Unfinished?
    ensures HeadOf(a + b) == HeadOf(a)
  {
    hide Find, Classify, At;
    assert (a + b)[..|a|] == a;
    FindInPrefix(a + b, |a|, HEAD_END, 0);
    EndInside(a);
    EndInside(a + b);
    var i := Find(a, HEAD_END, 0);
    if i.Some? && i.value + 4 <= MAX_HEAD_SIZE {
      assert (a + b)[..i.value + 4] == a[..i.value + 4];
    } else {
      assert (a + b)[..MAX_HEAD_SIZE] == a[..MAX_HEAD_SIZE];
    }
  }

  lemma EndInside(s: Bytes)
    ensures var i := Find(s, HEAD_END, 0); i.Some? ==> i.value + 4 <= |s|
  {
  }

  /** One turn of a reader: the checks on the octets so far agree with the stream's answer. */
  lemma ChecksAgree(data: Bytes)
    ensures var checked, i := CheckHeadSize(data, true), Find(data, HEAD_END, 0);
            HeadOf(data) == if checked.Some? then Oversized(checked.value)
                            else if i.Some? then Complete(data[..i.value + |HEAD_END|])
                            else Unfinished
  {
    hide Find, Classify;
    EndInside(data);
    if |data| >= MAX_HEAD_SIZE { FirstOctetsDecide(data); }
  }

  /** A complete head passes the check again and contains no earlier end. */
  lemma HeadStandsAlone(stream: Bytes)
    requires HeadOf(stream).Complete?
    ensures var head := HeadOf(stream).head;
            CheckHeadSize(head, false) == None && Find(head, HEAD_END, 0) == Some(|head| - 4) && HeadOf(head) == Complete(head)
  {
    hide Find, Classify;
    EndInside(stream);
    var n := Find(stream, HEAD_END, 0).value + 4;
    FindInPrefix(stream, n, HEAD_END, 0);
    assert stream[..n][..n] == stream[..n];
  }

  /** A line break, and an empty line after a line, that begin at octet `i`. */
  predicate Break(s: Bytes, i: nat) { i + 2 <= |s| && s[i] == 13 && s[i + 1] == 10 }

  predicate EmptyLine(s: Bytes, i: nat) { Break(s, i) && Break(s, i + 2) }

  /** The stream has its first empty line at octet `i`. */
  predicate FirstEmptyLine(s: Bytes, i: nat) { EmptyLine(s, i) && forall j :: 0 <= j < i ==> !EmptyLine(s, j) }

  lemma BreakIs(s: Bytes, i: nat)
    ensures Break(s, i) <==> At(s, i, CRLF)
  {
    if i + 2 <= |s| {
      assert s[i..i + 2] == [s[i], s[i + 1]];
      assert s[i..i + 2] == CRLF ==> s[i..i + 2][0] == 13 && s[i..i + 2][1] == 10;
    }
  }

  lemma EmptyLineIs(s: Bytes, i: nat)
    ensures EmptyLine(s, i) <==> At(s, i, HEAD_END)
  {
    BreakIs(s, i);
    BreakIs(s, i + 2);
    assert HEAD_END == CRLF + CRLF;
    if i + 4 <= |s| {
      assert s[i..i + 4] == s[i..i + 2] + s[i + 2..i + 4];
      assert s[i..i + 4][..2] == s[i..i + 2] && s[i..i + 4][2..] == s[i + 2..i + 4];
      assert HEAD_END[..2] == CRLF && HEAD_END[2..] == CRLF;
    }
  }

  lemma FirstIsFound(s: Bytes, i: nat)
    ensures FirstEmptyLine(s, i) <==> Find(s, HEAD_END, 0) == Some(i)
  {
    hide Find, At, EmptyLine;
    forall j: nat ensures EmptyLine(s, j) <==> At(s, j, HEAD_END) { EmptyLineIs(s, j); }
  }

  /** The head is what the stream holds through its first empty line, if that ends within 65536 octets; if it does
      not, 65536 octets are too many, for 414 or 431; before that nothing is decided. */
  lemma HeadEndsWithTheFirstEmptyLine(stream: Bytes)
    ensures forall head :: HeadOf(stream) == Complete(head) <==>
              |head| >= 4 && |head| <= 65536 && head <= stream && FirstEmptyLine(stream, |head| - 4)
    ensures HeadOf(stream).Oversized? <==> |stream| >= 65536 && forall i :: 0 <= i <= 65532 ==> !FirstEmptyLine(stream, i)
    ensures HeadOf(stream).Oversized? ==> HeadOf(stream).status == 414 || HeadOf(stream).status == 431
  {
    hide Find, Classify, At, FirstEmptyLine;
    forall i: nat ensures FirstEmptyLine(stream, i) <==> Find(stream, HEAD_END, 0) == Some(i) { FirstIsFound(stream, i); }
    EndInside(stream);
    TwoStatuses(stream);
  }

  lemma TwoStatuses(stream: Bytes)
    ensures HeadOf(stream).Oversized? ==> HeadOf(stream).status == 414 || HeadOf(stream).status == 431
  {
    hide Find, LineTooLarge, TargetTooLong;
  }

  // ------------------------------------------------------------- what 414 means

  /** A space, the version and the end of the request line. */
  const VERSION_LINE: Bytes := FRAMING[1..12]

  function Target(line: Bytes): Bytes { Split(Split(line).after).before }

  /** Every head with the leading empty line, method and target of `data` starts like this. */
  function Beginning(data: Bytes): Bytes {
    var line := RequestLine(data);
    data[..Start(data)] + Split(line).before + SPACE + Target(line) + VERSION_LINE
  }

  /** Method, space and target are the first octets of the line. */
  lemma MethodAndTarget(line: Bytes)
    requires Split(line).separated
    ensures var p := |Split(line).before| + 1 + |Target(line)|;
            p <= |line| && line[..p] == Split(line).before + SPACE + Target(line)
  {
    hide Find, At;
    var a := Find(line, SPACE, 0).value;
    SpaceAt(line, a);
    var after := line[a + 1..];
    FoundInside(after, 0);
    var n := |Target(line)|;
    assert Target(line) == after[..n];
    assert line[..a + 1 + n] == line[..a] + [line[a]] + line[a + 1..a + 1 + n];
    assert after[..n] == line[a + 1..a + 1 + n];
  }

  lemma SpaceAt(line: Bytes, a: nat)
    requires At(line, a, SPACE)
    ensures a < |line| && line[a] == 32
  {
    assert line[a..a + 1][0] == line[a];
  }

  /** In such a head nothing ends before the request line does. */
  lemma NoEndBefore(data: Bytes, more: Bytes, j: nat)
    requires Split(RequestLine(data)).separated && Start(data) <= j < |Beginning(data)| - 2
    ensures !At(Beginning(data) + more, j, CRLF)
  {
    var start, line := Start(data), RequestLine(data);
    var p := |Split(line).before| + 1 + |Target(line)|;
    MethodAndTarget(line);
    BeginningIs(data, p);
    hide Beginning, Split, Find, RequestLine, At;
    VersionHasNoEnd(data[..start + p], more, j);
    if j + 1 < start + p {
      LineHasNoEnd(data, j);
      AtPrefix(data, start + p, j, CRLF);
    }
  }

  /** The version adds no line break before its own. */
  lemma VersionHasNoEnd(front: Bytes, more: Bytes, j: nat)
    requires j < |front| + 9
    ensures var x := front + VERSION_LINE + more;
            if j + 1 < |front| then At(x, j, CRLF) == At(front, j, CRLF) else !At(x, j, CRLF)
  {
    var x := front + VERSION_LINE + more;
    if j + 1 < |front| { assert x[j..j + 2] == front[j..j + 2]; }
    else if j < |front| { assert x[j..j + 2][1] == x[j + 1] == VERSION_LINE[0]; }
    else { assert x[j..j + 2][0] == x[j] == VERSION_LINE[j - |front|]; }
  }

  lemma LineHasNoEnd(data: Bytes, j: nat)
    requires Start(data) <= j && j + 1 < Start(data) + |RequestLine(data)|
    ensures !At(data, j, CRLF)
  {
    var i := Find(data, CRLF, Start(data));
    if i.Some? { LineInside(data, i.value); }
  }

  lemma BeginningIs(data: Bytes, p: nat)
    requires p <= |RequestLine(data)|
    requires RequestLine(data)[..p] == Split(RequestLine(data)).before + SPACE + Target(RequestLine(data))
    ensures Beginning(data) == data[..Start(data) + p] + VERSION_LINE && Start(data) + p <= |data|
  {
    hide Split, Find;
    var start, line := Start(data), RequestLine(data);
    LineIsThere(data);
    assert data[..start + p] == data[..start] + line[..p];
  }

  lemma LineIsThere(data: Bytes)
    ensures Start(data) + |RequestLine(data)| <= |data|
    ensures RequestLine(data) == data[Start(data)..Start(data) + |RequestLine(data)|]
  {
    var i := Find(data, CRLF, Start(data));
    if i.Some? { LineInside(data, i.value); }
  }

  lemma EndsLate(data: Bytes, more: Bytes, k: nat)
    requires Split(RequestLine(data)).separated && k < |Beginning(data)| - 2
    ensures !At(Beginning(data) + more, k, HEAD_END)
  {
    hide RequestLine, Split, Find;
    var x := Beginning(data) + more;
    var j := if k >= Start(data) then k else k + 2;
    NoEndBefore(data, more, j);
    hide Beginning;
    assert HEAD_END[..2] == CRLF && HEAD_END[2..] == CRLF;
    if k + 4 <= |x| { assert x[k..k + 4][..2] == x[k..k + 2] && x[k..k + 4][2..] == x[k + 2..k + 4]; }
  }

  /** 414 says exactly that the line is too large because of its target: the method leaves room, but no
      stream at all with this method and target, whatever follows them, has a complete head. */
  lemma TooLongMeansNoHeadFits(data: Bytes)
    ensures Classify(data) == 414 <==>
              && LineTooLarge(data) && Split(RequestLine(data)).separated
              && Start(data) + |Split(RequestLine(data)).before| + 14 < 65536
              && forall more: Bytes :: !HeadOf(Beginning(data) + more).Complete?
  {
    hide Find, HeadOf, Split, LineTooLarge;
    if Split(RequestLine(data)).separated {
      var size := |Beginning(data)| + 2;
      SizeOfBeginning(data);
      if size > MAX_HEAD_SIZE {
        forall more: Bytes ensures !HeadOf(Beginning(data) + more).Complete? { TooLateToFit(data, more); }
      } else {
        ShortestFits(data);
      }
    }
  }

  lemma SizeOfBeginning(data: Bytes)
    ensures var line := RequestLine(data);
            |Beginning(data)| + 2 == Start(data) + |Split(line).before| + |Target(line)| + |FRAMING|
  {
    hide Find;
    LineIsThere(data);
  }

  lemma TooLateToFit(data: Bytes, more: Bytes)
    requires Split(RequestLine(data)).separated && |Beginning(data)| + 2 > MAX_HEAD_SIZE
    ensures !HeadOf(Beginning(data) + more).Complete?
  {
    hide Find, Beginning, Split, RequestLine, At;
    var i := Find(Beginning(data) + more, HEAD_END, 0);
    if i.Some? && i.value < |Beginning(data)| - 2 { EndsLate(data, more, i.value); }
  }

  lemma ShortestFits(data: Bytes)
    requires |Beginning(data)| + 2 <= MAX_HEAD_SIZE
    ensures HeadOf(Beginning(data) + CRLF).Complete?
  {
    hide Split, RequestLine;
    var x := Beginning(data) + CRLF;
    var n := |Beginning(data)|;
    assert Beginning(data)[n - 2..] == VERSION_LINE[9..] == CRLF;
    assert x[n - 2..n + 2] == Beginning(data)[n - 2..] + CRLF;
    assert At(x, n - 2, HEAD_END);
  }

  /** The line is too large if no line break after the start leaves room for the rest of the head. */
  lemma LargeLines(data: Bytes)
    ensures LineTooLarge(data) <==> forall j :: (if Break(data, 0) then 2 else 0) <= j <= 65532 ==> !Break(data, j)
  {
    hide Find, At, Break;
    forall j: nat ensures Break(data, j) <==> At(data, j, CRLF) { BreakIs(data, j); }
    StartIs(data);
  }

  lemma StartIs(data: Bytes)
    ensures Start(data) == if Break(data, 0) then 2 else 0
  {
    BreakIs(data, 0);
    if |data| >= 2 { assert CRLF <= data <==> data[..2] == CRLF; assert data[0..2] == data[..2]; }
  }

  // ----------------------------------------------------------------- the readers

  /** The connection's reader: octets already buffered, then one chunk per read. */
  method ReadHead(buffered: Bytes, chunks: seq<Bytes>) returns (r: Head)
    ensures r == HeadOf(buffered + Concat(chunks))
  {
    var data := buffered;
    var k := 0;
    ghost var stream := buffered + Concat(chunks);
    assert chunks[0..] == chunks;
    while true
      invariant k <= |chunks| && stream == data + Concat(chunks[k..])
      decreases |chunks| - k
    {
      hide HeadOf, CheckHeadSize, Find;
      ChecksAgree(data);
      var status := CheckHeadSize(data, true);
      if status.Some? {
        HeadIsStable(data, Concat(chunks[k..]));
        return Oversized(status.value);
      }
      var end := Find(data, HEAD_END, 0);
      if end.Some? {
        HeadIsStable(data, Concat(chunks[k..]));
        return Complete(data[..end.value + |HEAD_END|]);
      }
      if k == |chunks| {
        assert data + [] == data;
        return Unfinished;
      }
      assert chunks[k..][0] == chunks[k] && chunks[k..][1..] == chunks[k + 1..];
      assert data + (chunks[k] + Concat(chunks[k + 1..])) == data + chunks[k] + Concat(chunks[k + 1..]);
      data := data + chunks[k];
      k := k + 1;
    }
  }

  datatype RedirectHead = Redirect(head: Head) | NoRequest | NotTerminated(status: int)

  /** The octets before the first empty chunk. */
  function UntilEnd(chunks: seq<Bytes>): Bytes {
    if chunks == [] || chunks[0] == [] then [] else chunks[0] + UntilEnd(chunks[1..])
  }

  /** The redirect listener's reader: an empty chunk is the end of the stream. */
  method ReadRedirectHead(chunks: seq<Bytes>) returns (r: RedirectHead)
    ensures var stream := UntilEnd(chunks);
            r == if !HeadOf(stream).Unfinished? then Redirect(HeadOf(stream))
                 else if stream == [] then NoRequest else NotTerminated(BAD_REQUEST)
  {
    var data: Bytes := [];
    var k := 0;
    ghost var stream := UntilEnd(chunks);
    assert chunks[0..] == chunks && [] + stream == stream;
    while true
      invariant k <= |chunks| && stream == data + UntilEnd(chunks[k..]) && HeadOf(data).Unfinished?
      decreases |chunks| - k
    {
      if k == |chunks| || chunks[k] == [] {
        assert data + [] == data;
        return if data == [] then NoRequest else NotTerminated(BAD_REQUEST);
      }
      hide HeadOf, CheckHeadSize, Find;
      assert chunks[k..][0] == chunks[k] && chunks[k..][1..] == chunks[k + 1..];
      assert data + (chunks[k] + UntilEnd(chunks[k + 1..])) == data + chunks[k] + UntilEnd(chunks[k + 1..]);
      data := data + chunks[k];
      k := k + 1;
      ChecksAgree(data);
      var status := CheckHeadSize(data, true);
      if status.Some? {
        HeadIsStable(data, UntilEnd(chunks[k..]));
        return Redirect(Oversized(status.value));
      }
      var end := Find(data, HEAD_END, 0);
      if end.Some? {
        HeadIsStable(data, UntilEnd(chunks[k..]));
        return Redirect(Complete(data[..end.value + |HEAD_END|]));
      }
    }
  }
}
