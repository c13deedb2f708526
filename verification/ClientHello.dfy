/** The ClientHello: its parser against an exact description of what it accepts, and its reassembly from
    TLS records, which ignores where the records end (sections 4.1.2 and 5.1 of RFC 8446). */
module ClientHellos {
  import opened Wire

  datatype Extension = Extension(kind: nat, data: Bytes)

  datatype ClientHello = ClientHello(
    version: nat,
    random: Bytes,
    sessionId: Bytes,
    cipherSuites: seq<nat>,
    compressionMethods: Bytes,
    extensions: seq<Extension>)

  // --------------------------------------------------------------- byte reader

  /** A value, or the ValueError of a read past the end. */
  datatype Read<+T> = Value(value: T) | Short {
    predicate IsFailure() { Short? }

    function PropagateFailure<U>(): Read<U> { Short }

    function Extract(): T
      requires Value?
    {
      value
    }
  }

  class ByteReader {
    const data: Bytes
    var pos: nat

    constructor (data: Bytes)
      ensures Valid() && this.data == data && Rest() == data
    {
      this.data, pos := data, 0;
    }

    ghost predicate Valid()
      reads this
    {
      pos <= |data|
    }

    /** What has not been read yet. */
    ghost function Rest(): Bytes
      requires Valid()
      reads this
    {
      data[pos..]
    }

    predicate HasMore()
      requires Valid()
      reads this
      ensures HasMore() <==> Rest() != []
    {
      pos < |data|
    }

    /** Reads exactly `n` octets or fails and stays where it is. */
    method Read(n: int) returns (r: Read<Bytes>)
      requires Valid()
      modifies this
      ensures Valid()
      ensures r.Value? <==> 0 <= n <= |old(Rest())|
      ensures r.Value? ==> r.value == old(Rest())[..n] && Rest() == old(Rest())[n..]
      ensures r.Short? ==> pos == old(pos)
    {
      if n < 0 {
        return Short;
      }
      if pos + n > |data| {
        return Short;
      }
      r := Value(data[pos..pos + n]);
      pos := pos + n;
    }

    method ReadRemaining() returns (r: Read<Bytes>)
      requires Valid()
      modifies this
      ensures Valid() && r == Value(old(Rest())) && Rest() == []
    {
      r := Read(|data| - pos);
      assert old(Rest())[..|old(Rest())|] == old(Rest());
    }

    method ReadUint8() returns (r: Read<nat>)
      requires Valid()
      modifies this
      ensures Valid()
      ensures r.Value? <==> old(Rest()) != []
      ensures r.Value? ==> r.value == old(Rest())[0] && Rest() == old(Rest())[1..]
    {
      var s :- Read(1);
      return Value(s[0]);
    }

    method ReadUint16() returns (r: Read<nat>)
      requires Valid()
      modifies this
      ensures Valid()
      ensures r.Value? <==> |old(Rest())| >= 2
      ensures r.Value? ==> r.value == U16(old(Rest())[..2]) && Rest() == old(Rest())[2..]
    {
      var s :- Read(2);
      return Value(U16(s));
    }

    method ReadUint24() returns (r: Read<nat>)
      requires Valid()
      modifies this
      ensures Valid()
      ensures r.Value? <==> |old(Rest())| >= 3
      ensures r.Value? ==> r.value == U24(old(Rest())[..3]) && Rest() == old(Rest())[3..]
    {
      var s :- Read(3);
      return Value(U24(s));
    }

    /** A blob with its length in front, in one, two or three octets. */
    method ReadVector(width: int) returns (r: Read<Bytes>)
      requires Valid()
      modifies this
      ensures Valid()
      ensures var vector := Vector(old(Rest()), width);
              if vector.None? then r.Short? else r == Value(vector.value.0) && Rest() == vector.value.1
    {
      hide U16, U24, Vector;
      ghost var before := Rest();
      VectorShort(before, width);
      var length;
      if width == 1 {
        length :- ReadUint8();
      } else if width == 2 {
        length :- ReadUint16();
      } else if width == 3 {
        length :- ReadUint24();
      } else {
        return Short;
      }
      VectorFound(before, width, length);
      r := Read(length);
    }
  }

  lemma Within(s: Bytes, i: nat, n: nat)
    requires i + n <= |s|
    ensures s[i..][..n] == s[i..i + n] && s[i..][n..] == s[i + n..]
  {
  }

  lemma VectorShort(s: Bytes, width: int)
    ensures !(1 <= width <= 3) || |s| < width ==> Vector(s, width).None?
  {
  }

  lemma VectorFound(s: Bytes, width: nat, n: nat)
    requires 1 <= width <= 3 && width <= |s|
    requires n == if width == 1 then s[0] as nat else if width == 2 then U16(s[..2]) else U24(s[..3])
    ensures var rest := s[width..];
            Vector(s, width) == if n > |rest| then None else Some((rest[..n], rest[n..]))
  {
    hide U16, U24;
    if width + n <= |s| { Within(s, width, n); }
  }

  // ------------------------------------------------------------- specification

  /** A vector at the front of `s`, and what follows it. */
  function Vector(s: Bytes, width: int): Option<(Bytes, Bytes)> {
    if !(1 <= width <= 3) || |s| < width then None
    else
      var n: int := if width == 1 then s[0] else if width == 2 then U16(s[..2]) else U24(s[..3]);
      if width + n > |s| then None else Some((s[width..width + n], s[width + n..]))
  }

  function SuitesOf(s: Bytes): Option<seq<nat>> {
    if s == [] then Some([])
    else if |s| < 2 then None
    else
      match SuitesOf(s[2..])
      case None => None
      case Some(suites) => Some([U16(s[..2])] + suites)
  }

  function ExtensionsOf(s: Bytes): Option<seq<Extension>>
    decreases |s|
  {
    if s == [] then Some([])
    else if |s| < 2 then None
    else
      match Vector(s[2..], 2)
      case None => None
      case Some((data, rest)) =>
        match ExtensionsOf(rest)
        case None => None
        case Some(extensions) => Some([Extension(U16(s[..2]), data)] + extensions)
  }

  /** `ClientHelloReader.parse`: octets after the extensions are left alone, and the extensions may be missing. */
  function HelloOf(s: Bytes): Option<ClientHello> {
    if |s| < 34 then None else VectorsOf(U16(s[..2]), s[2..34], s[34..])
  }

  function VectorsOf(version: nat, random: Bytes, s: Bytes): Option<ClientHello> {
    match Vector(s, 1)
    case None => None
    case Some((sessionId, s2)) =>
      match Vector(s2, 2)
      case None => None
      case Some((suites, s3)) =>
        match SuitesOf(suites)
        case None => None
        case Some(cipherSuites) =>
          match Vector(s3, 1)
          case None => None
          case Some((methods, s4)) =>
            match TailOf(s4)
            case None => None
            case Some(extensions) =>
              Some(ClientHello(version, random, sessionId, cipherSuites, methods, extensions))
  }

  function TailOf(s: Bytes): Option<seq<Extension>> {
    if s == [] then Some([])
    else
      match Vector(s, 2)
      case None => None
      case Some((extensions, _)) => ExtensionsOf(extensions)
  }

  // ---------------------------------------------------------------- the parser

  /** What is still to be read continues what has been read. */
  ghost predicate Continues<T>(all: Option<seq<T>>, done: seq<T>, rest: Option<seq<T>>) {
    if rest.None? then all.None? else all == Some(done + rest.value)
  }

  lemma ContinuesFirst<T>(all: Option<seq<T>>)
    ensures Continues(all, [], all)
  {
    if all.Some? { assert [] + all.value == all.value; }
  }

  lemma ContinuesNext<T>(all: Option<seq<T>>, done: seq<T>, x: T, rest: Option<seq<T>>)
    requires Continues(all, done, if rest.None? then None else Some([x] + rest.value))
    ensures Continues(all, done + [x], rest)
  {
    if rest.Some? { assert done + ([x] + rest.value) == done + [x] + rest.value; }
  }

  lemma ContinuesLast<T>(all: Option<seq<T>>, done: seq<T>)
    requires Continues(all, done, Some([]))
    ensures all == Some(done)
  {
    assert done + [] == done;
  }

  /** One turn of the loop over the suites. */
  lemma SuiteTurn(all: Option<seq<nat>>, done: seq<nat>, rest: Bytes)
    requires Continues(all, done, SuitesOf(rest))
    ensures rest == [] ==> all == Some(done)
    ensures |rest| == 1 ==> all.None?
    ensures |rest| >= 2 ==> Continues(all, done + [U16(rest[..2])], SuitesOf(rest[2..]))
  {
    hide U16, Continues;
    if rest == [] { ContinuesLast(all, done); }
    else if |rest| == 1 { ContinuesNone(all, done); }
    else { ContinuesNext(all, done, U16(rest[..2]), SuitesOf(rest[2..])); }
  }

  lemma ContinuesNone<T>(all: Option<seq<T>>, done: seq<T>)
    requires Continues(all, done, None)
    ensures all.None?
  {
  }

  /** One turn of the loop over the extensions. */
  lemma ExtensionTurn(all: Option<seq<Extension>>, done: seq<Extension>, rest: Bytes)
    requires Continues(all, done, ExtensionsOf(rest))
    ensures rest == [] ==> all == Some(done)
    ensures |rest| == 1 ==> all.None?
    ensures |rest| >= 2 ==>
              var vector := Vector(rest[2..], 2);
              if vector.None? then all.None?
              else |vector.value.1| < |rest|
                   && Continues(all, done + [Extension(U16(rest[..2]), vector.value.0)], ExtensionsOf(vector.value.1))
  {
    hide U16, Continues, Vector;
    if rest == [] { ContinuesLast(all, done); }
    else if |rest| == 1 || Vector(rest[2..], 2).None? { ContinuesNone(all, done); }
    else {
      var (data, more) := Vector(rest[2..], 2).value;
      VectorShrinks(rest[2..], 2);
      ContinuesNext(all, done, Extension(U16(rest[..2]), data), ExtensionsOf(more));
    }
  }

  method ParseSuites(s: Bytes) returns (r: Read<seq<nat>>)
    ensures if SuitesOf(s).None? then r.Short? else r == Value(SuitesOf(s).value)
  {
    hide U16, SuitesOf, Continues;
    var reader := new ByteReader(s);
    var suites: seq<nat> := [];
    ContinuesFirst(SuitesOf(s));
    while reader.HasMore()
      invariant reader.Valid() && Continues(SuitesOf(s), suites, SuitesOf(reader.Rest()))
      decreases |reader.Rest()|
    {
      SuiteTurn(SuitesOf(s), suites, reader.Rest());
      var suite :- reader.ReadUint16();
      suites := suites + [suite];
    }
    SuiteTurn(SuitesOf(s), suites, reader.Rest());
    return Value(suites);
  }

  method ParseExtensions(s: Bytes) returns (r: Read<seq<Extension>>)
    ensures if ExtensionsOf(s).None? then r.Short? else r == Value(ExtensionsOf(s).value)
  {
    hide U16, Vector, ExtensionsOf, Continues;
    var reader := new ByteReader(s);
    var extensions: seq<Extension> := [];
    ContinuesFirst(ExtensionsOf(s));
    while reader.HasMore()
      invariant reader.Valid() && Continues(ExtensionsOf(s), extensions, ExtensionsOf(reader.Rest()))
      decreases |reader.Rest()|
    {
      ExtensionTurn(ExtensionsOf(s), extensions, reader.Rest());
      var kind :- reader.ReadUint16();
      var data :- reader.ReadVector(2);
      extensions := extensions + [Extension(kind, data)];
    }
    ExtensionTurn(ExtensionsOf(s), extensions, reader.Rest());
    return Value(extensions);
  }

  lemma VectorShrinks(s: Bytes, width: int)
    ensures var v := Vector(s, width); v.Some? ==> |v.value.1| < |s|
  {
  }

  method ParseTail(reader: ByteReader) returns (r: Read<seq<Extension>>)
    requires reader.Valid()
    modifies reader
    ensures reader.Valid()
    ensures var tail := TailOf(old(reader.Rest())); if tail.None? then r.Short? else r == Value(tail.value)
  {
    hide Vector, ExtensionsOf;
    if !reader.HasMore() {
      return Value([]);
    }
    var block :- reader.ReadVector(2);
    r := ParseExtensions(block);
  }

  method ParseVectors(reader: ByteReader, version: nat, random: Bytes) returns (r: Read<ClientHello>)
    requires reader.Valid()
    modifies reader
    ensures var hello := VectorsOf(version, random, old(reader.Rest())); if hello.None? then r.Short? else r == Value(hello.value)
  {
    hide Vector, SuitesOf, TailOf;
    var sessionId :- reader.ReadVector(1);
    var suites :- reader.ReadVector(2);
    var cipherSuites :- ParseSuites(suites);
    var methods :- reader.ReadVector(1);
    var extensions :- ParseTail(reader);
    return Value(ClientHello(version, random, sessionId, cipherSuites, methods, extensions));
  }

  method Parse(body: Bytes) returns (r: Read<ClientHello>)
    ensures if HelloOf(body).None? then r.Short? else r == Value(HelloOf(body).value)
  {
    hide U16, VectorsOf;
    var reader := new ByteReader(body);
    var version :- reader.ReadUint16();
    var random :- reader.Read(32);
    Within(body, 2, 32);
    r := ParseVectors(reader, version, random);
  }

  // ------------------------------------------------------ the inverse: serialising

  function RenderSuites(suites: seq<nat>): (s: Bytes)
    requires forall i :: 0 <= i < |suites| ==> suites[i] < 0x1_0000
    ensures |s| == 2 * |suites|
  {
    if suites == [] then [] else Put16(suites[0]) + RenderSuites(suites[1..])
  }

  predicate WellFormedExtensions(extensions: seq<Extension>) {
    forall i :: 0 <= i < |extensions| ==> extensions[i].kind < 0x1_0000 && |extensions[i].data| < 0x1_0000
  }

  function RenderExtensions(extensions: seq<Extension>): Bytes
    requires WellFormedExtensions(extensions)
  {
    if extensions == [] then []
    else
      var x := extensions[0];
      Put16(x.kind) + ((Put16(|x.data|) + x.data) + RenderExtensions(extensions[1..]))
  }

  /** The hello fits its own length fields. */
  predicate WellFormed(h: ClientHello) {
    && h.version < 0x1_0000 && |h.random| == 32 && |h.sessionId| < 256 && |h.compressionMethods| < 256
    && 2 * |h.cipherSuites| < 0x1_0000 && (forall i :: 0 <= i < |h.cipherSuites| ==> h.cipherSuites[i] < 0x1_0000)
    && WellFormedExtensions(h.extensions) && |RenderExtensions(h.extensions)| < 0x1_0000
  }

  /** Everything up to the extensions. */
  function RenderFront(h: ClientHello): Bytes
    requires WellFormed(h)
  {
    (Put16(h.version) + h.random)
    + (([|h.sessionId|] + h.sessionId)
    + ((Put16(2 * |h.cipherSuites|) + RenderSuites(h.cipherSuites))
    + ([|h.compressionMethods|] + h.compressionMethods)))
  }

  /** The octets that mean `h`: an empty extension list may be left out, and octets may follow a list. */
  ghost predicate Means(s: Bytes, h: ClientHello) {
    && WellFormed(h)
    && ((h.extensions == [] && s == RenderFront(h))
        || exists tail: Bytes :: s == RenderFront(h) + Block(h.extensions) + tail)
  }

  function Block(extensions: seq<Extension>): Bytes
    requires WellFormedExtensions(extensions) && |RenderExtensions(extensions)| < 0x1_0000
  {
    Put16(|RenderExtensions(extensions)|) + RenderExtensions(extensions)
  }

  // --------------------------------------------------------- accepted, so it means

  lemma Vector1(s: Bytes, content: Bytes, rest: Bytes)
    requires Vector(s, 1) == Some((content, rest))
    ensures |content| < 256 && s == ([|content|] + content) + rest
  {
  }

  lemma Vector2(s: Bytes, content: Bytes, rest: Bytes)
    requires Vector(s, 2) == Some((content, rest))
    ensures |content| < 0x1_0000 && s == (Put16(|content|) + content) + rest
  {
    Put16OfU16(s[..2]);
    assert s == s[..2] + s[2..2 + |content|] + s[2 + |content|..];
  }

  lemma {:induction false} SuitesMean(s: Bytes)
    requires SuitesOf(s).Some?
    ensures var suites := SuitesOf(s).value;
            (forall i :: 0 <= i < |suites| ==> suites[i] < 0x1_0000) && s == RenderSuites(suites)
  {
    if s != [] {
      SuitesMean(s[2..]);
      Put16OfU16(s[..2]);
      hide U16, Put16;
      assert s == s[..2] + s[2..];
      var suites := SuitesOf(s).value;
      assert suites[1..] == SuitesOf(s[2..]).value;
    }
  }

  lemma {:induction false} ExtensionsMean(s: Bytes)
    requires ExtensionsOf(s).Some?
    ensures WellFormedExtensions(ExtensionsOf(s).value) && s == RenderExtensions(ExtensionsOf(s).value)
    decreases |s|
  {
    if s != [] {
      var (data, rest) := Vector(s[2..], 2).value;
      VectorShrinks(s[2..], 2);
      ExtensionsMean(rest);
      Vector2(s[2..], data, rest);
      Put16OfU16(s[..2]);
      hide U16, Put16, Vector;
      assert s == s[..2] + s[2..];
      var all := ExtensionsOf(s).value;
      assert all[1..] == ExtensionsOf(rest).value;
    }
  }

  lemma TailMeans(s: Bytes)
    requires TailOf(s).Some?
    ensures var x := TailOf(s).value;
            && WellFormedExtensions(x) && |RenderExtensions(x)| < 0x1_0000
            && ((s == [] && x == []) || exists tail: Bytes :: s == Block(x) + tail)
  {
    if s != [] {
      var (block, rest) := Vector(s, 2).value;
      Vector2(s, block, rest);
      ExtensionsMean(block);
      assert s == Block(TailOf(s).value) + rest;
    }
  }

  lemma AcceptedMeans(s: Bytes)
    requires HelloOf(s).Some?
    ensures Means(s, HelloOf(s).value)
  {
    hide Vector, SuitesOf, ExtensionsOf, U16, Put16, TailOf, RenderSuites, RenderExtensions, Block;
    var h := HelloOf(s).value;
    var (sessionId, s2) := Vector(s[34..], 1).value;
    var (suites, s3) := Vector(s2, 2).value;
    var (methods, s4) := Vector(s3, 1).value;
    Vector1(s[34..], sessionId, s2);
    Vector2(s2, suites, s3);
    Vector1(s3, methods, s4);
    SuitesMean(suites);
    TailMeans(s4);
    Put16OfU16(s[..2]);
    FrontFirst(s, h, s2, s3, s4);
    if !(s4 == [] && h.extensions == []) {
      var tail: Bytes :| s4 == Block(h.extensions) + tail;
      assert s == RenderFront(h) + Block(h.extensions) + tail;
    }
  }

  lemma FrontFirst(s: Bytes, h: ClientHello, s2: Bytes, s3: Bytes, s4: Bytes)
    requires WellFormed(h) && |s| >= 34 && s[..2] == Put16(h.version) && s[2..34] == h.random
    requires s[34..] == ([|h.sessionId|] + h.sessionId) + s2
    requires s2 == (Put16(2 * |h.cipherSuites|) + RenderSuites(h.cipherSuites)) + s3
    requires s3 == ([|h.compressionMethods|] + h.compressionMethods) + s4
    ensures s == RenderFront(h) + s4
  {
    hide Put16, RenderSuites, RenderExtensions;
    assert s == s[..2] + s[2..34] + s[34..];
    var a, b, c := [|h.sessionId|] + h.sessionId, Put16(2 * |h.cipherSuites|) + RenderSuites(h.cipherSuites),
                   [|h.compressionMethods|] + h.compressionMethods;
    assert a + (b + (c + s4)) == (a + (b + c)) + s4;
    var head := Put16(h.version) + h.random;
    assert head + ((a + (b + c)) + s4) == (head + (a + (b + c))) + s4;
  }

  // -------------------------------------------------------- it means, so accepted

  lemma VectorOf1(content: Bytes, rest: Bytes)
    requires |content| < 256
    ensures Vector(([|content|] + content) + rest, 1) == Some((content, rest))
  {
  }

  lemma VectorOf2(content: Bytes, rest: Bytes)
    requires |content| < 0x1_0000
    ensures Vector((Put16(|content|) + content) + rest, 2) == Some((content, rest))
  {
    var s := (Put16(|content|) + content) + rest;
    assert s[..2] == Put16(|content|);
    assert s[2..2 + |content|] == content && s[2 + |content|..] == rest;
  }

  lemma {:induction false} SuitesAccepted(suites: seq<nat>)
    requires forall i :: 0 <= i < |suites| ==> suites[i] < 0x1_0000
    ensures SuitesOf(RenderSuites(suites)) == Some(suites)
  {
    if suites != [] {
      SuitesAccepted(suites[1..]);
      hide U16, Put16;
      var s := RenderSuites(suites);
      assert s[..2] == Put16(suites[0]) && s[2..] == RenderSuites(suites[1..]);
      assert [suites[0]] + suites[1..] == suites;
    }
  }

  lemma {:induction false} ExtensionsAccepted(extensions: seq<Extension>)
    requires WellFormedExtensions(extensions)
    ensures ExtensionsOf(RenderExtensions(extensions)) == Some(extensions)
  {
    if extensions != [] {
      ExtensionsAccepted(extensions[1..]);
      var x, more := extensions[0], RenderExtensions(extensions[1..]);
      var s := RenderExtensions(extensions);
      hide U16, Put16, Vector, ExtensionsOf;
      ExtensionFirst(s, x, more);
      assert [x] + extensions[1..] == extensions;
    }
  }

  lemma ExtensionFirst(s: Bytes, x: Extension, more: Bytes)
    requires x.kind < 0x1_0000 && |x.data| < 0x1_0000 && s == Put16(x.kind) + ((Put16(|x.data|) + x.data) + more)
    ensures ExtensionsOf(s) == if ExtensionsOf(more).None? then None else Some([x] + ExtensionsOf(more).value)
  {
    hide U16, Put16, Vector;
    VectorOf2(x.data, more);
    assert s[..2] == Put16(x.kind) && s[2..] == (Put16(|x.data|) + x.data) + more;
  }

  lemma TailAccepted(extensions: seq<Extension>, tail: Bytes)
    requires WellFormedExtensions(extensions) && |RenderExtensions(extensions)| < 0x1_0000
    ensures TailOf(Block(extensions) + tail) == Some(extensions)
  {
    hide U16, Put16, Vector;
    VectorOf2(RenderExtensions(extensions), tail);
    ExtensionsAccepted(extensions);
  }

  lemma FrontAccepted(h: ClientHello, s4: Bytes)
    requires WellFormed(h) && TailOf(s4) == Some(h.extensions)
    ensures HelloOf(RenderFront(h) + s4) == Some(h)
  {
    hide Vector, SuitesOf, ExtensionsOf, U16, Put16, TailOf, RenderSuites, RenderExtensions;
    var a, b, c := [|h.sessionId|] + h.sessionId, Put16(2 * |h.cipherSuites|) + RenderSuites(h.cipherSuites),
                   [|h.compressionMethods|] + h.compressionMethods;
    var s, head := RenderFront(h) + s4, Put16(h.version) + h.random;
    assert head[..2] == Put16(h.version) && head[2..] == h.random;
    assert s == head + (a + (b + (c + s4)));
    assert s[..2] == head[..2] && s[2..34] == head[2..] && s[34..] == a + (b + (c + s4));
    VectorOf1(h.sessionId, b + (c + s4));
    VectorOf2(RenderSuites(h.cipherSuites), c + s4);
    SuitesAccepted(h.cipherSuites);
    VectorOf1(h.compressionMethods, s4);
  }

  /** The parser accepts exactly the octets that mean a hello, and returns the hello they mean. */
  lemma ParserIsExact(s: Bytes, h: ClientHello)
    ensures HelloOf(s) == Some(h) <==> Means(s, h)
  {
    hide HelloOf, RenderFront, Block;
    if HelloOf(s) == Some(h) { AcceptedMeans(s); }
    if Means(s, h) {
      if h.extensions == [] && s == RenderFront(h) {
        FrontAccepted(h, []);
        assert s + [] == s;
      } else {
        var tail: Bytes :| s == RenderFront(h) + Block(h.extensions) + tail;
        AcceptExtended(h, tail);
        assert s == RenderFront(h) + (Block(h.extensions) + tail);
      }
    }
  }

  lemma AcceptExtended(h: ClientHello, tail: Bytes)
    requires WellFormed(h)
    ensures HelloOf(RenderFront(h) + (Block(h.extensions) + tail)) == Some(h)
  {
    TailAccepted(h.extensions, tail);
    FrontAccepted(h, Block(h.extensions) + tail);
  }

  // -------------------------------------------------------------- reassembly

  const RECORD_HEADER_SIZE := 5
  const ALERT := 0x15
  const HANDSHAKE := 0x16
  const CLIENT_HELLO := 0x01
  const MESSAGE_HEADER_SIZE := 4
  const MAX_RECORD_SIZE := 16384
  const MAX_CLIENT_HELLO_SIZE := 65536
  const UNEXPECTED_MESSAGE := 10
  const RECORD_OVERFLOW := 22
  const DECODE_ERROR := 50

  /** `Refused` closes the connection, after an alert if there is one to send. */
  datatype Outcome = Hello(hello: ClientHello) | Refused(alert: Option<nat>) | NeedMore

  /** What the handshake octets so far amount to, wherever their records ended. */
  function Decide(message: Bytes): Outcome {
    if |message| < MESSAGE_HEADER_SIZE then NeedMore
    else if message[0] != CLIENT_HELLO then Refused(Some(UNEXPECTED_MESSAGE))
    else
      var n := U24(message[1..4]);
      if n > MAX_CLIENT_HELLO_SIZE then Refused(None)
      else if |message| < MESSAGE_HEADER_SIZE + n then NeedMore
      else
        match HelloOf(message[MESSAGE_HEADER_SIZE..MESSAGE_HEADER_SIZE + n])
        case None => Refused(Some(DECODE_ERROR))
        case Some(hello) => Hello(hello)
  }

  /** The records off the wire, added to a message that needs more. NeedMore is the end of the stream. */
  function Assemble(wire: Bytes, message: Bytes): Outcome
    decreases |wire|
  {
    if |wire| < RECORD_HEADER_SIZE then NeedMore
    else if wire[0] != HANDSHAKE then Refused(if wire[0] == ALERT then None else Some(UNEXPECTED_MESSAGE))
    else
      var n := U16(wire[3..5]);
      if n == 0 then Refused(None)
      else if n > MAX_RECORD_SIZE then Refused(Some(RECORD_OVERFLOW))
      else if |wire| < RECORD_HEADER_SIZE + n then NeedMore
      else
        var m := message + wire[RECORD_HEADER_SIZE..RECORD_HEADER_SIZE + n];
        if Decide(m).NeedMore? then Assemble(wire[RECORD_HEADER_SIZE + n..], m) else Decide(m)
  }

  lemma DecisionIsFinal(message: Bytes, more: Bytes)
    requires !Decide(message).NeedMore?
    ensures Decide(message + more) == Decide(message)
  {
    hide HelloOf, U24;
    var all := message + more;
    assert all[1..4] == message[1..4];
    var n := U24(message[1..4]);
    if |message| >= MESSAGE_HEADER_SIZE + n {
      assert all[MESSAGE_HEADER_SIZE..MESSAGE_HEADER_SIZE + n] == message[MESSAGE_HEADER_SIZE..MESSAGE_HEADER_SIZE + n];
    }
  }

  datatype Record = Record(major: byte, minor: byte, payload: Bytes)

  predicate ValidRecord(r: Record) { 0 < |r.payload| <= MAX_RECORD_SIZE }

  function RecordBytes(r: Record): Bytes
    requires ValidRecord(r)
  {
    [HANDSHAKE, r.major, r.minor] + Put16(|r.payload|) + r.payload
  }

  predicate ValidRecords(records: seq<Record>) { forall i :: 0 <= i < |records| ==> ValidRecord(records[i]) }

  function OnWire(records: seq<Record>): Bytes
    requires ValidRecords(records)
  {
    if records == [] then [] else RecordBytes(records[0]) + OnWire(records[1..])
  }

  function Payloads(records: seq<Record>): Bytes {
    if records == [] then [] else records[0].payload + Payloads(records[1..])
  }

  lemma OneRecord(r: Record, rest: Bytes, message: Bytes)
    requires ValidRecord(r)
    ensures var m := message + r.payload;
            Assemble(RecordBytes(r) + rest, message) == if Decide(m).NeedMore? then Assemble(rest, m) else Decide(m)
  {
    hide Decide, U16, Put16;
    var wire := RecordBytes(r) + rest;
    assert wire[0] == HANDSHAKE && wire[3..5] == Put16(|r.payload|);
    assert wire[5..5 + |r.payload|] == r.payload && wire[5 + |r.payload|..] == rest;
  }

  /** Valid records amount to their payloads: the decision on them, or, undecided, the same message. */
  lemma {:induction false} RecordsAreTransparent(records: seq<Record>, rest: Bytes, message: Bytes)
    requires ValidRecords(records) && Decide(message).NeedMore?
    ensures var m := message + Payloads(records);
            Assemble(OnWire(records) + rest, message) == if Decide(m).NeedMore? then Assemble(rest, m) else Decide(m)
    decreases |records|
  {
    hide Decide, RecordBytes;
    if records == [] {
      assert [] + rest == rest && message + [] == message;
    } else {
      var r, more := records[0], records[1..];
      assert OnWire(records) + rest == RecordBytes(r) + (OnWire(more) + rest);
      assert message + Payloads(records) == message + r.payload + Payloads(more);
      hide Assemble;
      OneRecord(r, OnWire(more) + rest, message);
      var m := message + r.payload;
      if Decide(m).NeedMore? { RecordsAreTransparent(more, rest, m); } else { DecisionIsFinal(m, Payloads(more)); }
    }
  }

  /** However the same handshake octets are cut into records, the hello or the alert is the same. */
  lemma SplitsDoNotMatter(a: seq<Record>, b: seq<Record>, rest: Bytes)
    requires ValidRecords(a) && ValidRecords(b) && Payloads(a) == Payloads(b)
    ensures Assemble(OnWire(a) + rest, []) == Assemble(OnWire(b) + rest, [])
  {
    RecordsAreTransparent(a, rest, []);
    RecordsAreTransparent(b, rest, []);
  }

  lemma {:induction false} WireAppend(records: seq<Record>, r: Record)
    requires ValidRecords(records) && ValidRecord(r)
    ensures OnWire(records + [r]) == OnWire(records) + RecordBytes(r)
    ensures Payloads(records + [r]) == Payloads(records) + r.payload
  {
    hide RecordBytes;
    if records == [] {
      assert [r][1..] == [];
    } else {
      assert (records + [r])[1..] == records[1..] + [r];
      WireAppend(records[1..], r);
    }
  }

  // ------------------------------------------------------ what the outcomes mean

  /** A client hello as a handshake message: its type, its length in three octets, its body. */
  function Message(body: Bytes): Bytes
    requires |body| <= 65536
  {
    [1] + Put24(|body|) + body
  }

  /** The stream begins with valid records that carry this body, whatever follows in them or after them. */
  ghost predicate Sends(wire: Bytes, body: Bytes) {
    |body| <= 65536 && exists records, more, rest :: SentIn(wire, body, records, more, rest)
  }

  ghost predicate SentIn(wire: Bytes, body: Bytes, records: seq<Record>, more: Bytes, rest: Bytes)
    requires |body| <= 65536
  {
    ValidRecords(records) && wire == OnWire(records) + rest && Payloads(records) == Message(body) + more
  }

  lemma MessageDecided(body: Bytes, more: Bytes)
    requires |body| <= 65536
    ensures Decide(Message(body) + more) == match HelloOf(body) case None => Refused(Some(50)) case Some(h) => Hello(h)
  {
    hide HelloOf, U24, Put24;
    var m := Message(body) + more;
    assert m[0] == 1 && m[1..4] == Put24(|body|) && m[4..4 + |body|] == body;
  }

  /** The body that was sent is the body that is parsed: a hello exactly if it means one, and then that one;
      otherwise the decode_error alert. */
  lemma HelloIsWhatWasSent(wire: Bytes, body: Bytes)
    requires Sends(wire, body)
    ensures var r := Assemble(wire, []);
            if exists h :: Means(body, h) then r.Hello? && Means(body, r.hello) else r == Refused(Some(50))
  {
    hide Assemble, OnWire, Payloads, Message, Means, HelloOf;
    var records, more, rest :| SentIn(wire, body, records, more, rest);
    RecordsAreTransparent(records, rest, []);
    assert [] + Payloads(records) == Payloads(records);
    MessageDecided(body, more);
    hide Decide;
    if HelloOf(body).Some? { ParserIsExact(body, HelloOf(body).value); }
    forall h ensures Means(body, h) <==> HelloOf(body) == Some(h) { ParserIsExact(body, h); }
  }

  lemma HelloWasSent(message: Bytes, records: seq<Record>, raw: Bytes, rest: Bytes)
    requires ValidRecords(records) && raw == OnWire(records) && message == Payloads(records) && Decide(message).Hello?
    ensures exists body :: Sends(raw + rest, body) && Means(body, Decide(message).hello)
  {
    hide OnWire, Payloads, Means, HelloOf, U24, Put24;
    var n := U24(message[1..4]);
    var body, more := message[4..4 + n], message[4 + n..];
    assert message == Message(body) + more by {
      Put24OfU24(message[1..4]);
      assert message == [message[0]] + message[1..4] + body + more;
    }
    assert SentIn(raw + rest, body, records, more, rest);
    ParserIsExact(body, Decide(message).hello);
  }

  lemma Put24OfU24(s: Bytes)
    requires |s| == 3
    ensures Put24(U24(s)) == s
  {
    Put16OfU16(s[1..]);
    assert s == [s[0]] + s[1..] && U24(s) / 0x1_0000 == s[0] && U24(s) % 0x1_0000 == U16(s[1..]);
  }

  /** What else can happen, after valid records that leave the message open: the first octets of the next record
      or of the message decide, in the numbers of RFC 8446. */
  lemma OtherOutcomes(records: seq<Record>, rest: Bytes)
    requires ValidRecords(records)
    ensures var m, r := Payloads(records), Assemble(OnWire(records) + rest, []);
            && (|m| >= 4 && m[0] != 1 ==> r == Refused(Some(10)))
            && (|m| >= 4 && m[0] == 1 && U24(m[1..4]) > 65536 ==> r == Refused(None))
            && (|m| < 4 || (m[0] == 1 && U24(m[1..4]) <= 65536 && |m| < 4 + U24(m[1..4])) ==>
                  && (|rest| < 5 ==> r == NeedMore)
                  && (|rest| >= 5 && rest[0] == 21 ==> r == Refused(None))
                  && (|rest| >= 5 && rest[0] != 21 && rest[0] != 22 ==> r == Refused(Some(10)))
                  && (|rest| >= 5 && rest[0] == 22 && U16(rest[3..5]) == 0 ==> r == Refused(None))
                  && (|rest| >= 5 && rest[0] == 22 && U16(rest[3..5]) > 16384 ==> r == Refused(Some(22)))
                  && (|rest| >= 5 && rest[0] == 22 && 0 < U16(rest[3..5]) <= 16384 && |rest| < 5 + U16(rest[3..5]) ==> r == NeedMore))
  {
    hide HelloOf, U24, U16, OnWire, Payloads;
    var m := Payloads(records);
    DecidedByHeader(m);
    RecordsAreTransparent(records, rest, []);
    assert [] + m == m;
  }

  /** What the octets read so far and those still to come amount to. */
  function Outlook(message: Bytes, rest: Bytes): Outcome {
    if Decide(message).NeedMore? then Assemble(rest, message) else Decide(message)
  }

  lemma RecordRead(rest: Bytes, message: Bytes, r: Record, n: nat)
    requires Decide(message).NeedMore? && |rest| >= RECORD_HEADER_SIZE + n && 0 < n == U16(rest[3..5]) <= MAX_RECORD_SIZE
    requires rest[0] == HANDSHAKE && r == Record(rest[1], rest[2], rest[RECORD_HEADER_SIZE..RECORD_HEADER_SIZE + n])
    ensures Outlook(message + r.payload, rest[RECORD_HEADER_SIZE + n..]) == Outlook(message, rest)
    ensures rest[..RECORD_HEADER_SIZE + n] == RecordBytes(r)
  {
    hide Decide, U16, Put16;
    Put16OfU16(rest[3..5]);
    assert rest[..RECORD_HEADER_SIZE + n] == [rest[0], rest[1], rest[2]] + rest[3..5] + rest[5..5 + n];
  }

  /** Where the record loop gives up without adding to the message. */
  lemma LoopStops(rest: Bytes, message: Bytes)
    requires Decide(message).NeedMore?
    ensures |rest| < RECORD_HEADER_SIZE ==> Outlook(message, rest) == NeedMore
    ensures |rest| >= RECORD_HEADER_SIZE && rest[0] != HANDSHAKE ==>
              Outlook(message, rest) == Refused(if rest[0] != ALERT then Some(UNEXPECTED_MESSAGE) else None)
    ensures |rest| >= RECORD_HEADER_SIZE && rest[0] == HANDSHAKE ==>
              var n := U16(rest[3..5]);
              && (!(0 < n <= MAX_RECORD_SIZE) ==>
                    Outlook(message, rest) == Refused(if n > MAX_RECORD_SIZE then Some(RECORD_OVERFLOW) else None))
              && (0 < n <= MAX_RECORD_SIZE && |rest| < RECORD_HEADER_SIZE + n ==> Outlook(message, rest) == NeedMore)
  {
    hide Decide, U16;
  }

  /** The length of the hello, once its header has arrived. */
  function LengthOf(message: Bytes): nat
    requires |message| >= MESSAGE_HEADER_SIZE
  {
    U24(message[1..4])
  }

  lemma LengthStays(message: Bytes, payload: Bytes)
    requires |message| >= MESSAGE_HEADER_SIZE
    ensures LengthOf(message + payload) == LengthOf(message) && (message + payload)[0] == message[0]
  {
    assert (message + payload)[1..4] == message[1..4];
  }

  lemma DecidedByHeader(message: Bytes)
    ensures |message| < MESSAGE_HEADER_SIZE ==> Decide(message).NeedMore?
    ensures |message| >= MESSAGE_HEADER_SIZE && message[0] != CLIENT_HELLO ==> Decide(message) == Refused(Some(UNEXPECTED_MESSAGE))
    ensures |message| >= MESSAGE_HEADER_SIZE && message[0] == CLIENT_HELLO && LengthOf(message) > MAX_CLIENT_HELLO_SIZE ==>
              Decide(message) == Refused(None)
    ensures (&& |message| >= MESSAGE_HEADER_SIZE && message[0] == CLIENT_HELLO
             && LengthOf(message) <= MAX_CLIENT_HELLO_SIZE && |message| < MESSAGE_HEADER_SIZE + LengthOf(message)) ==>
              Decide(message).NeedMore?
  {
    hide HelloOf, U24;
  }

  /** The state of the record loop: the octets consumed are whole records, and the message is their payloads. */
  ghost predicate Reading(wire: Bytes, raw: Bytes, message: Bytes, records: seq<Record>) {
    && raw <= wire && Outlook(message, wire[|raw|..]) == Assemble(wire, [])
    && ValidRecords(records) && raw == OnWire(records) && message == Payloads(records)
    && |raw| <= 6 * |message|
  }

  lemma ReadingStarts(wire: Bytes)
    ensures Reading(wire, [], [], [])
  {
    assert wire[0..] == wire;
  }

  lemma RecordTaken(wire: Bytes, raw: Bytes, message: Bytes, records: seq<Record>, n: nat)
    requires Reading(wire, raw, message, records) && Decide(message).NeedMore?
    requires var rest := wire[|raw|..];
             |rest| >= RECORD_HEADER_SIZE + n && rest[0] == HANDSHAKE && 0 < n == U16(rest[3..5]) <= MAX_RECORD_SIZE
    ensures var rest := wire[|raw|..];
            var payload := rest[RECORD_HEADER_SIZE..RECORD_HEADER_SIZE + n];
            Reading(wire, raw + rest[..RECORD_HEADER_SIZE] + payload, message + payload, records + [Record(rest[1], rest[2], payload)])
  {
    hide Decide, Outlook, Assemble, U16, OnWire, Payloads, RecordBytes;
    var rest := wire[|raw|..];
    var payload := rest[RECORD_HEADER_SIZE..RECORD_HEADER_SIZE + n];
    var record := Record(rest[1], rest[2], payload);
    RecordRead(rest, message, record, n);
    WireAppend(records, record);
    var more := raw + rest[..RECORD_HEADER_SIZE] + payload;
    assert more == raw + rest[..RECORD_HEADER_SIZE + n];
    assert wire[|more|..] == rest[RECORD_HEADER_SIZE + n..];
  }

  const LIMIT := MESSAGE_HEADER_SIZE + MAX_CLIENT_HELLO_SIZE + MAX_RECORD_SIZE

  /** The reader: what it returns, the octets it consumed, and how many of those there can be. */
  method ReadClientHello(wire: Bytes) returns (r: Outcome, raw: Bytes)
    ensures r == Assemble(wire, [])
    ensures raw <= wire && |raw| <= 6 * LIMIT
    ensures r.Hello? ==> exists records :: ValidRecords(records) && raw == OnWire(records) && Decide(Payloads(records)) == r
    ensures r.Hello? ==> exists body :: Sends(wire, body) && Means(body, r.hello)
    ensures forall body :: Sends(wire, body) ==>
              if exists h :: Means(body, h) then r.Hello? && Means(body, r.hello) else r == Refused(Some(50))
  {
    hide Sends, Means;
    SentIsRead(wire);
    raw := [];
    var message: Bytes := [];
    var messageLength: Option<nat> := None;
    ghost var records: seq<Record> := [];
    ReadingStarts(wire);
    while messageLength.None? || |message| < messageLength.value + MESSAGE_HEADER_SIZE
      invariant Reading(wire, raw, message, records) && |message| < LIMIT
      invariant messageLength.None? ==> |message| < MESSAGE_HEADER_SIZE
      invariant messageLength.Some? ==>
                  && |message| >= MESSAGE_HEADER_SIZE && message[0] == CLIENT_HELLO
                  && messageLength.value == LengthOf(message) <= MAX_CLIENT_HELLO_SIZE
      decreases |wire| - |raw|
    {
      hide Decide, Outlook, Assemble, U16, OnWire, Payloads, RecordBytes, LengthOf;
      var rest := wire[|raw|..];
      DecidedByHeader(message);
      LoopStops(rest, message);
      if |rest| < RECORD_HEADER_SIZE {
        return NeedMore, raw;
      }
      var header := rest[..RECORD_HEADER_SIZE];
      if header[0] != HANDSHAKE {
        return Refused(if header[0] != ALERT then Some(UNEXPECTED_MESSAGE) else None), raw;
      }
      assert header[3..5] == rest[3..5];
      var recordLength := U16(header[3..5]);
      if !(0 < recordLength <= MAX_RECORD_SIZE) {
        return Refused(if recordLength > MAX_RECORD_SIZE then Some(RECORD_OVERFLOW) else None), raw;
      }
      if |rest| < RECORD_HEADER_SIZE + recordLength {
        return NeedMore, raw;
      }
      var payload := rest[RECORD_HEADER_SIZE..RECORD_HEADER_SIZE + recordLength];
      RecordTaken(wire, raw, message, records, recordLength);
      records := records + [Record(rest[1], rest[2], payload)];
      if |message| >= MESSAGE_HEADER_SIZE { LengthStays(message, payload); }
      raw := raw + header + payload;
      message := message + payload;
      if messageLength.None? && |message| >= MESSAGE_HEADER_SIZE {
        DecidedByHeader(message);
        if message[0] != CLIENT_HELLO {
          r := Refused(Some(UNEXPECTED_MESSAGE));
          DecisionStands(message, wire[|raw|..]);
          return;
        }
        messageLength := Some(LengthOf(message));
        if messageLength.value > MAX_CLIENT_HELLO_SIZE {
          r := Refused(None);
          DecisionStands(message, wire[|raw|..]);
          return;
        }
      }
    }
    r := FinishHello(message, messageLength.value);
    DecisionStands(message, wire[|raw|..]);
    if r.Hello? {
      HelloWasSent(message, records, raw, wire[|raw|..]);
      assert raw + wire[|raw|..] == wire;
    }
  }

  lemma SentIsRead(wire: Bytes)
    ensures forall body :: Sends(wire, body) ==>
              var r := Assemble(wire, []);
              if exists h :: Means(body, h) then r.Hello? && Means(body, r.hello) else r == Refused(Some(50))
  {
    hide Sends, Means, Assemble;
    forall body | Sends(wire, body)
      ensures var r := Assemble(wire, []);
              if exists h :: Means(body, h) then r.Hello? && Means(body, r.hello) else r == Refused(Some(50))
    {
      HelloIsWhatWasSent(wire, body);
    }
  }

  /** The body of the hello, cut out of a message that may be longer, and parsed. */
  method FinishHello(message: Bytes, length: nat) returns (r: Outcome)
    requires |message| >= MESSAGE_HEADER_SIZE + length && message[0] == CLIENT_HELLO
    requires length == LengthOf(message) <= MAX_CLIENT_HELLO_SIZE
    ensures r == Decide(message) && !r.NeedMore?
  {
    hide HelloOf, U24;
    var parsed := Parse(message[MESSAGE_HEADER_SIZE..MESSAGE_HEADER_SIZE + length]);
    return if parsed.Short? then Refused(Some(DECODE_ERROR)) else Hello(parsed.value);
  }

  lemma DecisionStands(message: Bytes, rest: Bytes)
    requires !Decide(message).NeedMore?
    ensures Outlook(message, rest) == Decide(message)
  {
  }
}
