/** Octets, big-endian integers and the few helpers every other module shares. */
module Wire {

  type byte = b: int | 0 <= b < 256
  type Bytes = seq<byte>

  datatype Option<+T> = None | Some(value: T)

  function U16(s: Bytes): (n: nat)
    requires |s| == 2
    ensures n < 0x1_0000
  {
    (s[0] as int) * 0x100 + s[1]
  }

  function U24(s: Bytes): (n: nat)
    requires |s| == 3
    ensures n < 0x100_0000
  {
    (s[0] as int) * 0x1_0000 + U16(s[1..])
  }

  function U32(s: Bytes): (n: nat)
    requires |s| == 4
    ensures n < 0x1_0000_0000
  {
    U16(s[..2]) * 0x1_0000 + U16(s[2..])
  }

  function Put16(n: nat): (s: Bytes)
    requires n < 0x1_0000
    ensures |s| == 2 && U16(s) == n
  {
    [n / 0x100, n % 0x100]
  }

  function Put24(n: nat): (s: Bytes)
    requires n < 0x100_0000
    ensures |s| == 3 && U24(s) == n
  {
    var s := [n / 0x1_0000] + Put16(n % 0x1_0000);
    assert s[1..] == Put16(n % 0x1_0000);
    s
  }

  function Put32(n: nat): (s: Bytes)
    requires n < 0x1_0000_0000
    ensures |s| == 4 && U32(s) == n
  {
    var hi, lo := Put16(n / 0x1_0000), Put16(n % 0x1_0000);
    assert (hi + lo)[..2] == hi && (hi + lo)[2..] == lo;
    hi + lo
  }

  lemma Put16OfU16(s: Bytes)
    requires |s| == 2
    ensures Put16(U16(s)) == s
  {
  }

  lemma Put32OfU32(s: Bytes)
    requires |s| == 4
    ensures Put32(U32(s)) == s
  {
    Put16OfU16(s[..2]);
    Put16OfU16(s[2..]);
    assert U32(s) / 0x1_0000 == U16(s[..2]);
    assert s == s[..2] + s[2..];
  }

  function Text(s: string): Bytes { seq(|s|, i requires 0 <= i < |s| => (s[i] as int) % 256) }

  const CONTENT_LENGTH: Bytes := Text("content-length")

  predicate IsUpper(b: byte) { 65 <= b <= 90 }

  function LowerOf(b: byte): byte { if IsUpper(b) then b + 32 else b }

  /** ASCII letters in lower case. */
  function Lower(s: Bytes): (r: Bytes)
    ensures |r| == |s|
  {
    seq(|s|, i requires 0 <= i < |s| => LowerOf(s[i]))
  }

  function Concat<T>(parts: seq<seq<T>>): seq<T> {
    if parts == [] then [] else parts[0] + Concat(parts[1..])
  }

  lemma {:induction false} ConcatAppend<T>(a: seq<seq<T>>, b: seq<seq<T>>)
    ensures Concat(a + b) == Concat(a) + Concat(b)
  {
    if a == [] {
      assert a + b == b;
    } else {
      assert (a + b)[1..] == a[1..] + b;
      ConcatAppend(a[1..], b);
    }
  }

  lemma ConcatOne<T>(a: seq<seq<T>>, x: seq<T>)
    ensures Concat(a + [x]) == Concat(a) + x
  {
    ConcatAppend(a, [x]);
    assert Concat([x]) == x;
  }

  lemma SubsetCard<T>(a: set<T>, b: set<T>)
    requires a <= b
    ensures |a| <= |b|
  {
    assert b == a + (b - a);
  }
}
