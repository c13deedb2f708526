/** Decimal text of any length: the bounded Content-Length and the zero-stripping comparisons. */
module Decimal {
  import opened Wire

  const ZERO: byte := 48
  const NINE: byte := 57
  const SPACE: byte := 32
  const TAB: byte := 9
  const COMMA: byte := 44
  const MAX_REQUEST_BODY := 1048576

  predicate IsDigit(b: byte) { ZERO <= b <= NINE }

  predicate AllDigits(s: Bytes) { forall i :: 0 <= i < |s| ==> IsDigit(s[i]) }

  /** The number a digit string denotes. */
  function Value(s: Bytes): nat
    requires AllDigits(s)
  {
    if s == [] then 0 else 10 * Value(s[..|s| - 1]) + (s[|s| - 1] - ZERO) as int
  }

  function StripZeros(s: Bytes): (r: Bytes)
    ensures |r| <= |s| && (r != [] ==> r[0] != ZERO)
    ensures AllDigits(s) ==> AllDigits(r)
  {
    if s != [] && s[0] == ZERO then StripZeros(s[1..]) else s
  }

  function Significant(s: Bytes): (r: Bytes)
    ensures AllDigits(s) ==> AllDigits(r)
  {
    if StripZeros(s) == [] then [ZERO] else StripZeros(s)
  }

  /** `bounded_content_length`: at most seven digits are ever converted. */
  function BoundedContentLength(value: Bytes): nat
    requires AllDigits(value)
  {
    var significant := Significant(value);
    if |significant| > 7 then MAX_REQUEST_BODY + 1
    else if Value(significant) < MAX_REQUEST_BODY + 1 then Value(significant)
    else MAX_REQUEST_BODY + 1
  }

  // ------------------------------------------------------------------ values

  lemma {:induction false} LeadingZero(s: Bytes)
    requires AllDigits(s) && s != [] && s[0] == ZERO
    ensures Value(s) == Value(s[1..])
  {
    var n := |s| - 1;
    if n > 0 {
      LeadingZero(s[..n]);
      assert s[..n][1..] == s[1..][..n - 1];
    } else {
      assert s[..0] == [] && s[1..] == [];
    }
  }

  lemma {:induction false} StrippedValue(s: Bytes)
    requires AllDigits(s)
    ensures Value(StripZeros(s)) == Value(s) && Value(Significant(s)) == Value(s)
  {
    if s != [] && s[0] == ZERO {
      LeadingZero(s);
      StrippedValue(s[1..]);
    }
    assert [ZERO][..0] == [];
  }

  function Pow10(k: nat): nat { if k == 0 then 1 else 10 * Pow10(k - 1) }

  lemma {:induction false} AtLeastPow10(s: Bytes)
    requires AllDigits(s) && s != [] && s[0] != ZERO
    ensures Value(s) >= Pow10(|s| - 1)
  {
    var n := |s| - 1;
    if n > 0 {
      AtLeastPow10(s[..n]);
    } else {
      assert s[..0] == [];
    }
  }

  lemma {:induction false} Pow10Grows(a: nat, b: nat)
    requires a <= b
    ensures Pow10(a) <= Pow10(b)
    decreases b - a
  {
    if a < b {
      Pow10Grows(a, b - 1);
    }
  }

  /** More than `k` significant digits denote at least ten to the `k`. */
  lemma ManyDigits(s: Bytes, k: nat)
    requires AllDigits(s) && |Significant(s)| > k >= 1
    ensures Value(s) >= Pow10(k)
  {
    StrippedValue(s);
    AtLeastPow10(StripZeros(s));
    Pow10Grows(k, |StripZeros(s)| - 1);
  }

  lemma Powers()
    ensures Pow10(5) == 100000 && Pow10(7) == 10000000
  {
    assert Pow10(3) == 1000;
    assert Pow10(5) == 100000;
  }

  lemma {:induction false} SameStripped(a: Bytes, b: Bytes)
    requires AllDigits(a) && AllDigits(b) && Value(a) == Value(b)
    requires (a != [] ==> a[0] != ZERO) && (b != [] ==> b[0] != ZERO)
    ensures a == b
  {
    if a == [] || b == [] {
      if a != [] { AtLeastPow10(a); Pow10Grows(0, |a| - 1); }
      if b != [] { AtLeastPow10(b); Pow10Grows(0, |b| - 1); }
    } else {
      var m, n := |a| - 1, |b| - 1;
      assert Value(a[..m]) == Value(b[..n]) && a[m] == b[n];
      SameStripped(a[..m], b[..n]);
      assert a == a[..m] + [a[m]] && b == b[..n] + [b[n]];
    }
  }

  // ------------------------------------------------------------- main results

  /** For digit strings of any length, the bounded value is exact up to the limit. */
  lemma BoundedIsMinimum(value: Bytes)
    requires AllDigits(value)
    ensures BoundedContentLength(value) ==
            if Value(value) <= 1048576 then Value(value) else 1048577
  {
    StrippedValue(value);
    if |Significant(value)| > 7 {
      ManyDigits(value, 7);
      Powers();
    }
  }

  /** Comparing without leading zeros is comparing numbers. */
  lemma StrippedEqualIffSameNumber(a: Bytes, b: Bytes)
    requires AllDigits(a) && AllDigits(b)
    ensures StripZeros(a) == StripZeros(b) <==> Value(a) == Value(b)
    ensures Significant(a) == Significant(b) <==> Value(a) == Value(b)
  {
    StrippedValue(a);
    StrippedValue(b);
    if Value(a) == Value(b) {
      SameStripped(StripZeros(a), StripZeros(b));
    }
  }

  /** Every string in the list is a non-empty digit string denoting `n`. */
  ghost predicate AllDenote(values: seq<Bytes>, n: nat) {
    forall i :: 0 <= i < |values| ==> values[i] != [] && AllDigits(values[i]) && Value(values[i]) == n
  }

  /** HTTP/2: `_validate_raw_fields` and `_validate_field_lists` on the content-length values. */
  predicate LengthsAgree(lengths: seq<Bytes>) {
    && (forall i :: 0 <= i < |lengths| ==> lengths[i] != [] && AllDigits(lengths[i]))
    && (forall i :: 0 <= i < |lengths| ==> StripZeros(lengths[i]) == StripZeros(lengths[0]))
  }

  lemma LengthsAgreeIffOneNumber(lengths: seq<Bytes>)
    requires lengths != []
    ensures LengthsAgree(lengths) <==> exists n :: AllDenote(lengths, n)
  {
    if LengthsAgree(lengths) {
      forall i | 0 <= i < |lengths| ensures Value(lengths[i]) == Value(lengths[0]) {
        StrippedEqualIffSameNumber(lengths[i], lengths[0]);
      }
      assert AllDenote(lengths, Value(lengths[0]));
    }
    if n :| AllDenote(lengths, n) {
      forall i | 0 <= i < |lengths| ensures StripZeros(lengths[i]) == StripZeros(lengths[0]) {
        StrippedEqualIffSameNumber(lengths[i], lengths[0]);
      }
    }
  }

  // --------------------------------------------------------------- HTTP/1 lists

  predicate Blank(b: byte) { b == SPACE || b == TAB }

  function TrimLeft(s: Bytes): Bytes { if s != [] && Blank(s[0]) then TrimLeft(s[1..]) else s }

  function TrimRight(s: Bytes): Bytes {
    if s != [] && Blank(s[|s| - 1]) then TrimRight(s[..|s| - 1]) else s
  }

  function Trim(s: Bytes): Bytes { TrimRight(TrimLeft(s)) }

  /** `split(",")`: one part more than there are commas. */
  function SplitCommas(s: Bytes): (parts: seq<Bytes>)
    ensures parts != []
  {
    if s == [] then [[]]
    else
      var rest := SplitCommas(s[1..]);
      if s[0] == COMMA then [[]] + rest else [[s[0]] + rest[0]] + rest[1..]
  }

  function Parts(lengths: seq<Bytes>): seq<Bytes> {
    if lengths == [] then [] else Parts(lengths[..|lengths| - 1]) + SplitCommas(lengths[|lengths| - 1])
  }

  function Trimmed(parts: seq<Bytes>): seq<Bytes> {
    seq(|parts|, i requires 0 <= i < |parts| => Trim(parts[i]))
  }

  /** `_validate_framing` on the Content-Length fields of an HTTP/1 request: true means accepted. */
  method CheckLengths(lengths: seq<Bytes>) returns (accepted: bool)
    ensures accepted <==> lengths == [] || exists n :: AllDenote(Trimmed(Parts(lengths)), n)
  {
    if lengths == [] {
      return true;
    }
    ghost var all := Trimmed(Parts(lengths));
    var values: seq<Bytes> := [];
    for k := 0 to |lengths|
      invariant values == Trimmed(Parts(lengths[..k])) && (k > 0 ==> values != [])
    {
      var parts := SplitCommas(lengths[k]);
      assert lengths[..k + 1][..k] == lengths[..k];
      values := values + Trimmed(parts);
      assert values == Trimmed(Parts(lengths[..k + 1]));
    }
    assert lengths[..|lengths|] == lengths;
    for i := 0 to |values|
      invariant forall j :: 0 <= j < i ==> values[j] != [] && AllDigits(values[j])
    {
      if values[i] == [] || !AllDigits(values[i]) {
        return false;
      }
    }
    var distinct: set<Bytes> := {};
    for i := 0 to |values|
      invariant distinct == set j | 0 <= j < i :: Significant(values[j])
    {
      distinct := distinct + {Significant(values[i])};
    }
    OneSignificant(values);
    return |distinct| == 1;
  }

  lemma OneSignificant(values: seq<Bytes>)
    requires values != [] && forall i :: 0 <= i < |values| ==> values[i] != [] && AllDigits(values[i])
    ensures |set j | 0 <= j < |values| :: Significant(values[j])| == 1 <==> exists n :: AllDenote(values, n)
  {
    var distinct := set j | 0 <= j < |values| :: Significant(values[j]);
    var first := Significant(values[0]);
    assert first in distinct;
    if |distinct| == 1 {
      assert distinct == {first} by {
        assert |distinct - {first}| == 0;
      }
      forall i | 0 <= i < |values| ensures Value(values[i]) == Value(values[0]) {
        assert Significant(values[i]) in distinct;
        StrippedEqualIffSameNumber(values[i], values[0]);
      }
      assert AllDenote(values, Value(values[0]));
    }
    if n :| AllDenote(values, n) {
      forall i | 0 <= i < |values| ensures Significant(values[i]) == first {
        StrippedEqualIffSameNumber(values[i], values[0]);
      }
      assert distinct == {first};
    }
  }
}
