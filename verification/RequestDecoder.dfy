/** `_RequestDecoder`: the budget on decoded fields, and the copy of the fields that h2 is given. */
module RequestDecoders {
  import opened Wire
  import opened H2
  import Decimal

  /** Decimal text of a number, without leading zeros. */
  function Digits(n: nat): (s: Bytes)
    ensures s != [] && Decimal.AllDigits(s) && Decimal.Value(s) == n
  {
    if n < 10 then
      assert [n + 48][..0] == [];
      [n + 48]
    else
      var s := Digits(n / 10);
      assert (s + [n % 10 + 48])[..|s|] == s;
      s + [n % 10 + 48]
  }

  predicate Rewritten(field: (Bytes, Bytes)) {
    field.0 == CONTENT_LENGTH && field.1 != [] && Decimal.AllDigits(field.1)
  }

  /** The copy says the same, but a Content-Length of any size is brought down to one h2 can convert. */
  ghost predicate Working(original: Fields, working: Fields) {
    && |working| == |original|
    && forall i :: 0 <= i < |original| ==>
         && working[i].0 == original[i].0
         && if Rewritten(original[i])
            then Decimal.AllDigits(working[i].1)
                 && Decimal.Value(working[i].1) ==
                      if Decimal.Value(original[i].1) <= 1048576 then Decimal.Value(original[i].1) else 1048577
            else working[i].1 == original[i].1
  }

  /** The octets of all names and values. */
  function Octets(fields: Fields): nat {
    if fields == [] then 0
    else Octets(fields[..|fields| - 1]) + |fields[|fields| - 1].0| + |fields[|fields| - 1].1|
  }

  /** The budget h2's stand-in counts is the same one: names, values and 32 octets a field. */
  lemma {:induction false} BudgetIsOctets(fields: Fields, rest: Fields)
    ensures FieldBytes(fields + rest) == Octets(fields) + 32 * |fields| + FieldBytes(rest)
  {
    if fields == [] {
      assert fields + rest == rest;
    } else {
      var init, last := fields[..|fields| - 1], fields[|fields| - 1];
      assert fields + rest == init + ([last] + rest);
      assert ([last] + rest)[1..] == rest;
      BudgetIsOctets(init, [last] + rest);
    }
  }

  /** So a block is refused exactly when all fields so far come to more than 1048576. */
  lemma OverBudgetIff(before: nat, fields: Fields)
    ensures OverBudget(before, fields) <==> before + Octets(fields) + 32 * |fields| > 1048576
  {
    BudgetIsOctets(fields, []);
    assert fields + [] == fields;
  }

  class RequestDecoder {
    var originalHeaders: Option<Fields>
    var decodedBytes: nat

    constructor ()
      ensures originalHeaders == None && decodedBytes == 0
    {
      originalHeaders, decodedBytes := None, 0;
    }

    /** What follows HPACK decoding. None is the OversizedHeaderListError; fields are counted even then,
        and the captured ones are replaced only by a block that fits. */
    method Account(headers: Fields, raw: bool) returns (r: Option<Fields>)
      modifies this
      ensures decodedBytes == old(decodedBytes) + Octets(headers) + 32 * |headers|
      ensures r.None? <==> old(decodedBytes) + Octets(headers) + 32 * |headers| > 1048576
      ensures originalHeaders == if r.None? then old(originalHeaders) else Some(headers)
      ensures r.Some? ==> if raw then Working(headers, r.value) else r.value == headers
    {
      var total := 0;
      for k := 0 to |headers|
        invariant total == Octets(headers[..k]) + 32 * k
      {
        assert headers[..k + 1][..k] == headers[..k];
        total := total + |headers[k].0| + |headers[k].1| + 32;
      }
      assert headers[..|headers|] == headers;
      decodedBytes := decodedBytes + total;
      if decodedBytes > MAX_DECODED_HEADER_BYTES {
        return None;
      }
      originalHeaders := Some(headers);
      if !raw {
        return Some(headers);
      }
      var working := CopyForH2(headers);
      return Some(working);
    }
  }

  method CopyForH2(headers: Fields) returns (working: Fields)
    ensures Working(headers, working)
  {
    working := [];
    for k := 0 to |headers|
      invariant Working(headers[..k], working)
    {
      var (name, value) := headers[k];
      if Rewritten(headers[k]) {
        Decimal.BoundedIsMinimum(value);
        value := Digits(Decimal.BoundedContentLength(value));
      }
      working := working + [(name, value)];
    }
    assert headers[..|headers|] == headers;
  }
}
