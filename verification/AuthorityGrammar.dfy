/** Registered names as section 3.2.2 of RFC 3986 writes them: characters from a list, and escapes of two
    hexadecimal digits in either case. Validity, meaning and normal form, said of what was written. */
module AuthorityGrammar {
  import opened Wire
  import opened Authority

  const UPPER_DIGITS: string := "0123456789ABCDEF"
  const LOWER_DIGITS: string := "0123456789abcdef"

  predicate IsUnreserved(c: char) { 'A' <= c <= 'Z' || 'a' <= c <= 'z' || '0' <= c <= '9' || c in "-._~" }

  predicate IsSubDelimiter(c: char) { c in "!$&'()*+,;=" }

  /** A character, or the escape of an octet with the case of each of its digits. */
  datatype Unit = Plain(c: byte) | Escape(octet: byte, upperFirst: bool, upperSecond: bool)

  predicate Good(x: Unit) { x.Plain? ==> IsUnreserved(x.c as char) || IsSubDelimiter(x.c as char) }

  predicate AllGood(units: seq<Unit>) { forall i :: 0 <= i < |units| ==> Good(units[i]) }

  function Digit(n: nat, upper: bool): byte
    requires n < 16
  {
    ((if upper then UPPER_DIGITS else LOWER_DIGITS)[n] as int) % 256
  }

  function WriteUnit(x: Unit): Bytes {
    match x
    case Plain(c) => [c]
    case Escape(n, first, second) => [37, Digit(n / 16, first), Digit(n % 16, second)]
  }

  function Write(units: seq<Unit>): Bytes {
    if units == [] then [] else WriteUnit(units[0]) + Write(units[1..])
  }

  /** What a unit stands for. */
  function Octet(x: Unit): byte { match x case Plain(c) => c case Escape(n, _, _) => n }

  function Octets(units: seq<Unit>): Bytes { seq(|units|, i requires 0 <= i < |units| => Octet(units[i])) }

  /** Letters in lower case, needless escapes resolved, the others with upper-case digits. */
  function NormalUnit(x: Unit): Bytes {
    if x.Plain? || IsUnreserved(x.octet as char) then [LowerOf(Octet(x))]
    else [37, Digit(x.octet / 16, true), Digit(x.octet % 16, true)]
  }

  function Normal(units: seq<Unit>): Bytes {
    if units == [] then [] else NormalUnit(units[0]) + Normal(units[1..])
  }

  // ------------------------------------------------------------------- characters

  lemma CharactersAreListed(b: byte)
    ensures Unreserved(b) <==> IsUnreserved(b as char)
    ensures SubDelimiter(b) <==> IsSubDelimiter(b as char)
  {
    var c := b as char;
    assert c in "-._~" <==> c == '-' || c == '.' || c == '_' || c == '~' by { FourCharacters(c); }
    ElevenCharacters(c);
  }

  lemma FourCharacters(c: char)
    ensures c in "-._~" <==> c == '-' || c == '.' || c == '_' || c == '~'
  {
    var s := "-._~";
    assert s[0] == '-' && s[1] == '.' && s[2] == '_' && s[3] == '~';
  }

  lemma ElevenCharacters(c: char)
    ensures c in "!$&'()*+,;=" <==>
            c == '!' || c == '$' || c == '&' || c == '\'' || c == '(' || c == ')' || c == '*' || c == '+' || c == ',' || c == ';' || c == '='
  {
    var s := "!$&'()*+,;=";
    assert s[0] == '!' && s[1] == '$' && s[2] == '&' && s[3] == '\'' && s[4] == '(' && s[5] == ')';
    assert s[6] == '*' && s[7] == '+' && s[8] == ',' && s[9] == ';' && s[10] == '=';
  }

  lemma DigitIs(n: nat, upper: bool)
    requires n < 16
    ensures Digit(n, upper) == if n < 10 then 48 + n else if upper then 55 + n else 87 + n
  {
  }

  lemma DigitsAreHexadecimal(n: nat, upper: bool)
    requires n < 16
    ensures IsHex(Digit(n, upper)) && HexValue(Digit(n, upper)) == n
    ensures HexDigit(n) == Digit(n, true)
  {
    hide Digit;
    DigitIs(n, upper);
    DigitIs(n, true);
  }

  lemma HexadecimalIsDigit(b: byte)
    requires IsHex(b)
    ensures HexValue(b) < 16 && (b == Digit(HexValue(b), true) || b == Digit(HexValue(b), false))
  {
    hide Digit;
    DigitIs(HexValue(b), true);
    DigitIs(HexValue(b), false);
  }

  // ------------------------------------------------------------ written, then read

  /** An escape is read as the octet its digits stand for, in either case. */
  lemma EscapeIsRead(x: Unit, rest: Bytes)
    requires x.Escape?
    ensures var s := WriteUnit(x) + rest; Escaped(s) && EscapeValue(s) == x.octet && s[3..] == rest
  {
    DigitsAreHexadecimal(x.octet / 16, x.upperFirst);
    DigitsAreHexadecimal(x.octet % 16, x.upperSecond);
    hide Digit;
  }

  lemma PlainIsRead(c: byte, rest: Bytes)
    requires Good(Plain(c))
    ensures var s := WriteUnit(Plain(c)) + rest; !Escaped(s) && s[0] == c && s[1..] == rest && (Unreserved(c) || SubDelimiter(c))
  {
    hide IsUnreserved, IsSubDelimiter;
    CharactersAreListed(c);
    assert c != 37;
  }

  lemma NormalFirst(x: Unit, rest: Bytes)
    requires Good(x)
    ensures NormalizeHost(WriteUnit(x) + rest) == NormalUnit(x) + NormalizeHost(rest)
  {
    hide Good, NormalizeHost, Digit;
    var s := WriteUnit(x) + rest;
    NormalizeFirst(s);
    if x.Plain? {
      PlainIsRead(x.c, rest);
    } else {
      EscapeIsRead(x, rest);
      CharactersAreListed(x.octet);
      DigitsAreHexadecimal(x.octet / 16, true);
      DigitsAreHexadecimal(x.octet % 16, true);
    }
  }

  /** What is written is valid, means its octets, and has the normal form written unit by unit. */
  lemma {:induction false} WrittenIsRead(units: seq<Unit>)
    requires AllGood(units)
    ensures ValidRegName(Write(units)) && Decode(Write(units)) == Octets(units) && NormalizeHost(Write(units)) == Normal(units)
  {
    hide Good, NormalizeHost, NormalUnit, Digit;
    if units == [] {
      NormalizeNothing();
    } else {
      var x, rest := units[0], Write(units[1..]);
      WrittenIsRead(units[1..]);
      NormalFirst(x, rest);
      if x.Plain? { PlainIsRead(x.c, rest); } else { EscapeIsRead(x, rest); }
      assert Octets(units) == [Octet(x)] + Octets(units[1..]);
    }
  }

  // ------------------------------------------------------------ read, then written

  lemma {:induction false} ReadIsWritten(s: Bytes) returns (units: seq<Unit>)
    requires ValidRegName(s)
    ensures AllGood(units) && Write(units) == s
  {
    hide Good;
    if s == [] {
      units := [];
    } else {
      var x: Unit;
      if Escaped(s) {
        x := ReadEscape(s);
      } else {
        x := Plain(s[0]);
        CharactersAreListed(s[0]);
        PlainIsGood(s[0]);
      }
      var later := ReadIsWritten(s[|WriteUnit(x)|..]);
      units := [x] + later;
      assert units[1..] == later && s == WriteUnit(x) + s[|WriteUnit(x)|..];
    }
  }

  lemma PlainIsGood(c: byte)
    requires IsUnreserved(c as char) || IsSubDelimiter(c as char)
    ensures Good(Plain(c))
  {
  }

  lemma Compose(a: nat, b: nat) returns (octet: byte)
    requires a < 16 && b < 16
    ensures octet / 16 == a && octet % 16 == b
  {
    octet := a * 16 + b;
  }

  lemma WriteEscape(octet: byte, a: nat, b: nat, first: byte, second: byte) returns (x: Unit)
    requires octet / 16 == a < 16 && octet % 16 == b
    requires first == Digit(a, true) || first == Digit(a, false)
    requires second == Digit(b, true) || second == Digit(b, false)
    ensures x.Escape? && Good(x) && WriteUnit(x) == [37, first, second]
  {
    hide Digit;
    x := Escape(octet, first == Digit(a, true), second == Digit(b, true));
  }

  lemma ReadEscape(s: Bytes) returns (x: Unit)
    requires Escaped(s)
    ensures x.Escape? && Good(x) && WriteUnit(x) == s[..3]
  {
    HexadecimalIsDigit(s[1]);
    HexadecimalIsDigit(s[2]);
    hide Digit, HexValue, WriteUnit;
    var octet := Compose(HexValue(s[1]), HexValue(s[2]));
    x := WriteEscape(octet, HexValue(s[1]), HexValue(s[2]), s[1], s[2]);
    assert s[..3] == [37, s[1], s[2]];
  }

  /** A registered name is valid exactly if it can be written, and then it means what was written. */
  lemma NamesAreWritten(s: Bytes)
    ensures ValidRegName(s) <==> exists units :: AllGood(units) && Write(units) == s
    ensures forall units :: AllGood(units) && Write(units) == s ==>
              Decode(s) == Octets(units) && NormalizeHost(s) == Normal(units)
  {
    hide ValidRegName, NormalizeHost, Decode, AllGood;
    if ValidRegName(s) { var units := ReadIsWritten(s); }
    forall units | AllGood(units) && Write(units) == s
      ensures ValidRegName(s) && Decode(s) == Octets(units) && NormalizeHost(s) == Normal(units)
    {
      WrittenIsRead(units);
    }
  }
}
