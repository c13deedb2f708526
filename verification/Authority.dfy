/** URI authorities: what is valid, and what normalising them keeps
    (sections 3.2.2, 3.2.3 and 6.2.2 of RFC 3986). */
module Authority {
  import opened Wire
  import Decimal

  const PERCENT: byte := 37
  const COLON: byte := 58
  const OPEN_BRACKET: byte := 91
  const CLOSE_BRACKET: byte := 93
  const MAX_PORT := 65535

  predicate IsAlnum(b: byte) { Decimal.IsDigit(b) || IsUpper(b) || 97 <= b <= 122 }

  /** Letters, digits and `-._~`. */
  predicate Unreserved(b: byte) { IsAlnum(b) || b in {45, 46, 95, 126} }

  /** `!$&'()*+,;=` */
  predicate SubDelimiter(b: byte) { b in {33, 36, 38, 39, 40, 41, 42, 43, 44, 59, 61} }

  predicate IsHex(b: byte) { Decimal.IsDigit(b) || 65 <= b <= 70 || 97 <= b <= 102 }

  function HexValue(b: byte): (n: nat)
    requires IsHex(b)
    ensures n < 16
  {
    if Decimal.IsDigit(b) then b - 48 else if b <= 70 then b - 55 else b - 87
  }

  function HexDigit(n: nat): (b: byte)
    requires n < 16
    ensures IsHex(b) && HexValue(b) == n
  {
    if n < 10 then n + 48 else n + 55
  }

  // ----------------------------------------------------------- registered names

  predicate Escaped(s: Bytes) { |s| >= 3 && s[0] == PERCENT && IsHex(s[1]) && IsHex(s[2]) }

  function EscapeValue(s: Bytes): (b: byte)
    requires Escaped(s)
  {
    HexValue(s[1]) * 16 + HexValue(s[2])
  }

  predicate ValidRegName(s: Bytes) {
    s == [] || (if Escaped(s) then ValidRegName(s[3..])
                else (Unreserved(s[0]) || SubDelimiter(s[0])) && ValidRegName(s[1..]))
  }

  /** What the name stands for, its escapes resolved. */
  function Decode(s: Bytes): Bytes {
    if s == [] then []
    else if Escaped(s) then [EscapeValue(s)] + Decode(s[3..])
    else [s[0]] + Decode(s[1..])
  }

  /** The replacement of one escape: needless ones are resolved, the others spelled in upper case. */
  function Respell(b: byte): Bytes {
    if Unreserved(b) then [LowerOf(b)] else [PERCENT, HexDigit(b / 16), HexDigit(b % 16)]
  }

  /** Every escape replaced, left to right. */
  function Substitute(s: Bytes): Bytes {
    if s == [] then []
    else if Escaped(s) then Respell(EscapeValue(s)) + Substitute(s[3..])
    else [s[0]] + Substitute(s[1..])
  }

  function NormalizeHost(host: Bytes): Bytes { Substitute(Lower(host)) }

  // ---------------------------------------------------------------- proofs

  lemma LowerTail(s: Bytes, n: nat)
    requires n <= |s|
    ensures Lower(s)[n..] == Lower(s[n..])
  {
  }

  /** Lower case keeps escapes and what they stand for. */
  lemma LowerEscape(s: Bytes)
    requires s != []
    ensures Escaped(Lower(s)) <==> Escaped(s)
    ensures Escaped(s) ==> EscapeValue(Lower(s)) == EscapeValue(s)
  {
  }

  lemma RespellDecodes(b: byte, rest: Bytes)
    ensures Decode(Respell(b) + rest) == [LowerOf(b)] + Decode(rest)
  {
    var s := Respell(b) + rest;
    if Unreserved(b) {
      assert s[0] == LowerOf(b) && s[1..] == rest;
    } else {
      assert s[3..] == rest && EscapeValue(s) == b;
    }
  }

  lemma PlainFirst(b: byte, rest: Bytes)
    requires b != PERCENT
    ensures !Escaped([b] + rest) && ([b] + rest)[1..] == rest
  {
  }

  lemma LowerCons(b: byte, s: Bytes)
    ensures Lower([b] + s) == [LowerOf(b)] + Lower(s)
  {
  }

  /** One step of normalising, on the name itself. */
  lemma NormalizeFirst(host: Bytes)
    requires host != []
    ensures NormalizeHost(host) == if Escaped(host) then Respell(EscapeValue(host)) + NormalizeHost(host[3..])
                                   else [LowerOf(host[0])] + NormalizeHost(host[1..])
  {
    LowerEscape(host);
    LowerTail(host, if Escaped(host) then 3 else 1);
  }

  /** The name means what it meant, up to the case of its ASCII letters. */
  lemma {:induction false} NormalizedMeansTheSame(host: Bytes)
    requires ValidRegName(host)
    ensures Decode(NormalizeHost(host)) == Lower(Decode(host))
    decreases |host|
  {
    hide NormalizeHost, Lower, Respell;
    if host == [] {
      NormalizeNothing();
    } else {
      NormalizeFirst(host);
      if Escaped(host) {
        NormalizedMeansTheSame(host[3..]);
        RespellDecodes(EscapeValue(host), NormalizeHost(host[3..]));
        LowerCons(EscapeValue(host), Decode(host[3..]));
      } else {
        NormalizedMeansTheSame(host[1..]);
        PlainFirst(LowerOf(host[0]), NormalizeHost(host[1..]));
        LowerCons(host[0], Decode(host[1..]));
      }
    }
  }

  lemma NormalizeNothing()
    ensures NormalizeHost([]) == [] && Lower([]) == []
  {
  }

  /** Names that normalise alike are the same name. */
  lemma EqualNormalFormsAgree(a: Bytes, b: Bytes)
    requires ValidRegName(a) && ValidRegName(b) && NormalizeHost(a) == NormalizeHost(b)
    ensures Lower(Decode(a)) == Lower(Decode(b))
  {
    NormalizedMeansTheSame(a);
    NormalizedMeansTheSame(b);
  }

  lemma RespellIsValid(b: byte, rest: Bytes)
    requires ValidRegName(rest)
    ensures ValidRegName(Respell(b) + rest)
  {
    var s := Respell(b) + rest;
    if Unreserved(b) {
      PlainFirst(LowerOf(b), rest);
    } else {
      assert s[3..] == rest;
    }
  }

  lemma {:induction false} NormalizedIsValid(host: Bytes)
    requires ValidRegName(host)
    ensures ValidRegName(NormalizeHost(host))
    decreases |host|
  {
    hide NormalizeHost, Respell;
    if host == [] {
      NormalizeNothing();
    } else {
      NormalizeFirst(host);
      if Escaped(host) {
        NormalizedIsValid(host[3..]);
        RespellIsValid(EscapeValue(host), NormalizeHost(host[3..]));
      } else {
        NormalizedIsValid(host[1..]);
        PlainFirst(LowerOf(host[0]), NormalizeHost(host[1..]));
      }
    }
  }

  lemma RespellIsNormal(b: byte, rest: Bytes)
    ensures NormalizeHost(Respell(b) + rest) == Respell(b) + NormalizeHost(rest)
  {
    var s := Respell(b) + rest;
    NormalizeFirst(s);
    if Unreserved(b) {
      PlainFirst(LowerOf(b), rest);
    } else {
      assert s[3..] == rest && EscapeValue(s) == b;
    }
    hide NormalizeHost;
  }

  lemma {:induction false} NormalizingIsIdempotent(host: Bytes)
    requires ValidRegName(host)
    ensures NormalizeHost(NormalizeHost(host)) == NormalizeHost(host)
    decreases |host|
  {
    hide NormalizeHost, Respell;
    if host == [] {
      NormalizeNothing();
    } else {
      NormalizeFirst(host);
      if Escaped(host) {
        NormalizingIsIdempotent(host[3..]);
        RespellIsNormal(EscapeValue(host), NormalizeHost(host[3..]));
      } else {
        NormalizingIsIdempotent(host[1..]);
        PlainFirst(LowerOf(host[0]), NormalizeHost(host[1..]));
        NormalizeFirst([LowerOf(host[0])] + NormalizeHost(host[1..]));
      }
    }
  }

  /** A name unit by unit: its octet in lower case, and whether it is one that stays escaped. */
  function Spelling(s: Bytes): seq<(byte, bool)> {
    if s == [] then []
    else if Escaped(s) then [(LowerOf(EscapeValue(s)), !Unreserved(EscapeValue(s)))] + Spelling(s[3..])
    else [(LowerOf(s[0]), false)] + Spelling(s[1..])
  }

  function Spell(units: seq<(byte, bool)>): Bytes {
    if units == [] then []
    else (if units[0].1 then Respell(units[0].0) else [units[0].0]) + Spell(units[1..])
  }

  lemma {:induction false} NormalizingSpells(host: Bytes)
    requires ValidRegName(host)
    ensures NormalizeHost(host) == Spell(Spelling(host))
    decreases |host|
  {
    hide NormalizeHost;
    if host == [] {
      NormalizeNothing();
    } else {
      NormalizeFirst(host);
      var n := if Escaped(host) then 3 else 1;
      NormalizingSpells(host[n..]);
      assert Spelling(host)[1..] == Spelling(host[n..]);
    }
  }

  lemma RespellSpelling(b: byte, rest: Bytes)
    ensures Spelling(Respell(b) + rest) == [(LowerOf(b), !Unreserved(b))] + Spelling(rest)
  {
    var s := Respell(b) + rest;
    if Unreserved(b) {
      PlainFirst(LowerOf(b), rest);
    } else {
      assert s[3..] == rest && EscapeValue(s) == b;
    }
  }

  lemma {:induction false} SpellingStays(host: Bytes)
    requires ValidRegName(host)
    ensures Spelling(NormalizeHost(host)) == Spelling(host)
    decreases |host|
  {
    hide NormalizeHost, Respell;
    if host == [] {
      NormalizeNothing();
    } else {
      NormalizeFirst(host);
      if Escaped(host) {
        SpellingStays(host[3..]);
        RespellSpelling(EscapeValue(host), NormalizeHost(host[3..]));
      } else {
        SpellingStays(host[1..]);
        PlainFirst(LowerOf(host[0]), NormalizeHost(host[1..]));
      }
    }
  }

  /** Exactly which names normalise alike: those with the same octets up to case, of which the same ones
      are escapes that section 6.2.2.2 of RFC 3986 does not allow to resolve. */
  lemma SameNormalFormIffSameSpelling(a: Bytes, b: Bytes)
    requires ValidRegName(a) && ValidRegName(b)
    ensures NormalizeHost(a) == NormalizeHost(b) <==> Spelling(a) == Spelling(b)
  {
    NormalizingSpells(a);
    NormalizingSpells(b);
    SpellingStays(a);
    SpellingStays(b);
  }

  /** Meaning the same is not enough: a reserved character and its escape are kept apart. */
  lemma ReservedSpellingsDiffer()
    ensures ValidRegName([33]) && ValidRegName([PERCENT, 50, 49]) && Decode([33]) == Decode([PERCENT, 50, 49])
    ensures NormalizeHost([33]) != NormalizeHost([PERCENT, 50, 49])
  {
    var escape: Bytes := [PERCENT, 50, 49];
    assert escape[3..] == [] && EscapeValue(escape) == 33;
    NormalizeFirst([33]);
    NormalizeFirst(escape);
    NormalizeNothing();
    PlainFirst(33, []);
    assert [33] + [] == [33];
  }

  // ------------------------------------------------------------------- ports

  /** `authority.partition(":")`, for an authority that does not start with a bracket. */
  function HostOf(authority: Bytes): Bytes {
    if authority == [] || authority[0] == COLON then [] else [authority[0]] + HostOf(authority[1..])
  }

  /** None without a colon; the text after the first one may be empty. */
  function PortOf(authority: Bytes): Option<Bytes> {
    if authority == [] then None
    else if authority[0] == COLON then Some(authority[1..])
    else PortOf(authority[1..])
  }

  /** The port check as written: at most five digits are converted. */
  predicate PortInRange(port: Bytes) {
    && (port == [] || Decimal.AllDigits(port))
    && |Decimal.Significant(port)| <= 5 && Decimal.AllDigits(Decimal.Significant(port))
    && Decimal.Value(Decimal.Significant(port)) <= MAX_PORT
  }

  /** The parts of an authority. A literal stands in brackets; its port follows them. */
  datatype Pieces = Misformed | Pieces(host: Bytes, literal: bool, port: Option<Bytes>)

  /** `find("]")` from `i` on. */
  function ClosingFrom(authority: Bytes, i: nat): (r: Option<nat>)
    ensures r.Some? ==> i <= r.value < |authority| && authority[r.value] == CLOSE_BRACKET && CLOSE_BRACKET !in authority[i..r.value]
    ensures r.None? && i <= |authority| ==> CLOSE_BRACKET !in authority[i..]
    decreases |authority| - i
  {
    if i >= |authority| then None
    else if authority[i] == CLOSE_BRACKET then Some(i)
    else
      var r := ClosingFrom(authority, i + 1);
      assert authority[i..] == [authority[i]] + authority[i + 1..];
      assert r.Some? ==> authority[i..r.value] == [authority[i]] + authority[i + 1..r.value];
      r
  }

  function Cut(authority: Bytes): Pieces {
    if authority == [] || authority[0] != OPEN_BRACKET then Pieces(HostOf(authority), false, PortOf(authority))
    else
      match ClosingFrom(authority, 1)
      case None => Misformed
      case Some(closing) =>
        var suffix := authority[closing + 1..];
        if suffix != [] && suffix[0] != COLON then Misformed
        else Pieces(authority[1..closing], true, if suffix == [] then None else Some(suffix[1..]))
  }

  /** The library's judgement of IP literals: the canonical text of a valid one. */
  type Literals = Bytes -> Option<Bytes>

  predicate ValidHost(literals: Literals, host: Bytes, literal: bool) {
    if literal then literals(host).Some? else ValidRegName(host)
  }

  /** `validate_authority`: the host, or the ValueError. */
  function Validate(literals: Literals, authority: Bytes, connect: bool): Option<Bytes> {
    match Cut(authority)
    case Misformed => None
    case Pieces(host, literal, port) =>
      if !ValidHost(literals, host, literal) then None
      else if connect && (host == [] || port.None? || port.value == []) then None
      else if port.Some? && !PortInRange(port.value) then None
      else if port.Some? && connect && Decimal.Significant(port.value) == [Decimal.ZERO] then None
      else Some(host)
  }

  /** A port of any length is in range exactly when its digits denote at most 65535. */
  lemma PortRangeIsExact(port: Bytes)
    ensures PortInRange(port) <==> Decimal.AllDigits(port) && Decimal.Value(port) <= 65535
  {
    if Decimal.AllDigits(port) {
      Decimal.StrippedValue(port);
      if |Decimal.Significant(port)| > 5 {
        Decimal.ManyDigits(port, 5);
        Decimal.Powers();
      }
    }
    hide Decimal.StripZeros, Decimal.Value;
  }

  lemma ZeroIsZero(port: Bytes)
    requires Decimal.AllDigits(port)
    ensures Decimal.Significant(port) == [Decimal.ZERO] <==> Decimal.Value(port) == 0
  {
    Decimal.StrippedEqualIffSameNumber(port, [Decimal.ZERO]);
    assert Decimal.StripZeros([Decimal.ZERO]) == Decimal.StripZeros([]) by { assert [Decimal.ZERO][1..] == []; }
    assert Decimal.Value([Decimal.ZERO]) == 0 by { assert [Decimal.ZERO][..0] == []; }
    hide Decimal.StripZeros, Decimal.Value;
  }

  /** What is accepted: a registered name or an IP literal, and a port that is missing, empty or a number up
      to 65535; a CONNECT target needs both, and a number that is not zero. */
  lemma AuthorityIsExact(literals: Literals, authority: Bytes, connect: bool)
    ensures var p := Cut(authority);
            Validate(literals, authority, connect).Some? <==>
              && p.Pieces? && ValidHost(literals, p.host, p.literal)
              && (p.port.Some? ==> Decimal.AllDigits(p.port.value) && Decimal.Value(p.port.value) <= 65535)
              && (connect ==>
                    p.host != [] && p.port.Some? && Decimal.AllDigits(p.port.value) && Decimal.Value(p.port.value) > 0)
  {
    hide PortInRange, ValidHost, Decimal.Significant, Cut;
    var p := Cut(authority);
    if p.Pieces? && p.port.Some? {
      PortRangeIsExact(p.port.value);
      if Decimal.AllDigits(p.port.value) { ZeroIsZero(p.port.value); }
    }
  }

  lemma {:induction false} NameIsLossless(authority: Bytes)
    ensures var host, port := HostOf(authority), PortOf(authority);
            && COLON !in host
            && authority == if port.None? then host else host + [COLON] + port.value
  {
    if authority != [] && authority[0] != COLON {
      NameIsLossless(authority[1..]);
      assert authority == [authority[0]] + authority[1..];
    }
  }

  function Rejoin(p: Pieces): Bytes
    requires p.Pieces?
  {
    (if p.literal then [OPEN_BRACKET] + p.host + [CLOSE_BRACKET] else p.host)
    + if p.port.None? then [] else [COLON] + p.port.value
  }

  /** Nothing is lost by cutting: the host ends at the first colon or closing bracket, and the parts give the
      authority back. */
  lemma CutIsLossless(authority: Bytes)
    requires Cut(authority).Pieces?
    ensures var p := Cut(authority);
            authority == Rejoin(p) && (if p.literal then CLOSE_BRACKET !in p.host else COLON !in p.host)
  {
    var p := Cut(authority);
    if p.literal {
      var closing := ClosingFrom(authority, 1).value;
      assert authority == [authority[0]] + authority[1..closing] + [authority[closing]] + authority[closing + 1..];
    } else {
      NameIsLossless(authority);
    }
  }

  // -------------------------------------------------------------- comparisons

  /** The host as it is compared. */
  function CanonicalHost(literals: Literals, host: Bytes, literal: bool): Bytes
    requires ValidHost(literals, host, literal)
  {
    if literal then [OPEN_BRACKET] + literals(host).value + [CLOSE_BRACKET] else NormalizeHost(host)
  }

  /** `normalize_authority`: the scheme's default port stands in for a missing or an empty one. */
  function Normalize(literals: Literals, authority: Bytes, connect: bool, default: Option<nat>): Option<(Bytes, Option<nat>)> {
    if Validate(literals, authority, connect).None? then None
    else
      var p := Cut(authority);
      var host := CanonicalHost(literals, p.host, p.literal);
      if p.port.Some? && p.port.value != [] && Decimal.AllDigits(Decimal.Significant(p.port.value))
      then Some((host, Some(Decimal.Value(Decimal.Significant(p.port.value)))))
      else Some((host, default))
  }

  function PortNumber(p: Pieces, default: Option<nat>): Option<nat>
    requires p.Pieces?
  {
    if p.port.Some? && p.port.value != [] && Decimal.AllDigits(p.port.value) then Some(Decimal.Value(p.port.value)) else default
  }

  /** The normal form: the host as it is compared, and the number its port denotes, of any length, or the default. */
  lemma NormalizedParts(literals: Literals, authority: Bytes, connect: bool, default: Option<nat>)
    requires Normalize(literals, authority, connect, default).Some?
    ensures var p := Cut(authority);
            && p.Pieces? && ValidHost(literals, p.host, p.literal)
            && Normalize(literals, authority, connect, default).value ==
                 (CanonicalHost(literals, p.host, p.literal), PortNumber(p, default))
  {
    hide NormalizeHost, ValidRegName, Decimal.Significant, Decimal.Value, Cut;
    var p := Cut(authority);
    if p.port.Some? && p.port.value != [] { Decimal.StrippedValue(p.port.value); }
  }

  /** No registered name looks like a literal. */
  lemma NamesAreNotLiterals(host: Bytes, rest: Bytes)
    requires ValidRegName(host)
    ensures NormalizeHost(host) != [OPEN_BRACKET] + rest
  {
    NormalizedIsValid(host);
    hide NormalizeHost;
    assert !ValidRegName([OPEN_BRACKET] + rest);
  }

  /** Authorities that compare equal have the same port number and the same host: both a registered name,
      up to the case of its letters, or both a literal with one canonical text. */
  lemma EqualAuthoritiesAgree(literals: Literals, a: Bytes, b: Bytes, connect: bool, default: Option<nat>)
    requires Normalize(literals, a, connect, default).Some?
    requires Normalize(literals, a, connect, default) == Normalize(literals, b, connect, default)
    ensures var p, q := Cut(a), Cut(b);
            && p.Pieces? && q.Pieces? && p.literal == q.literal
            && PortNumber(p, default) == PortNumber(q, default)
            && if p.literal then literals(p.host) == literals(q.host) else Lower(Decode(p.host)) == Lower(Decode(q.host))
  {
    NormalizedParts(literals, a, connect, default);
    NormalizedParts(literals, b, connect, default);
    hide Normalize, Cut, PortNumber;
    HostsAgree(literals, Cut(a), Cut(b));
  }

  /** Exactly which accepted authorities compare equal: the same port number, and two names with one spelling or
      two literals with one canonical text. */
  lemma EqualIffSameHostAndPort(literals: Literals, a: Bytes, b: Bytes, connect: bool, default: Option<nat>)
    requires Normalize(literals, a, connect, default).Some? && Normalize(literals, b, connect, default).Some?
    ensures var p, q := Cut(a), Cut(b);
            && p.Pieces? && q.Pieces?
            && (Normalize(literals, a, connect, default) == Normalize(literals, b, connect, default) <==>
                  && p.literal == q.literal && PortNumber(p, default) == PortNumber(q, default)
                  && if p.literal then literals(p.host) == literals(q.host) else Spelling(p.host) == Spelling(q.host))
  {
    NormalizedParts(literals, a, connect, default);
    NormalizedParts(literals, b, connect, default);
    hide Normalize, Cut, PortNumber, NormalizeHost, Spelling, Decode, Lower, ValidRegName;
    var p, q := Cut(a), Cut(b);
    if !p.literal && !q.literal { SameNormalFormIffSameSpelling(p.host, q.host); }
    if CanonicalHost(literals, p.host, p.literal) == CanonicalHost(literals, q.host, q.literal) { HostsAgree(literals, p, q); }
  }

  lemma HostsAgree(literals: Literals, p: Pieces, q: Pieces)
    requires p.Pieces? && q.Pieces? && ValidHost(literals, p.host, p.literal) && ValidHost(literals, q.host, q.literal)
    requires CanonicalHost(literals, p.host, p.literal) == CanonicalHost(literals, q.host, q.literal)
    ensures p.literal == q.literal
    ensures if p.literal then literals(p.host) == literals(q.host) else Lower(Decode(p.host)) == Lower(Decode(q.host))
  {
    hide NormalizeHost, Decode, Lower, ValidRegName;
    if p.literal && q.literal {
      var x, y := literals(p.host).value, literals(q.host).value;
      assert ([OPEN_BRACKET] + x + [CLOSE_BRACKET])[1..|x| + 1] == x;
      assert ([OPEN_BRACKET] + y + [CLOSE_BRACKET])[1..|y| + 1] == y;
    } else if p.literal {
      var x := literals(p.host).value;
      assert [OPEN_BRACKET] + x + [CLOSE_BRACKET] == [OPEN_BRACKET] + (x + [CLOSE_BRACKET]);
      NamesAreNotLiterals(q.host, x + [CLOSE_BRACKET]);
    } else if q.literal {
      var y := literals(q.host).value;
      assert [OPEN_BRACKET] + y + [CLOSE_BRACKET] == [OPEN_BRACKET] + (y + [CLOSE_BRACKET]);
      NamesAreNotLiterals(p.host, y + [CLOSE_BRACKET]);
    } else {
      EqualNormalFormsAgree(p.host, q.host);
    }
  }
}
