/**
 * XML character data: what the listener escapes (src/cloudwatch_server.cpp) and what DecodeXml
 * makes of entities and numeric references (src/alerts_table.cpp).
 */
module XmlEntities {
  import opened Strings

  // ---------- escaping ----------

  function EscapeByte(c: Byte): Bytes {
    match c
    case '&' => "&amp;"
    case '<' => "&lt;"
    case '>' => "&gt;"
    case '"' => "&quot;"
    case _ => [c]
  }

  function Escape(s: Bytes): Bytes {
    if s == [] then [] else EscapeByte(s[0]) + Escape(s[1..])
  }

  method XmlEscape(input: Bytes) returns (output: Bytes)
    ensures output == Escape(input)
  {
    hide EscapeByte;
    output := [];
    assert input[0..] == input;
    for i := 0 to |input|
      invariant output + Escape(input[i..]) == Escape(input)
    {
      assert input[i..][1..] == input[i + 1..];
      Regroup(output, EscapeByte(input[i]), Escape(input[i + 1..]));
      output := output + EscapeByte(input[i]);
    }
    assert input[|input|..] == [];
  }

  /** Escaped text holds none of the bytes that delimit markup. */
  lemma {:induction false} EscapeSafe(s: Bytes)
    ensures '<' !in Escape(s) && '>' !in Escape(s) && '"' !in Escape(s)
  {
    if s == [] {
    } else {
      EscapeSafe(s[1..]);
      assert '<' !in EscapeByte(s[0]) && '>' !in EscapeByte(s[0]) && '"' !in EscapeByte(s[0]);
    }
  }

  // ---------- UTF-8 ----------

  const MAX_CODEPOINT: nat := 0x10ffff

  /** A non-zero Unicode scalar value. */
  predicate IsScalar(n: nat) {
    0 < n <= MAX_CODEPOINT && !(0xd800 <= n <= 0xdfff)
  }

  function Continuation(n: nat): Byte {
    (0x80 + n % 64) as char
  }

  /** append_codepoint; in each byte the marker and the payload share no bits, so their union is their sum. */
  function Utf8(n: nat): (r: Bytes)
    requires n <= MAX_CODEPOINT
    ensures 1 <= |r| <= 4
  {
    if n <= 0x7f then [n as char]
    else if n <= 0x7ff then [(0xc0 + n / 64) as char, Continuation(n)]
    else if n <= 0xffff then [(0xe0 + n / 4096) as char, Continuation(n / 64), Continuation(n)]
    else [(0xf0 + n / 262144) as char, Continuation(n / 4096), Continuation(n / 64), Continuation(n)]
  }

  predicate IsContinuation(c: Byte) {
    0x80 <= c as int <= 0xbf
  }

  function Payload(c: Byte): nat
    requires IsContinuation(c)
  {
    c as int - 0x80
  }

  /** The decoder of section 4 of RFC 3629: no overlong forms, no surrogates, nothing above U+10FFFF. */
  function Utf8Decode(s: Bytes): Option<(nat, nat)> {
    if s == [] then None
    else
      var lead := s[0] as int;
      if lead <= 0x7f then Some((lead, 1))
      else if 0xc2 <= lead <= 0xdf && |s| > 1 && IsContinuation(s[1]) then
        Some(((lead - 0xc0) * 64 + Payload(s[1]), 2))
      else if 0xe0 <= lead <= 0xef && |s| > 2 && IsContinuation(s[1]) && IsContinuation(s[2])
              && (lead == 0xe0 ==> s[1] as int >= 0xa0) && (lead == 0xed ==> s[1] as int <= 0x9f) then
        Some(((lead - 0xe0) * 4096 + Payload(s[1]) * 64 + Payload(s[2]), 3))
      else if 0xf0 <= lead <= 0xf4 && |s| > 3 && IsContinuation(s[1]) && IsContinuation(s[2]) && IsContinuation(s[3])
              && (lead == 0xf0 ==> s[1] as int >= 0x90) && (lead == 0xf4 ==> s[1] as int <= 0x8f) then
        Some(((lead - 0xf0) * 262144 + Payload(s[1]) * 4096 + Payload(s[2]) * 64 + Payload(s[3]), 4))
      else None
  }

  lemma Sextets(n: nat)
    requires n <= MAX_CODEPOINT
    ensures n == n / 64 * 64 + n % 64 && n / 64 == n / 4096 * 64 + n / 64 % 64 && n / 4096 == n / 262144 * 64 + n / 4096 % 64
    ensures n / 64 < 32 <==> n <= 0x7ff
    ensures n / 4096 < 16 <==> n <= 0xffff
    ensures n / 262144 <= 4
  {
  }

  lemma DecodeOne(s: Bytes)
    requires s != [] && s[0] as int <= 0x7f
    ensures Utf8Decode(s) == Some((s[0] as int, 1))
  {
  }

  lemma DecodeTwo(s: Bytes, a: nat, b: nat)
    requires |s| >= 2 && 2 <= a < 32 && b < 64
    requires s[0] as int == 0xc0 + a && s[1] as int == 0x80 + b
    ensures Utf8Decode(s) == Some((a * 64 + b, 2))
  {
  }

  lemma DecodeThree(s: Bytes, a: nat, b: nat, c: nat)
    requires |s| >= 3 && a < 16 && b < 64 && c < 64
    requires s[0] as int == 0xe0 + a && s[1] as int == 0x80 + b && s[2] as int == 0x80 + c
    requires (a == 0 ==> b >= 0x20) && (a == 0xd ==> b < 0x20)
    ensures Utf8Decode(s) == Some((a * 4096 + b * 64 + c, 3))
  {
  }

  lemma DecodeFour(s: Bytes, a: nat, b: nat, c: nat, d: nat)
    requires |s| >= 4 && a <= 4 && b < 64 && c < 64 && d < 64
    requires s[0] as int == 0xf0 + a && s[1] as int == 0x80 + b && s[2] as int == 0x80 + c && s[3] as int == 0x80 + d
    requires (a == 0 ==> b >= 0x10) && (a == 4 ==> b < 0x10)
    ensures Utf8Decode(s) == Some((a * 262144 + b * 4096 + c * 64 + d, 4))
  {
  }

  /** The bytes appended for a scalar value are the well-formed UTF-8 for exactly that value. */
  lemma Utf8RoundTrip(n: nat, rest: Bytes)
    requires IsScalar(n)
    ensures Utf8Decode(Utf8(n) + rest) == Some((n, |Utf8(n)|))
  {
    hide Utf8Decode;
    Sextets(n);
    var s := Utf8(n) + rest;
    if n <= 0x7f {
      DecodeOne(s);
    } else if n <= 0x7ff {
      DecodeTwo(s, n / 64, n % 64);
    } else if n <= 0xffff {
      DecodeThree(s, n / 4096, n / 64 % 64, n % 64);
    } else {
      DecodeFour(s, n / 262144, n / 4096 % 64, n / 64 % 64, n % 64);
    }
  }

  lemma Recombine(a: nat, b: nat)
    requires b < 64
    ensures (a * 64 + b) / 64 == a && (a * 64 + b) % 64 == b
  {
  }

  lemma CanonicalTwo(a: nat, b: nat)
    requires 2 <= a < 32 && b < 64
    ensures var n := a * 64 + b; 0x7f < n <= 0x7ff && Utf8(n) == [(0xc0 + a) as char, (0x80 + b) as char]
  {
    Recombine(a, b);
  }

  lemma CanonicalThree(a: nat, b: nat, c: nat)
    requires a < 16 && b < 64 && c < 64 && (a == 0 ==> b >= 0x20)
    ensures var n := a * 4096 + b * 64 + c;
            0x7ff < n <= 0xffff && Utf8(n) == [(0xe0 + a) as char, (0x80 + b) as char, (0x80 + c) as char]
  {
    Recombine(a * 64 + b, c);
    Recombine(a, b);
    Sextets(a * 4096 + b * 64 + c);
  }

  lemma CanonicalFour(a: nat, b: nat, c: nat, d: nat)
    requires a <= 4 && b < 64 && c < 64 && d < 64 && (a == 0 ==> b >= 0x10) && (a == 4 ==> b < 0x10)
    ensures var n := a * 262144 + b * 4096 + c * 64 + d;
            0xffff < n <= MAX_CODEPOINT && Utf8(n) == [(0xf0 + a) as char, (0x80 + b) as char, (0x80 + c) as char, (0x80 + d) as char]
  {
    Recombine((a * 64 + b) * 64 + c, d);
    Recombine(a * 64 + b, c);
    Recombine(a, b);
    Sextets(a * 262144 + b * 4096 + c * 64 + d);
  }

  /** Whatever the decoder accepts is what append_codepoint writes for that value, so no scalar has two encodings. */
  lemma Utf8Canonical(s: Bytes)
    requires Utf8Decode(s).Some?
    ensures var (n, length) := Utf8Decode(s).value;
            length <= |s| && n <= MAX_CODEPOINT && !(0xd800 <= n <= 0xdfff) && Utf8(n) == s[..length]
  {
    var lead := s[0] as int;
    if lead > 0x7f {
      hide Utf8;
      if lead <= 0xdf {
        CanonicalTwo(lead - 0xc0, Payload(s[1]));
      } else if lead <= 0xef {
        CanonicalThree(lead - 0xe0, Payload(s[1]), Payload(s[2]));
      } else {
        CanonicalFour(lead - 0xf0, Payload(s[1]), Payload(s[2]), Payload(s[3]));
      }
    }
  }

  // ---------- numeric references ----------

  function DigitOf(c: Byte, base: nat): Option<nat> {
    if IsDigit(c) then Some(c as int - '0' as int)
    else if base == 16 && 'a' <= c <= 'f' then Some(c as int - 'a' as int + 10)
    else if base == 16 && 'A' <= c <= 'F' then Some(c as int - 'A' as int + 10)
    else None
  }

  predicate AllOfBase(digits: Bytes, base: nat) {
    forall i | 0 <= i < |digits| :: DigitOf(digits[i], base).Some?
  }

  /** The unbounded value of a numeral. */
  function NumeralValue(digits: Bytes, base: nat): nat
    requires AllOfBase(digits, base)
  {
    if digits == [] then 0 else NumeralValue(digits[..|digits| - 1], base) * base + DigitOf(digits[|digits| - 1], base).value
  }

  lemma TimesGrows(n: nat, base: nat)
    requires base > 0
    ensures n <= n * base
  {
  }

  lemma {:induction false} NumeralGrows(digits: Bytes, k: nat, base: nat)
    requires k <= |digits| && AllOfBase(digits, base) && base > 0
    ensures NumeralValue(digits[..k], base) <= NumeralValue(digits, base)
  {
    if k < |digits| {
      NumeralGrows(digits[..|digits| - 1], k, base);
      assert digits[..|digits| - 1][..k] == digits[..k];
      TimesGrows(NumeralValue(digits[..|digits| - 1], base), base);
    } else {
      assert digits[..k] == digits;
    }
  }

  /** The guard before each step is the overflow test it stands for, in unsigned arithmetic without overflow. */
  lemma GuardIsOverflow(parsed: nat, digit: nat, base: nat)
    requires base == 10 || base == 16
    requires digit < 16
    ensures parsed > (MAX_CODEPOINT - digit) / base <==> parsed * base + digit > MAX_CODEPOINT
  {
  }

  /** A numeral's value when its digits are all of the base and it does not pass U+10FFFF. */
  function BoundedNumeral(digits: Bytes, base: nat): Option<nat> {
    if digits != [] && AllOfBase(digits, base) && NumeralValue(digits, base) <= MAX_CODEPOINT
    then Some(NumeralValue(digits, base)) else None
  }

  lemma NumeralEmpty(base: nat)
    ensures NumeralValue([], base) == 0
  {
  }

  lemma NumeralStep(digits: Bytes, i: nat, base: nat)
    requires i < |digits| && AllOfBase(digits[..i], base) && DigitOf(digits[i], base).Some?
    ensures AllOfBase(digits[..i + 1], base)
    ensures NumeralValue(digits[..i + 1], base) == NumeralValue(digits[..i], base) * base + DigitOf(digits[i], base).value
    ensures DigitOf(digits[i], base).value < 16
  {
    assert digits[..i + 1][..i] == digits[..i];
  }

  /** The digit loop: its running value stays within the code space, and it stops early only where the numeral is unusable. */
  method ParseNumeral(digits: Bytes, hex: bool) returns (parsed: nat, valid: bool)
    ensures parsed <= MAX_CODEPOINT
    ensures BoundedNumeral(digits, if hex then 16 else 10) == if valid then Some(parsed) else None
  {
    hide NumeralValue;
    parsed := 0;
    valid := digits != [];
    ghost var base := if hex then 16 else 10;
    NumeralEmpty(base);
    var i := 0;
    while i < |digits| && valid
      invariant i <= |digits| && parsed <= MAX_CODEPOINT
      invariant valid ==> digits != [] && AllOfBase(digits[..i], base) && parsed == NumeralValue(digits[..i], base)
      invariant !valid ==> BoundedNumeral(digits, base) == None
      decreases |digits| - i, valid
    {
      var digit := DigitOf(digits[i], if hex then 16 else 10);
      if digit.None? {
        valid := false;
      } else {
        NumeralStep(digits, i, base);
        GuardIsOverflow(parsed, digit.value, base);
        if parsed > (MAX_CODEPOINT - digit.value) / (if hex then 16 else 10) {
          valid := false;
          if AllOfBase(digits, base) {
            NumeralGrows(digits, i + 1, base);
          }
        } else {
          parsed := parsed * (if hex then 16 else 10) + digit.value;
          i := i + 1;
        }
      }
    }
    if valid {
      assert digits[..i] == digits;
    }
  }

  /** "#" or "#x" and the digits behind it. */
  predicate IsHexReference(e: Bytes) {
    |e| > 2 && e[0] == '#' && (e[1] == 'x' || e[1] == 'X')
  }

  function ReferenceValue(e: Bytes): Option<nat> {
    if IsHexReference(e) then BoundedNumeral(e[2..], 16)
    else if |e| > 1 && e[0] == '#' then BoundedNumeral(e[1..], 10)
    else None
  }

  function NamedEntity(e: Bytes): Option<Byte> {
    if e == "amp" then Some('&')
    else if e == "lt" then Some('<')
    else if e == "gt" then Some('>')
    else if e == "quot" then Some('"')
    else if e == "apos" then Some('\'')
    else None
  }

  /** What stands for &e; in the decoded text. */
  function DecodeEntity(e: Bytes): Bytes {
    if NamedEntity(e).Some? then [NamedEntity(e).value]
    else if ReferenceValue(e).Some? && IsScalar(ReferenceValue(e).value) then Utf8(ReferenceValue(e).value)
    else "&" + e + ";"
  }

  /** The five names of section 4.6 of XML 1.0, and no others. */
  lemma NamesMean(e: Bytes)
    ensures NamedEntity(e) == Some('&') <==> e == "amp"
    ensures NamedEntity(e) == Some('<') <==> e == "lt"
    ensures NamedEntity(e) == Some('>') <==> e == "gt"
    ensures NamedEntity(e) == Some('"') <==> e == "quot"
    ensures NamedEntity(e) == Some('\'') <==> e == "apos"
    ensures NamedEntity(e) == None <==> e !in {"amp", "lt", "gt", "quot", "apos"}
  {
  }

  method ResolveEntity(e: Bytes) returns (r: Bytes)
    ensures r == DecodeEntity(e)
  {
    hide BoundedNumeral;
    if NamedEntity(e).Some? {
      return [NamedEntity(e).value];
    }
    if |e| > 1 && e[0] == '#' {
      var hex := IsHexReference(e);
      var parsed, valid := ParseNumeral(if hex then e[2..] else e[1..], hex);
      if valid && IsScalar(parsed) {
        return Utf8(parsed);
      }
    }
    return "&" + e + ";";
  }

  // ---------- decoding ----------

  function DecodeRaw(s: Bytes): Bytes {
    if s == [] then []
    else if s[0] != '&' then [s[0]] + DecodeRaw(s[1..])
    else
      match Find(s, ";", 1)
      case None => [s[0]] + DecodeRaw(s[1..])
      case Some(end) => DecodeEntity(s[1..end]) + DecodeRaw(s[end + 1..])
  }

  function Decode(s: Bytes): Bytes {
    Trim(DecodeRaw(s))
  }

  lemma DecodeRawAt(s: Bytes, i: nat)
    requires i < |s|
    ensures DecodeRaw(s[i..]) ==
            if s[i] != '&' || Find(s, ";", i + 1).None? then [s[i]] + DecodeRaw(s[i + 1..])
            else var end := Find(s, ";", i + 1).value; DecodeEntity(s[i + 1..end]) + DecodeRaw(s[end + 1..])
  {
    hide DecodeEntity;
    var t := s[i..];
    assert t[1..] == s[i + 1..];
    FindShift(s, i, ";", 1);
    if Find(s, ";", i + 1).Some? {
      var end := Find(s, ";", i + 1).value;
      assert t[1..end - i] == s[i + 1..end] && t[end - i + 1..] == s[end + 1..];
    }
  }

  lemma DecodeRawEmpty()
    ensures DecodeRaw([]) == []
  {
  }

  /** The two pointer loops at the end of DecodeXml. */
  method TrimBoth(s: Bytes) returns (r: Bytes)
    ensures r == Trim(s)
  {
    var first := 0;
    assert s[0..] == s;
    while first < |s| && IsSpace(s[first])
      invariant first <= |s| && TrimLeft(s[first..]) == TrimLeft(s)
    {
      assert s[first..][1..] == s[first + 1..];
      first := first + 1;
    }
    assert TrimLeft(s) == s[first..];
    var last := |s|;
    assert s[first..last] == s[first..];
    while last > first && IsSpace(s[last - 1])
      invariant first <= last <= |s| && TrimRight(s[first..last]) == TrimRight(s[first..])
    {
      assert s[first..last][..last - first - 1] == s[first..last - 1];
      last := last - 1;
    }
    r := s[first..last];
  }

  /** DecodeXml: one pass over the text, then the outer whitespace goes. */
  method DecodeXml(value: Bytes) returns (result: Bytes)
    ensures result == Decode(value)
  {
    hide DecodeRaw, DecodeEntity;
    result := [];
    var i := 0;
    DecodeRawEmpty();
    assert value[0..] == value;
    while i < |value|
      invariant i <= |value|
      invariant result + DecodeRaw(value[i..]) == DecodeRaw(value)
    {
      DecodeRawAt(value, i);
      var end := if value[i] == '&' then Find(value, ";", i + 1) else None;
      if end.None? {
        Regroup(result, [value[i]], DecodeRaw(value[i + 1..]));
        result := result + [value[i]];
        i := i + 1;
      } else {
        var text := ResolveEntity(value[i + 1..end.value]);
        Regroup(result, text, DecodeRaw(value[end.value + 1..]));
        result := result + text;
        i := end.value + 1;
      }
    }
    assert value[i..] == [] && result + [] == result;
    result := TrimBoth(result);
  }

  // ---------- entities, one at a time ----------

  /** Text without an ampersand in front decodes to itself. */
  lemma PlainStep(c: Byte, u: Bytes)
    requires c != '&'
    ensures DecodeRaw([c] + u) == [c] + DecodeRaw(u)
  {
    assert ([c] + u)[1..] == u;
  }

  lemma EntityStep(e: Bytes, u: Bytes)
    requires ';' !in e
    ensures DecodeRaw("&" + e + ";" + u) == DecodeEntity(e) + DecodeRaw(u)
  {
    var s := "&" + e + ";" + u;
    assert At(s, |e| + 1, ";");
    forall k | 1 <= k < |e| + 1 ensures !At(s, k, ";") {
      assert s[k..k + 1][0] == e[k - 1];
    }
    assert s[|e| + 2..] == u && s[1..|e| + 1] == e;
    assert Find(s, ";", 1) == Some(|e| + 1);
  }

  lemma NamedStep(e: Bytes, c: Byte, u: Bytes)
    requires ';' !in e && NamedEntity(e) == Some(c)
    ensures DecodeRaw("&" + e + ";" + u) == [c] + DecodeRaw(u)
  {
    hide DecodeRaw;
    EntityStep(e, u);
  }

  lemma EscapedStep(c: Byte, u: Bytes)
    ensures DecodeRaw(EscapeByte(c) + u) == [c] + DecodeRaw(u)
  {
    hide DecodeRaw;
    match c
    case '&' =>
      NamedStep("amp", '&', u);
      assert "&" + "amp" + ";" == "&amp;";
    case '<' =>
      NamedStep("lt", '<', u);
      assert "&" + "lt" + ";" == "&lt;";
    case '>' =>
      NamedStep("gt", '>', u);
      assert "&" + "gt" + ";" == "&gt;";
    case '"' =>
      NamedStep("quot", '"', u);
      assert "&" + "quot" + ";" == "&quot;";
    case _ => PlainStep(c, u);
  }

  lemma {:induction false} EscapeThenMore(s: Bytes, u: Bytes)
    ensures DecodeRaw(Escape(s) + u) == s + DecodeRaw(u)
  {
    hide DecodeRaw, EscapeByte;
    if s == [] {
      assert Escape(s) + u == u;
    } else {
      Regroup(EscapeByte(s[0]), Escape(s[1..]), u);
      EscapedStep(s[0], Escape(s[1..]) + u);
      EscapeThenMore(s[1..], u);
      Regroup([s[0]], s[1..], DecodeRaw(u));
    }
  }

  /** The client reads escaped text back, less its outer whitespace. */
  lemma DecodeEscape(s: Bytes)
    ensures Decode(Escape(s)) == Trim(s)
  {
    hide DecodeRaw, Escape;
    EscapeThenMore(s, []);
    DecodeRawEmpty();
    assert Escape(s) + [] == Escape(s) && s + [] == s;
  }

  // ---------- what a reference means ----------

  /** e is a decimal or hexadecimal reference to n, leading zeros and either case allowed. */
  predicate RefersTo(e: Bytes, n: nat) {
    || (|e| > 1 && e[0] == '#' && AllOfBase(e[1..], 10) && NumeralValue(e[1..], 10) == n)
    || (IsHexReference(e) && AllOfBase(e[2..], 16) && NumeralValue(e[2..], 16) == n)
  }

  lemma NotBothBases(e: Bytes)
    requires IsHexReference(e)
    ensures !AllOfBase(e[1..], 10)
  {
    assert DigitOf(e[1..][0], 10) == None;
  }

  /**
   * A reference becomes a character's UTF-8 bytes exactly when it names a non-zero scalar value;
   * every other entity that is not one of the five names stays as it was written.
   */
  lemma EntityMeaning(e: Bytes, n: nat, u: Bytes)
    requires ';' !in e && NamedEntity(e).None?
    ensures RefersTo(e, n) && IsScalar(n) ==> DecodeRaw("&" + e + ";" + u) == Utf8(n) + DecodeRaw(u)
    ensures (forall k | IsScalar(k) :: !RefersTo(e, k)) ==> DecodeRaw("&" + e + ";" + u) == "&" + e + ";" + DecodeRaw(u)
  {
    hide DecodeRaw, NumeralValue, Utf8;
    EntityStep(e, u);
    if IsHexReference(e) {
      NotBothBases(e);
    }
  }
}
