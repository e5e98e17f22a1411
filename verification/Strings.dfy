/**
 * Byte strings as the C++ sources hold them in std::string, with the few library
 * operations the modelled code calls: find, compare, isspace, to_string, stoll.
 */
module Strings {
  datatype Option<+T> = None | Some(value: T)

  datatype Result<+T, +E> = Ok(value: T) | Err(error: E)

  /** One char of a std::string, read as unsigned. */
  type Byte = c: char | c as int < 256

  type Bytes = seq<Byte>

  // ---------- searching ----------

  predicate At(s: Bytes, i: nat, pat: Bytes) {
    i + |pat| <= |s| && s[i..i + |pat|] == pat
  }

  /** std::string::find: the first occurrence of pat at or after from. */
  function Find(s: Bytes, pat: Bytes, from: nat): (r: Option<nat>)
    ensures r.Some? ==> from <= r.value && At(s, r.value, pat) && forall k | from <= k < r.value :: !At(s, k, pat)
    ensures r.None? ==> forall k | from <= k :: !At(s, k, pat)
    decreases |s| - from
  {
    if At(s, from, pat) then Some(from)
    else if from >= |s| then None
    else Find(s, pat, from + 1)
  }

  /** A byte that does not occur earlier is found where it stands. */
  lemma FindFirst(s: Bytes, c: Byte, rest: Bytes)
    requires c !in s
    ensures Find(s + [c] + rest, [c], 0) == Some(|s|)
    ensures Find(s, [c], 0) == None
  {
    var t := s + [c] + rest;
    assert At(t, |s|, [c]);
    forall k | 0 <= k < |s| ensures !At(t, k, [c]) {
      assert t[k..k + 1][0] == s[k];
    }
    forall k: nat ensures !At(s, k, [c]) {
      if k + 1 <= |s| {
        assert s[k..k + 1][0] == s[k];
      }
    }
  }

  /** Searching a suffix is searching the whole from a later position. */
  lemma FindShift(s: Bytes, i: nat, pat: Bytes, from: nat)
    requires i <= |s|
    ensures Find(s[i..], pat, from) == if Find(s, pat, i + from).Some? then Some(Find(s, pat, i + from).value - i) else None
  {
    forall k: nat ensures At(s[i..], k, pat) <==> At(s, i + k, pat) {
      if k + |pat| <= |s| - i {
        assert s[i..][k..k + |pat|] == s[i + k..i + k + |pat|];
      }
    }
    var a, b := Find(s[i..], pat, from), Find(s, pat, i + from);
    if b.Some? {
      assert At(s[i..], b.value - i, pat);
    }
    if a.Some? {
      assert At(s, i + a.value, pat);
    }
  }

  predicate Contains(s: Bytes, pat: Bytes) {
    Find(s, pat, 0).Some?
  }

  /** The pattern stands somewhere in s. */
  ghost predicate HasText(s: Bytes, pat: Bytes) {
    exists k :: 0 <= k && At(s, k, pat)
  }

  lemma ContainsIsHasText(s: Bytes, pat: Bytes)
    ensures Contains(s, pat) <==> HasText(s, pat)
  {
    hide At;
    var found := Find(s, pat, 0);
    if found.Some? {
      assert At(s, found.value, pat);
    }
  }

  /** Text without the pattern's first byte does not contain the pattern. */
  lemma ByteMissing(s: Bytes, pat: Bytes, c: Byte)
    requires pat != [] && pat[0] == c && c !in s
    ensures !Contains(s, pat)
  {
    forall k | 0 <= k && k + |pat| <= |s| ensures !At(s, k, pat) {
      assert s[k..k + |pat|][0] == s[k];
    }
  }

  predicate StartsWith(s: Bytes, pat: Bytes) {
    At(s, 0, pat)
  }

  /** What a C string accessor returns for s: everything before the first NUL. */
  function CStr(s: Bytes): (r: Bytes)
    ensures |r| <= |s| && '\0' !in r
    ensures '\0' !in s ==> r == s
  {
    if s == [] || s[0] == '\0' then [] else [s[0]] + CStr(s[1..])
  }

  lemma CStrIdempotent(s: Bytes)
    ensures CStr(CStr(s)) == CStr(s)
  {
  }

  /** StringUtil::Join. */
  function Join(parts: seq<Bytes>, separator: Bytes): Bytes {
    if parts == [] then [] else if |parts| == 1 then parts[0] else parts[0] + separator + Join(parts[1..], separator)
  }

  // ---------- cutting and joining ----------

  lemma Regroup(a: Bytes, b: Bytes, c: Bytes)
    ensures (a + b) + c == a + (b + c)
  {
  }

  lemma SuffixStep(s: Bytes, i: nat)
    requires i < |s|
    ensures s[i..] != [] && s[i..][0] == s[i] && s[i..][1..] == s[i + 1..]
  {
  }

  lemma SuffixDrop(s: Bytes, i: nat, n: nat)
    requires i + n <= |s|
    ensures s[i..][n..] == s[i + n..]
  {
  }

  // ---------- order ----------

  /** Bytewise comparison, as of std::string and VARCHAR values. */
  predicate LexLess(a: Bytes, b: Bytes) {
    b != [] && (a == [] || a[0] < b[0] || (a[0] == b[0] && LexLess(a[1..], b[1..])))
  }

  lemma {:induction false} LexOrder(a: Bytes, b: Bytes, c: Bytes)
    ensures LexLess(a, b) && LexLess(b, c) ==> LexLess(a, c)
    ensures LexLess(a, b) ==> !LexLess(b, a)
    ensures !LexLess(a, b) && !LexLess(b, a) ==> a == b
  {
    if a == [] || b == [] {
    } else {
      LexOrder(a[1..], b[1..], if c == [] then [] else c[1..]);
      assert a == [a[0]] + a[1..] && b == [b[0]] + b[1..];
    }
  }

  // ---------- whitespace ----------

  /** isspace in the C locale. */
  predicate IsSpace(c: Byte) {
    c == ' ' || 9 <= c as int <= 13
  }

  predicate AllSpace(s: Bytes) {
    forall i | 0 <= i < |s| :: IsSpace(s[i])
  }

  function TrimLeft(s: Bytes): Bytes {
    if s != [] && IsSpace(s[0]) then TrimLeft(s[1..]) else s
  }

  function TrimRight(s: Bytes): Bytes {
    if s != [] && IsSpace(s[|s| - 1]) then TrimRight(s[..|s| - 1]) else s
  }

  function Trim(s: Bytes): Bytes {
    TrimRight(TrimLeft(s))
  }

  /** Neither the first nor the last byte is whitespace. */
  predicate Trimmed(s: Bytes) {
    s == [] || (!IsSpace(s[0]) && !IsSpace(s[|s| - 1]))
  }

  // ---------- decimal text ----------

  function Digit(d: nat): Byte
    requires d < 10
  {
    ('0' as int + d) as char
  }

  predicate IsDigit(c: Byte) {
    '0' <= c <= '9'
  }

  function DigitValue(c: Byte): nat
    requires IsDigit(c)
  {
    c as int - '0' as int
  }

  predicate AllDigits(s: Bytes) {
    forall i | 0 <= i < |s| :: IsDigit(s[i])
  }

  /** std::to_string of a non-negative integer. */
  function ToString(n: nat): (r: Bytes)
    ensures r != [] && AllDigits(r)
  {
    if n < 10 then [Digit(n)] else ToString(n / 10) + [Digit(n % 10)]
  }

  function DecimalValue(s: Bytes): nat
    requires AllDigits(s)
  {
    if s == [] then 0 else DecimalValue(s[..|s| - 1]) * 10 + DigitValue(s[|s| - 1])
  }

  lemma {:induction false} DecimalRoundTrip(n: nat)
    ensures DecimalValue(ToString(n)) == n
  {
    if n < 10 {
    } else {
      DecimalRoundTrip(n / 10);
      assert ToString(n)[..|ToString(n)| - 1] == ToString(n / 10);
    }
  }

  lemma ToStringInjective(m: nat, n: nat)
    requires ToString(m) == ToString(n)
    ensures m == n
  {
    DecimalRoundTrip(m);
    DecimalRoundTrip(n);
  }

  /** Two decimal numerals, each followed by a non-digit, are equal texts only when both parts agree. */
  lemma {:induction false} NumeralPrefix(m: nat, r: Bytes, n: nat, s: Bytes)
    requires r != [] && s != [] && !IsDigit(r[0]) && !IsDigit(s[0])
    requires ToString(m) + r == ToString(n) + s
    ensures m == n && r == s
  {
    var a, b := ToString(m), ToString(n);
    assert (a + r)[|a|] == r[0] && (b + s)[|b|] == s[0];
    assert |a| == |b|;
    assert a == (a + r)[..|a|] && b == (b + s)[..|b|];
    assert r == (a + r)[|a|..] && s == (b + s)[|b|..];
    ToStringInjective(m, n);
  }

  // ---------- int64 ----------

  const INT64_MIN: int := -0x8000_0000_0000_0000
  const INT64_MAX: int := 0x7fff_ffff_ffff_ffff

  type Int64 = n: int | INT64_MIN <= n <= INT64_MAX

  function LeadingDigits(s: Bytes): (r: Bytes)
    ensures AllDigits(r) && |r| <= |s|
  {
    if s != [] && IsDigit(s[0]) then [s[0]] + LeadingDigits(s[1..]) else []
  }

  /** std::stoll: leading blanks, an optional sign, digits; None stands for the exceptions it throws. */
  function Stoll(s: Bytes): Option<Int64> {
    var t := TrimLeft(s);
    var negative := t != [] && t[0] == '-';
    var digits := LeadingDigits(if t != [] && (t[0] == '-' || t[0] == '+') then t[1..] else t);
    var value := DecimalValue(digits) * (if negative then -1 else 1);
    if digits == [] || !(INT64_MIN <= value <= INT64_MAX) then None else Some(value)
  }

  lemma {:induction false} LeadingDigitsAll(s: Bytes)
    requires AllDigits(s)
    ensures LeadingDigits(s) == s
  {
    if s == [] {
    } else {
      LeadingDigitsAll(s[1..]);
    }
  }

  lemma StollToString(n: nat)
    requires n <= INT64_MAX
    ensures Stoll(ToString(n)) == Some(n)
  {
    LeadingDigitsAll(ToString(n));
    DecimalRoundTrip(n);
    assert IsDigit(ToString(n)[0]);
  }

  /** C++ integer division, which truncates toward zero. */
  function TruncDiv(n: int, d: int): int
    requires d > 0
  {
    if n >= 0 then n / d else -((-n) / d)
  }
}
