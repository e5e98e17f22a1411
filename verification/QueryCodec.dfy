/**
 * The form encoding of the AWS query protocol: percent-encoding and joining on the client
 * (src/cloudwatch_client.cpp), splitting and decoding in the listener (src/cloudwatch_server.cpp).
 */
module QueryCodec {
  import opened Strings

  type Pair = (Bytes, Bytes)

  // ---------- percent encoding ----------

  function HexDigit(n: nat): Byte
    requires n < 16
  {
    if n < 10 then ('0' as int + n) as char else ('A' as int + n - 10) as char
  }

  predicate Unreserved(c: Byte) {
    'a' <= c <= 'z' || 'A' <= c <= 'Z' || '0' <= c <= '9' || c == '-' || c == '_' || c == '.' || c == '~'
  }

  function EncodeByte(c: Byte): Bytes {
    if Unreserved(c) then [c] else ['%', HexDigit(c as int / 16), HexDigit(c as int % 16)]
  }

  function Encode(s: Bytes): Bytes {
    if s == [] then [] else EncodeByte(s[0]) + Encode(s[1..])
  }

  lemma PushByte(front: Bytes, c: Byte, rest: Bytes)
    ensures front + ([c] + rest) == front + [c] + rest
  {
  }

  lemma EncodeAt(value: Bytes, i: nat)
    requires i < |value|
    ensures Encode(value[i..]) == EncodeByte(value[i]) + Encode(value[i + 1..])
  {
    hide EncodeByte;
    assert value[i..][1..] == value[i + 1..];
  }

  lemma EncodeNothing()
    ensures Encode([]) == []
  {
  }

  method QueryEncode(value: Bytes) returns (result: Bytes)
    ensures result == Encode(value)
  {
    hide EncodeByte, Encode;
    EncodeNothing();
    result := [];
    assert value[0..] == value;
    for i := 0 to |value|
      invariant result + Encode(value[i..]) == Encode(value)
    {
      EncodeAt(value, i);
      Regroup(result, EncodeByte(value[i]), Encode(value[i + 1..]));
      result := result + EncodeByte(value[i]);
    }
    assert value[|value|..] == [];
  }

  // ---------- percent decoding ----------

  /** The value of a hexadecimal digit in either case. */
  function HexValue(c: Byte): Option<nat> {
    if IsDigit(c) then Some(c as int - '0' as int)
    else if 'a' <= c <= 'f' then Some(c as int - 'a' as int + 10)
    else if 'A' <= c <= 'F' then Some(c as int - 'A' as int + 10)
    else None
  }

  /** strtol of a two-byte text in base 16, with its blanks, sign and partial matches, cast to a char. */
  function HexPair(a: Byte, b: Byte): Byte {
    var low := if HexValue(b).Some? then HexValue(b).value else 0;
    if HexValue(a).Some? then
      (if HexValue(b).Some? then (HexValue(a).value * 16 + low) as char else HexValue(a).value as char)
    else if IsSpace(a) || a == '+' then low as char
    else if a == '-' && low > 0 then (256 - low) as char
    else 0 as char
  }

  function Decode(s: Bytes): Bytes {
    if s == [] then []
    else if s[0] == '+' then [' '] + Decode(s[1..])
    else if s[0] == '%' && |s| > 2 then [HexPair(s[1], s[2])] + Decode(s[3..])
    else [s[0]] + Decode(s[1..])
  }

  lemma DecodeAt(s: Bytes, i: nat)
    requires i < |s|
    ensures Decode(s[i..]) ==
            if s[i] == '+' then [' '] + Decode(s[i + 1..])
            else if s[i] == '%' && i + 2 < |s| then [HexPair(s[i + 1], s[i + 2])] + Decode(s[i + 3..])
            else [s[i]] + Decode(s[i + 1..])
  {
    hide HexPair;
    assert s[i..][1..] == s[i + 1..];
    if i + 2 < |s| {
      assert s[i..][3..] == s[i + 3..];
    }
  }

  lemma DecodeNothing()
    ensures Decode([]) == []
  {
  }

  method FormDecode(input: Bytes) returns (output: Bytes)
    ensures output == Decode(input)
  {
    DecodeNothing();
    hide Decode, HexPair;
    output := [];
    assert input[0..] == input;
    var index := 0;
    while index < |input|
      invariant index <= |input|
      invariant output + Decode(input[index..]) == Decode(input)
    {
      DecodeAt(input, index);
      var character := input[index];
      if input[index] == '+' {
        character := ' ';
      } else if input[index] == '%' && index + 2 < |input| {
        character := HexPair(input[index + 1], input[index + 2]);
        index := index + 2;
      }
      index := index + 1;
      PushByte(output, character, Decode(input[index..]));
      output := output + [character];
    }
    assert input[|input|..] == [];
  }

  lemma DecodeEncodedByte(c: Byte, rest: Bytes)
    ensures Decode(EncodeByte(c) + rest) == [c] + Decode(rest)
  {
    var s := EncodeByte(c) + rest;
    if Unreserved(c) {
      assert s[1..] == rest;
    } else {
      assert s[3..] == rest;
      assert HexValue(HexDigit(c as int / 16)) == Some(c as int / 16);
      assert HexValue(HexDigit(c as int % 16)) == Some(c as int % 16);
    }
  }

  /** Decoding undoes encoding on every byte string. */
  lemma {:induction false} DecodeEncode(s: Bytes)
    ensures Decode(Encode(s)) == s
  {
    hide Decode, EncodeByte;
    if s == [] {
      DecodeNothing();
    } else {
      DecodeEncodedByte(s[0], Encode(s[1..]));
      DecodeEncode(s[1..]);
    }
  }

  /** What a hexadecimal digit counts. */
  predicate DigitCounts(c: Byte, value: nat) {
    || ('0' <= c <= '9' && c as int == '0' as int + value)
    || ('a' <= c <= 'f' && c as int == 'a' as int + value - 10)
    || ('A' <= c <= 'F' && c as int == 'A' as int + value - 10)
  }

  lemma DigitIs(c: Byte, value: nat)
    requires DigitCounts(c, value)
    ensures HexValue(c) == Some(value) && value < 16
  {
  }

  /** A plus is a space; any other byte but a percent sign is itself, and so is a percent sign near the end. */
  lemma DecodePlain(c: Byte, rest: Bytes)
    ensures Decode([]) == []
    ensures Decode([c] + rest) ==
            if c == '+' then [' '] + Decode(rest)
            else if c == '%' && |rest| >= 2 then [HexPair(rest[0], rest[1])] + Decode(rest[2..])
            else [c] + Decode(rest)
  {
    hide HexPair;
    assert ([c] + rest)[1..] == rest;
    assert |rest| >= 2 ==> ([c] + rest)[3..] == rest[2..];
  }

  lemma NoDigit(c: Byte)
    requires forall value: nat :: !DigitCounts(c, value)
    ensures HexValue(c) == None
  {
    var v := HexValue(c);
    assert v.Some? ==> DigitCounts(c, v.value);
  }

  /** A percent sign and two hexadecimal digits are one byte; a digit and no digit are that digit, no digit at all a zero. */
  lemma DecodeEscaped(rest: Bytes, high: Byte, low: Byte, h: nat)
    requires DigitCounts(high, h)
    ensures forall l: nat | DigitCounts(low, l) :: h * 16 + l < 256 && Decode(['%', high, low] + rest) == [(h * 16 + l) as char] + Decode(rest)
    ensures (forall l: nat :: !DigitCounts(low, l)) ==> h < 256 && Decode(['%', high, low] + rest) == [h as char] + Decode(rest)
  {
    DecodePlain('%', [high, low] + rest);
    assert ['%'] + ([high, low] + rest) == ['%', high, low] + rest && ([high, low] + rest)[2..] == rest;
    DigitIs(high, h);
    hide Decode;
    if l: nat :| DigitCounts(low, l) {
      DigitIs(low, l);
      forall m: nat | DigitCounts(low, m) ensures m == l {
      }
    } else {
      NoDigit(low);
    }
  }

  /** Encoded text consists of unreserved bytes and '%', so it holds neither separator. */
  lemma {:induction false} EncodeSafe(s: Bytes)
    ensures forall i | 0 <= i < |Encode(s)| :: Unreserved(Encode(s)[i]) || Encode(s)[i] == '%'
  {
    if s == [] {
    } else {
      EncodeSafe(s[1..]);
    }
  }

  /** How many bytes of s have to be percent-encoded. */
  function Reserved(s: Bytes): nat {
    if s == [] then 0 else (if Unreserved(s[0]) then 0 else 1) + Reserved(s[1..])
  }

  lemma {:induction false} EncodeLength(s: Bytes)
    ensures |Encode(s)| == |s| + 2 * Reserved(s)
  {
    if s == [] {
    } else {
      EncodeLength(s[1..]);
    }
  }

  // ---------- joining and splitting ----------

  function EncodePair(p: Pair): Bytes {
    Encode(p.0) + "=" + Encode(p.1)
  }

  /** The parts joined by '&'. */
  function FormBody(pairs: seq<Pair>): Bytes {
    if pairs == [] then []
    else if |pairs| == 1 then EncodePair(pairs[0])
    else EncodePair(pairs[0]) + "&" + FormBody(pairs[1..])
  }

  function SplitPair(text: Bytes): seq<Pair> {
    match Find(text, "=", 0)
    case None => []
    case Some(equals) => [(Decode(text[..equals]), Decode(text[equals + 1..]))]
  }

  /** The key-value pairs of a form body, in order; text without '=' is skipped. */
  function ParsePairs(body: Bytes): seq<Pair> {
    match Find(body, "&", 0)
    case None => SplitPair(body)
    case Some(end) => SplitPair(body[..end]) + ParsePairs(body[end + 1..])
  }

  /** Later assignments to a key win. */
  function FieldMap(pairs: seq<Pair>): map<Bytes, Bytes> {
    if pairs == [] then map[] else FieldMap(pairs[..|pairs| - 1])[pairs[|pairs| - 1].0 := pairs[|pairs| - 1].1]
  }

  lemma {:induction false} FieldMapAppend(a: seq<Pair>, b: seq<Pair>)
    ensures FieldMap(a + b) == FieldMap(a) + FieldMap(b)
  {
    if b == [] {
      assert a + b == a;
    } else {
      FieldMapAppend(a, b[..|b| - 1]);
      assert (a + b)[..|a + b| - 1] == a + b[..|b| - 1];
    }
  }

  lemma ParsePairsAt(body: Bytes, start: nat)
    requires start <= |body|
    ensures var rest := body[start..];
            match Find(rest, "&", 0)
            case None => ParsePairs(rest) == SplitPair(rest[..|rest|])
            case Some(end) => start + end < |body| && ParsePairs(rest) == SplitPair(rest[..end]) + ParsePairs(body[start + end + 1..])
  {
    hide SplitPair;
    var rest := body[start..];
    var found := Find(rest, "&", 0);
    if found.Some? {
      assert rest[found.value + 1..] == body[start + found.value + 1..];
    }
    assert rest[..|rest|] == rest;
  }

  lemma FieldMapPush(pairs: seq<Pair>, p: Pair)
    ensures FieldMap(pairs + [p]) == FieldMap(pairs)[p.0 := p.1]
  {
    assert (pairs + [p])[..|pairs|] == pairs;
  }

  /** One piece between separators: assigned when it holds '=', skipped otherwise. */
  method AddField(fields: map<Bytes, Bytes>, pair: Bytes, ghost done: seq<Pair>) returns (result: map<Bytes, Bytes>)
    requires fields == FieldMap(done)
    ensures result == FieldMap(done + SplitPair(pair))
  {
    hide Decode, FieldMap;
    var equals := Find(pair, "=", 0);
    if equals.None? {
      assert done + [] == done;
      return fields;
    }
    var key := FormDecode(pair[..equals.value]);
    var value := FormDecode(pair[equals.value + 1..]);
    FieldMapPush(done, (key, value));
    result := fields[key := value];
  }

  lemma FieldMapEmpty()
    ensures FieldMap([]) == map[]
  {
  }

  method ParseFormBody(body: Bytes) returns (fields: map<Bytes, Bytes>)
    ensures fields == FieldMap(ParsePairs(body))
  {
    hide Decode, FieldMap, ParsePairs, SplitPair, At;
    fields := map[];
    var start := 0;
    ghost var done: seq<Pair> := [];
    FieldMapEmpty();
    assert body[0..] == body;
    while start <= |body|
      invariant start <= |body| + 1
      invariant fields == FieldMap(done)
      invariant ParsePairs(body) == if start <= |body| then done + ParsePairs(body[start..]) else done
      decreases |body| + 1 - start
    {
      ParsePairsAt(body, start);
      var rest := body[start..];
      var found := Find(rest, "&", 0);
      var end := if found.Some? then found.value else |rest|;
      fields := AddField(fields, rest[..end], done);
      assert found.Some? ==> done + ParsePairs(rest) == done + SplitPair(rest[..end]) + ParsePairs(body[start + end + 1..]);
      done := done + SplitPair(rest[..end]);
      start := start + end + 1;
    }
  }

  lemma SplitEncodedPair(p: Pair)
    ensures SplitPair(EncodePair(p)) == [p]
  {
    var key, value := Encode(p.0), Encode(p.1);
    EncodeSafe(p.0);
    FindFirst(key, '=', value);
    var text := EncodePair(p);
    assert text == key + ['='] + value;
    assert text[..|key|] == key && text[|key| + 1..] == value;
    DecodeEncode(p.0);
    DecodeEncode(p.1);
  }

  lemma SplitNothing()
    ensures ParsePairs([]) == []
  {
    assert Find([], "&", 0) == None && Find([], "=", 0) == None;
  }

  lemma PairSafe(p: Pair)
    ensures '&' !in EncodePair(p)
  {
    EncodeSafe(p.0);
    EncodeSafe(p.1);
  }

  /** The listener's splitter inverts the client's joiner: every list of pairs comes back whole and in order. */
  lemma {:induction false} FormRoundTrip(pairs: seq<Pair>)
    ensures ParsePairs(FormBody(pairs)) == pairs
  {
    hide SplitPair, EncodePair;
    if pairs == [] {
      SplitNothing();
    } else {
      var first := EncodePair(pairs[0]);
      assert '&' !in first by { PairSafe(pairs[0]); }
      SplitEncodedPair(pairs[0]);
      if |pairs| == 1 {
        FindFirst(first, '&', []);
        assert FormBody(pairs) == first;
      } else {
        var rest := FormBody(pairs[1..]);
        FindFirst(first, '&', rest);
        var body := first + ['&'] + rest;
        assert FormBody(pairs) == body;
        assert body[..|first|] == first && body[|first| + 1..] == rest;
        FormRoundTrip(pairs[1..]);
      }
    }
  }

  // ---------- lookups ----------

  /** The value a form body's map holds for key. */
  function Lookup(pairs: seq<Pair>, key: Bytes): Option<Bytes> {
    if pairs == [] then None
    else if pairs[|pairs| - 1].0 == key then Some(pairs[|pairs| - 1].1)
    else Lookup(pairs[..|pairs| - 1], key)
  }

  lemma {:induction false} FieldMapLookup(pairs: seq<Pair>, key: Bytes)
    ensures Lookup(pairs, key) == if key in FieldMap(pairs) then Some(FieldMap(pairs)[key]) else None
  {
    if pairs == [] {
    } else {
      FieldMapLookup(pairs[..|pairs| - 1], key);
    }
  }

  lemma {:induction false} LookupAppend(a: seq<Pair>, b: seq<Pair>, key: Bytes)
    ensures Lookup(a + b, key) == if Lookup(b, key).Some? then Lookup(b, key) else Lookup(a, key)
  {
    if b == [] {
      assert a + b == a;
    } else {
      LookupAppend(a, b[..|b| - 1], key);
      assert (a + b)[..|a + b| - 1] == a + b[..|b| - 1];
    }
  }

  function Prefixed(prefix: Bytes, pairs: seq<Pair>): (r: seq<Pair>)
    ensures |r| == |pairs|
    ensures forall i | 0 <= i < |r| :: r[i] == (prefix + pairs[i].0, pairs[i].1)
  {
    seq(|pairs|, i requires 0 <= i < |pairs| => (prefix + pairs[i].0, pairs[i].1))
  }

  lemma {:induction false} LookupPrefixed(prefix: Bytes, pairs: seq<Pair>, key: Bytes)
    ensures Lookup(Prefixed(prefix, pairs), prefix + key) == Lookup(pairs, key)
  {
    if pairs == [] {
    } else {
      var front, last := pairs[..|pairs| - 1], pairs[|pairs| - 1];
      LookupPrefixed(prefix, front, key);
      assert Prefixed(prefix, pairs)[..|pairs| - 1] == Prefixed(prefix, front);
      assert (prefix + last.0)[|prefix|..] == last.0 && (prefix + key)[|prefix|..] == key;
    }
  }

  /** No key of the list is key: lookups miss. */
  lemma {:induction false} LookupMisses(pairs: seq<Pair>, key: Bytes)
    requires forall i | 0 <= i < |pairs| :: pairs[i].0 != key
    ensures Lookup(pairs, key) == None
  {
    if pairs == [] {
    } else {
      LookupMisses(pairs[..|pairs| - 1], key);
    }
  }

  /** Group i gets the decimal index start + i in front of its keys. */
  function Indexed(groups: seq<seq<Pair>>, start: nat): seq<Pair> {
    if groups == [] then []
    else Indexed(groups[..|groups| - 1], start) + Prefixed(ToString(start + |groups| - 1), groups[|groups| - 1])
  }

  lemma IndexedLast(groups: seq<seq<Pair>>, start: nat)
    requires groups != []
    ensures Indexed(groups, start) ==
            Indexed(groups[..|groups| - 1], start) + Prefixed(ToString(start + |groups| - 1), groups[|groups| - 1])
  {
    hide ToString, Prefixed;
  }

  lemma IndexedNone(groups: seq<seq<Pair>>, start: nat)
    requires groups == []
    ensures Indexed(groups, start) == []
  {
  }

  /** Relative keys begin with a dot, so an index ends where its key begins. */
  predicate Dotted(key: Bytes) {
    key != [] && key[0] == '.'
  }

  predicate AllDotted(pairs: seq<Pair>) {
    forall i | 0 <= i < |pairs| :: Dotted(pairs[i].0)
  }

  lemma OtherIndexMisses(group: seq<Pair>, m: nat, i: nat, key: Bytes)
    requires Dotted(key) && AllDotted(group) && i != m
    ensures Lookup(Prefixed(ToString(m), group), ToString(i) + key) == None
  {
    hide ToString, Lookup;
    var pairs := Prefixed(ToString(m), group);
    forall j | 0 <= j < |pairs| ensures pairs[j].0 != ToString(i) + key {
      if pairs[j].0 == ToString(i) + key {
        NumeralPrefix(m, group[j].0, i, key);
      }
    }
    LookupMisses(pairs, ToString(i) + key);
  }

  /** Looking up index i and a dotted key finds exactly group i's value: decimal indices do not run into each other. */
  lemma {:induction false} LookupIndexed(groups: seq<seq<Pair>>, start: nat, i: nat, key: Bytes)
    requires Dotted(key) && forall g | 0 <= g < |groups| :: AllDotted(groups[g])
    ensures Lookup(Indexed(groups, start), ToString(i) + key) ==
            if start <= i < start + |groups| then Lookup(groups[i - start], key) else None
  {
    hide ToString, Prefixed, Lookup, Indexed;
    if groups == [] {
      IndexedNone(groups, start);
      LookupMisses([], ToString(i) + key);
    } else {
      var n := |groups| - 1;
      LookupIndexed(groups[..n], start, i, key);
      IndexedLast(groups, start);
      LookupAppend(Indexed(groups[..n], start), Prefixed(ToString(start + n), groups[n]), ToString(i) + key);
      if i == start + n {
        LookupPrefixed(ToString(i), groups[n], key);
      } else {
        OtherIndexMisses(groups[n], start + n, i, key);
      }
    }
  }
}
