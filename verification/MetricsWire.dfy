/**
 * Metrics on the wire: datums become a JSON tree (src/send_metrics.cpp), the tree is flattened
 * into form fields (src/cloudwatch_client.cpp), and the listener looks the fields up again
 * (src/cloudwatch_server.cpp).
 */
module MetricsWire {
  import opened Strings
  import opened QueryCodec
  import opened JsonTrees

  // ---------- values ----------

  /** The library's text forms of timestamps and doubles, and their parsers. */
  datatype Formats = Formats(
    iso: int -> Bytes,
    number: real -> Bytes,
    parseIso: Bytes -> Option<int>,
    parseNumber: Bytes -> Double)

  // ---------- flattening ----------

  predicate EndsWith(s: Bytes, suffix: Bytes) {
    |suffix| <= |s| && s[|s| - |suffix|..] == suffix
  }

  predicate IsQueryTimestampField(prefix: Bytes) {
    prefix == "StartTime" || prefix == "EndTime" || prefix == "Timestamp" || (|prefix| > 10 && EndsWith(prefix, ".Timestamp"))
  }

  function MemberName(prefix: Bytes, key: Bytes): Bytes {
    if prefix == [] then CStr(key) else prefix + "." + CStr(key)
  }

  datatype EncodeError = UnsupportedValue | NonFiniteValue | NotAnObject

  function ScalarText(fmt: Formats, value: Json, prefix: Bytes): Result<Bytes, EncodeError>
    requires !value.Object? && !value.Array?
  {
    match value
    case String(text) => Ok(CStr(text))
    case Bool(flag) => Ok(if flag then "true" else "false")
    case Int(n) =>
      Ok(if IsQueryTimestampField(prefix) then fmt.iso(n) else if n >= 0 then ToString(n) else "-" + ToString(-n))
    case Real(Finite(r)) => Ok(fmt.number(r))
    case Real(NonFinite) => Err(NonFiniteValue)
    case Null => Err(UnsupportedValue)
  }

  function Then(first: Result<seq<Pair>, EncodeError>, second: Result<seq<Pair>, EncodeError>): Result<seq<Pair>, EncodeError> {
    if first.Err? then first else if second.Err? then second else Ok(first.value + second.value)
  }

  /** The fields a JSON value contributes, in document order. */
  function Flatten(fmt: Formats, value: Json, prefix: Bytes): Result<seq<Pair>, EncodeError>
    decreases value, 1
  {
    match value
    case Object(members) => FlattenMembers(fmt, members, prefix)
    case Array(items) => FlattenItems(fmt, items, prefix, 1)
    case _ =>
      var text := ScalarText(fmt, value, prefix);
      if text.Err? then Err(text.error) else Ok([(prefix, text.value)])
  }

  function FlattenMembers(fmt: Formats, members: seq<Member>, prefix: Bytes): Result<seq<Pair>, EncodeError>
    decreases members, 0
  {
    if members == [] then Ok([])
    else Then(Flatten(fmt, members[0].value, MemberName(prefix, members[0].key)), FlattenMembers(fmt, members[1..], prefix))
  }

  function FlattenItems(fmt: Formats, items: seq<Json>, prefix: Bytes, index: nat): Result<seq<Pair>, EncodeError>
    decreases items, 0
  {
    if items == [] then Ok([])
    else Then(Flatten(fmt, items[0], prefix + ".member." + ToString(index)), FlattenItems(fmt, items[1..], prefix, index + 1))
  }

  function EncodePairs(pairs: seq<Pair>): (r: seq<Bytes>)
    ensures |r| == |pairs| && forall i | 0 <= i < |r| :: r[i] == EncodePair(pairs[i])
  {
    seq(|pairs|, i requires 0 <= i < |pairs| => EncodePair(pairs[i]))
  }

  /** The parts after appending what a value flattens to, or its error. */
  ghost predicate Appends(r: Result<seq<Bytes>, EncodeError>, parts: seq<Bytes>, flat: Result<seq<Pair>, EncodeError>) {
    match flat
    case Ok(pairs) => r == Ok(parts + EncodePairs(pairs))
    case Err(e) => r == Err(e)
  }

  /** The recursive walk appending one encoded part per scalar. */
  method AppendQueryValue(fmt: Formats, parts: seq<Bytes>, value: Json, prefix: Bytes) returns (r: Result<seq<Bytes>, EncodeError>)
    ensures Appends(r, parts, Flatten(fmt, value, prefix))
    decreases value, 1
  {
    hide EncodePair, ScalarText;
    match value
    case Object(members) =>
      r := AppendMembers(fmt, parts, members, prefix);
    case Array(items) =>
      r := AppendItems(fmt, parts, items, prefix);
    case _ =>
      var text := ScalarText(fmt, value, prefix);
      if text.Err? {
        return Err(text.error);
      }
      assert EncodePairs([(prefix, text.value)]) == [EncodePair((prefix, text.value))];
      return Ok(parts + [EncodePair((prefix, text.value))]);
  }

  lemma ThenNothing(rest: Result<seq<Pair>, EncodeError>)
    ensures Then(Ok([]), rest) == rest
  {
    if rest.Ok? {
      assert [] + rest.value == rest.value;
    }
  }

  lemma EncodeMore(parts: seq<Bytes>, done: seq<Pair>, pairs: seq<Pair>, rest: Result<seq<Pair>, EncodeError>)
    ensures parts + EncodePairs(done) + EncodePairs(pairs) == parts + EncodePairs(done + pairs)
    ensures Then(Ok(done), Then(Ok(pairs), rest)) == Then(Ok(done + pairs), rest)
  {
    hide EncodePair;
    if rest.Ok? {
      assert done + (pairs + rest.value) == done + pairs + rest.value;
    }
  }

  /** The loop over an object's members. */
  method AppendMembers(fmt: Formats, parts: seq<Bytes>, members: seq<Member>, prefix: Bytes) returns (r: Result<seq<Bytes>, EncodeError>)
    ensures Appends(r, parts, FlattenMembers(fmt, members, prefix))
    decreases members, 0
  {
    hide Flatten, EncodePair, CStr;
    var out := parts;
    var index := 0;
    ghost var done: seq<Pair> := [];
    assert members[0..] == members;
    ThenNothing(FlattenMembers(fmt, members, prefix));
    while index < |members|
      invariant index <= |members|
      invariant out == parts + EncodePairs(done)
      invariant FlattenMembers(fmt, members, prefix) == Then(Ok(done), FlattenMembers(fmt, members[index..], prefix))
    {
      var name := MemberName(prefix, members[index].key);
      var next := AppendQueryValue(fmt, out, members[index].value, name);
      assert members[index..][1..] == members[index + 1..];
      if next.Err? {
        return next;
      }
      ghost var pairs := Flatten(fmt, members[index].value, name).value;
      EncodeMore(parts, done, pairs, FlattenMembers(fmt, members[index + 1..], prefix));
      out := next.value;
      done := done + pairs;
      index := index + 1;
    }
    assert done + [] == done;
    return Ok(out);
  }

  /** The loop over an array's items, numbered from 1. */
  method AppendItems(fmt: Formats, parts: seq<Bytes>, items: seq<Json>, prefix: Bytes) returns (r: Result<seq<Bytes>, EncodeError>)
    ensures Appends(r, parts, FlattenItems(fmt, items, prefix, 1))
    decreases items, 0
  {
    hide Flatten, EncodePair, ToString;
    var out := parts;
    var index := 0;
    ghost var done: seq<Pair> := [];
    assert items[0..] == items;
    ThenNothing(FlattenItems(fmt, items, prefix, 1));
    while index < |items|
      invariant index <= |items|
      invariant out == parts + EncodePairs(done)
      invariant FlattenItems(fmt, items, prefix, 1) == Then(Ok(done), FlattenItems(fmt, items[index..], prefix, index + 1))
    {
      var name := prefix + ".member." + ToString(index + 1);
      var next := AppendQueryValue(fmt, out, items[index], name);
      assert items[index..][1..] == items[index + 1..];
      if next.Err? {
        return next;
      }
      ghost var pairs := Flatten(fmt, items[index], name).value;
      EncodeMore(parts, done, pairs, FlattenItems(fmt, items[index + 1..], prefix, index + 2));
      out := next.value;
      done := done + pairs;
      index := index + 1;
    }
    assert done + [] == done;
    return Ok(out);
  }

  lemma {:induction false} JoinEncoded(pairs: seq<Pair>)
    ensures Join(EncodePairs(pairs), "&") == FormBody(pairs)
  {
    hide EncodePair;
    if |pairs| <= 1 {
    } else {
      JoinEncoded(pairs[1..]);
      assert EncodePairs(pairs)[1..] == EncodePairs(pairs[1..]);
    }
  }

  lemma {:induction false} EncodeUnreserved(s: Bytes)
    requires forall i | 0 <= i < |s| :: Unreserved(s[i])
    ensures Encode(s) == s && Reserved(s) == 0
  {
    if s == [] {
    } else {
      EncodeUnreserved(s[1..]);
    }
  }

  /** Every form body starts with the action and the API version. */
  function Header(action: Bytes): seq<Pair> {
    [("Action", action), ("Version", "2010-08-01")]
  }

  /** The pairs a monitoring request consists of. */
  function QueryPairs(fmt: Formats, action: Bytes, root: Json): Result<seq<Pair>, EncodeError> {
    if !root.Object? then Err(NotAnObject) else Then(Ok(Header(action)), Flatten(fmt, root, []))
  }

  lemma HeaderParts(action: Bytes)
    requires forall i | 0 <= i < |action| :: Unreserved(action[i])
    ensures EncodePair(Header(action)[0]) == "Action=" + action && EncodePair(Header(action)[1]) == "Version=2010-08-01"
  {
    hide Encode;
    EncodeUnreserved(action);
    assert Encode("Action") == "Action" by { EncodeUnreserved("Action"); }
    assert Encode("Version") == "Version" by { EncodeUnreserved("Version"); }
    assert Encode("2010-08-01") == "2010-08-01" by { EncodeUnreserved("2010-08-01"); }
    assert "Version" + "=" + "2010-08-01" == "Version=2010-08-01";
    assert "Action" + "=" == "Action=";
  }

  /** The body posted for a request: for an action name without reserved bytes, the form encoding of its pairs. */
  method BuildMonitoringQueryBody(fmt: Formats, action: Bytes, root: Json) returns (r: Result<Bytes, EncodeError>)
    requires forall i | 0 <= i < |action| :: Unreserved(action[i])
    ensures match QueryPairs(fmt, action, root)
            case Ok(pairs) => r == Ok(FormBody(pairs))
            case Err(e) => r == Err(e)
  {
    hide Flatten, Encode;
    var parts := ["Action=" + action, "Version=2010-08-01"];
    if !root.Object? {
      return Err(NotAnObject);
    }
    var all := AppendQueryValue(fmt, parts, root, []);
    if all.Err? {
      return Err(all.error);
    }
    ghost var pairs := Header(action) + Flatten(fmt, root, []).value;
    assert EncodePairs(Header(action)) == parts by {
      HeaderParts(action);
    }
    EncodeMore([], Header(action), Flatten(fmt, root, []).value, Ok([]));
    assert all.value == EncodePairs(pairs);
    JoinEncoded(pairs);
    return Ok(Join(all.value, "&"));
  }
}
