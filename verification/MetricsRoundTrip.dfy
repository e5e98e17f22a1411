/**
 * send_cloudwatch_metrics (src/send_metrics.cpp) against the listener: every datum of a request
 * comes back as one row, in order, with its dimensions in order.
 */
module MetricsRoundTrip {
  import opened Strings
  import opened QueryCodec
  import opened JsonTrees
  import opened MetricsWire
  import opened MetricsListener

  datatype MetricDatum = MetricDatum(
    sourceRow: nat,
    name: Bytes,
    unit: Bytes,
    value: Double,
    timestampSeconds: int,
    dimensions: seq<Pair>)

  // ---------- the request as a JSON tree ----------

  function DimensionJson(p: Pair): Json {
    Object([Member("Name", String(p.0)), Member("Value", String(p.1))])
  }

  function DimensionsJson(dimensions: seq<Pair>): (r: seq<Json>)
    ensures |r| == |dimensions| && forall i | 0 <= i < |r| :: r[i] == DimensionJson(dimensions[i])
  {
    seq(|dimensions|, i requires 0 <= i < |dimensions| => DimensionJson(dimensions[i]))
  }

  function ScalarMembers(d: MetricDatum): seq<Member> {
    [Member("MetricName", String(d.name)), Member("Timestamp", Int(d.timestampSeconds)),
     Member("Value", Real(d.value)), Member("Unit", String(d.unit))]
  }

  function DimensionMembers(d: MetricDatum): seq<Member> {
    if d.dimensions == [] then [] else [Member("Dimensions", Array(DimensionsJson(d.dimensions)))]
  }

  function DatumJson(d: MetricDatum): Json {
    Object(ScalarMembers(d) + DimensionMembers(d))
  }

  function DatumsJson(datums: seq<MetricDatum>): (r: seq<Json>)
    ensures |r| == |datums| && forall i | 0 <= i < |r| :: r[i] == DatumJson(datums[i])
  {
    seq(|datums|, i requires 0 <= i < |datums| => DatumJson(datums[i]))
  }

  function BuildPutMetricDataRequest(namespace: Bytes, datums: seq<MetricDatum>): Json {
    Object([Member("Namespace", String(namespace)), Member("MetricData", Array(DatumsJson(datums)))])
  }

  // ---------- the fields it flattens to ----------

  function DimensionFields(p: Pair): seq<Pair> {
    [(".Name", CStr(p.0)), (".Value", CStr(p.1))]
  }

  function DimensionGroups(dimensions: seq<Pair>): (r: seq<seq<Pair>>)
    ensures |r| == |dimensions| && forall i | 0 <= i < |r| :: r[i] == DimensionFields(dimensions[i])
  {
    seq(|dimensions|, i requires 0 <= i < |dimensions| => DimensionFields(dimensions[i]))
  }

  function ScalarFields(fmt: Formats, d: MetricDatum): seq<Pair>
    requires d.value.Finite?
  {
    [(".MetricName", CStr(d.name)), (".Timestamp", fmt.iso(d.timestampSeconds)),
     (".Value", fmt.number(d.value.value)), (".Unit", CStr(d.unit))]
  }

  function DimensionPairs(d: MetricDatum): seq<Pair> {
    Prefixed(DIMENSION_KEY, Indexed(DimensionGroups(d.dimensions), 1))
  }

  /** A datum's fields, named relative to its position in the request. */
  function DatumFields(fmt: Formats, d: MetricDatum): seq<Pair>
    requires d.value.Finite?
  {
    ScalarFields(fmt, d) + DimensionPairs(d)
  }

  predicate AllFinite(datums: seq<MetricDatum>) {
    forall i | 0 <= i < |datums| :: datums[i].value.Finite?
  }

  function DatumGroups(fmt: Formats, datums: seq<MetricDatum>): (r: seq<seq<Pair>>)
    requires AllFinite(datums)
    ensures |r| == |datums| && forall i | 0 <= i < |r| :: r[i] == DatumFields(fmt, datums[i])
  {
    seq(|datums|, i requires 0 <= i < |datums| => DatumFields(fmt, datums[i]))
  }

  /** All pairs of one request body. */
  function RequestPairs(fmt: Formats, namespace: Bytes, datums: seq<MetricDatum>): seq<Pair>
    requires AllFinite(datums)
  {
    Header("PutMetricData") + [("Namespace", CStr(namespace))] + Prefixed(DATUM_KEY, Indexed(DatumGroups(fmt, datums), 1))
  }

  lemma PrefixedJoins(a: Bytes, b: Bytes, x: seq<Pair>, y: seq<Pair>)
    ensures Prefixed(a, Prefixed(b, x)) == Prefixed(a + b, x)
    ensures Prefixed(a, x + y) == Prefixed(a, x) + Prefixed(a, y)
  {
    forall i | 0 <= i < |x| ensures Prefixed(a, Prefixed(b, x))[i] == Prefixed(a + b, x)[i] {
      assert a + (b + x[i].0) == a + b + x[i].0;
    }
  }

  // ---------- flattening, one constructor at a time ----------

  /** A flattening result with the prefix put in front of its relative keys. */
  function Rebase(prefix: Bytes, r: Result<seq<Pair>, EncodeError>): Result<seq<Pair>, EncodeError> {
    if r.Err? then r else Ok(Prefixed(prefix, r.value))
  }

  lemma RebaseThen(prefix: Bytes, a: Result<seq<Pair>, EncodeError>, b: Result<seq<Pair>, EncodeError>)
    ensures Rebase(prefix, Then(a, b)) == Then(Rebase(prefix, a), Rebase(prefix, b))
  {
    if a.Ok? && b.Ok? {
      PrefixedJoins(prefix, [], a.value, b.value);
    }
  }

  lemma RebaseOne(prefix: Bytes, key: Bytes, text: Bytes)
    ensures Rebase(prefix, Ok([(key, text)])) == Ok([(prefix + key, text)])
  {
    assert Prefixed(prefix, [(key, text)]) == [(prefix + key, text)];
  }

  lemma FlattenNoMembers(fmt: Formats, prefix: Bytes)
    ensures FlattenMembers(fmt, [], prefix) == Rebase(prefix, Ok([])) == Ok([])
  {
    assert Prefixed(prefix, []) == [];
  }

  lemma FlattenMembersCons(fmt: Formats, m: Member, rest: seq<Member>, prefix: Bytes)
    ensures FlattenMembers(fmt, [m] + rest, prefix) ==
            Then(Flatten(fmt, m.value, MemberName(prefix, m.key)), FlattenMembers(fmt, rest, prefix))
  {
    assert ([m] + rest)[1..] == rest;
  }

  /** A member of a named object whose value flattens to r, followed by members that flatten to rs. */
  lemma FlattenMember(fmt: Formats, key: Bytes, value: Json, r: Result<seq<Pair>, EncodeError>,
                      rest: seq<Member>, prefix: Bytes, rs: Result<seq<Pair>, EncodeError>)
    requires prefix != [] && '\0' !in key
    requires Flatten(fmt, value, prefix + "." + key) == Rebase(prefix, r)
    requires FlattenMembers(fmt, rest, prefix) == Rebase(prefix, rs)
    ensures FlattenMembers(fmt, [Member(key, value)] + rest, prefix) == Rebase(prefix, Then(r, rs))
  {
    hide Flatten, FlattenMembers, Rebase;
    FlattenMembersCons(fmt, Member(key, value), rest, prefix);
    assert CStr(key) == key;
    RebaseThen(prefix, r, rs);
  }

  function ScalarPair(fmt: Formats, dotted: Bytes, value: Json, name: Bytes): Result<seq<Pair>, EncodeError>
    requires !value.Object? && !value.Array?
  {
    var text := ScalarText(fmt, value, name);
    if text.Err? then Err(text.error) else Ok([(dotted, text.value)])
  }

  lemma FlattenScalar(fmt: Formats, dotted: Bytes, value: Json, prefix: Bytes)
    requires !value.Object? && !value.Array?
    ensures Flatten(fmt, value, prefix + dotted) == Rebase(prefix, ScalarPair(fmt, dotted, value, prefix + dotted))
  {
    hide ScalarText;
    var text := ScalarText(fmt, value, prefix + dotted);
    if text.Ok? {
      RebaseOne(prefix, dotted, text.value);
    }
  }

  /** A scalar member contributes one pair. */
  lemma FlattenScalarMember(fmt: Formats, key: Bytes, dotted: Bytes, value: Json, rest: seq<Member>, prefix: Bytes, rs: Result<seq<Pair>, EncodeError>)
    requires prefix != [] && '\0' !in key && dotted == "." + key
    requires !value.Object? && !value.Array?
    requires FlattenMembers(fmt, rest, prefix) == Rebase(prefix, rs)
    ensures FlattenMembers(fmt, [Member(key, value)] + rest, prefix) ==
            Rebase(prefix, Then(ScalarPair(fmt, dotted, value, prefix + dotted), rs))
  {
    hide FlattenMembers, Rebase, ScalarText;
    var r := ScalarPair(fmt, dotted, value, prefix + dotted);
    assert prefix + dotted == prefix + "." + key;
    assert Flatten(fmt, value, prefix + dotted) == Rebase(prefix, r) by {
      FlattenScalar(fmt, dotted, value, prefix);
    }
    FlattenMember(fmt, key, value, r, rest, prefix, rs);
  }

  lemma FlattenArray(fmt: Formats, items: seq<Json>, prefix: Bytes)
    ensures Flatten(fmt, Array(items), prefix) == FlattenItems(fmt, items, prefix, 1)
  {
  }

  lemma FlattenObject(fmt: Formats, members: seq<Member>, prefix: Bytes)
    ensures Flatten(fmt, Object(members), prefix) == FlattenMembers(fmt, members, prefix)
  {
  }

  lemma FlattenDimension(fmt: Formats, p: Pair, prefix: Bytes)
    requires prefix != []
    ensures Flatten(fmt, DimensionJson(p), prefix) == Ok(Prefixed(prefix, DimensionFields(p)))
  {
    hide FlattenMembers, Flatten, CStr;
    FlattenNoMembers(fmt, prefix);
    var value := [Member("Value", String(p.1))] + [];
    FlattenScalarMember(fmt, "Value", ".Value", String(p.1), [], prefix, Ok([]));
    FlattenScalarMember(fmt, "Name", ".Name", String(p.0), value, prefix, Then(Ok([(".Value", CStr(p.1))]), Ok([])));
    assert DimensionJson(p) == Object([Member("Name", String(p.0))] + value);
    FlattenObject(fmt, [Member("Name", String(p.0))] + value, prefix);
    var last: seq<Pair> := [(".Value", CStr(p.1))];
    assert last + [] == last;
    assert [(".Name", CStr(p.0))] + last == DimensionFields(p);
  }

  lemma {:induction false} IndexedCons(groups: seq<seq<Pair>>, start: nat)
    requires groups != []
    ensures Indexed(groups, start) == Prefixed(ToString(start), groups[0]) + Indexed(groups[1..], start + 1)
  {
    hide Indexed, ToString, Prefixed;
    var n := |groups| - 1;
    IndexedLast(groups, start);
    if n == 0 {
      IndexedNone(groups[..n], start);
      IndexedNone(groups[1..], start + 1);
    } else {
      IndexedCons(groups[..n], start);
      IndexedLast(groups[1..], start + 1);
      assert groups[..n][1..] == groups[1..][..n - 1];
    }
  }

  /** Items that each flatten to their group, flatten together to the indexed groups. */
  lemma {:induction false} FlattenIndexed(fmt: Formats, items: seq<Json>, groups: seq<seq<Pair>>, prefix: Bytes, start: nat)
    requires |items| == |groups|
    requires forall i | 0 <= i < |items| ::
               Flatten(fmt, items[i], prefix + ".member." + ToString(start + i)) ==
               Ok(Prefixed(prefix + ".member." + ToString(start + i), groups[i]))
    ensures FlattenItems(fmt, items, prefix, start) == Ok(Prefixed(prefix + ".member.", Indexed(groups, start)))
  {
    hide Flatten, ToString;
    if items == [] {
    } else {
      var first := prefix + ".member." + ToString(start);
      assert Flatten(fmt, items[0], prefix + ".member." + ToString(start + 0)) == Ok(Prefixed(first, groups[0]));
      forall i | 0 <= i < |items| - 1
        ensures Flatten(fmt, items[1..][i], prefix + ".member." + ToString(start + 1 + i)) ==
                Ok(Prefixed(prefix + ".member." + ToString(start + 1 + i), groups[1..][i]))
      {
        assert items[1..][i] == items[i + 1] && groups[1..][i] == groups[i + 1];
        assert start + 1 + i == start + (i + 1);
      }
      FlattenIndexed(fmt, items[1..], groups[1..], prefix, start + 1);
      IndexedCons(groups, start);
      PrefixedJoins(prefix + ".member.", ToString(start), groups[0], []);
      PrefixedJoins(prefix + ".member.", [], Prefixed(ToString(start), groups[0]), Indexed(groups[1..], start + 1));
    }
  }

  lemma FlattenDimensionItems(fmt: Formats, dimensions: seq<Pair>, name: Bytes)
    ensures FlattenItems(fmt, DimensionsJson(dimensions), name, 1) ==
            Ok(Prefixed(name + ".member.", Indexed(DimensionGroups(dimensions), 1)))
  {
    hide Flatten, FlattenItems, Indexed, ToString, DimensionFields, DimensionJson;
    var groups, items := DimensionGroups(dimensions), DimensionsJson(dimensions);
    forall i | 0 <= i < |items|
      ensures Flatten(fmt, items[i], name + ".member." + ToString(1 + i)) == Ok(Prefixed(name + ".member." + ToString(1 + i), groups[i]))
    {
      FlattenDimension(fmt, dimensions[i], name + ".member." + ToString(1 + i));
    }
    FlattenIndexed(fmt, items, groups, name, 1);
  }

  lemma NoDimensions(d: MetricDatum)
    requires d.dimensions == []
    ensures DimensionPairs(d) == []
  {
  }

  lemma RebasePrefixed(a: Bytes, b: Bytes, pairs: seq<Pair>)
    ensures Rebase(a, Ok(Prefixed(b, pairs))) == Ok(Prefixed(a + b, pairs))
  {
    PrefixedJoins(a, b, pairs, []);
  }

  lemma FlattenDimensionMembers(fmt: Formats, d: MetricDatum, prefix: Bytes)
    requires prefix != []
    ensures FlattenMembers(fmt, DimensionMembers(d), prefix) == Rebase(prefix, Ok(DimensionPairs(d)))
  {
    hide FlattenMembers, Flatten, Indexed, ToString, Rebase;
    FlattenNoMembers(fmt, prefix);
    var groups, items, name := DimensionGroups(d.dimensions), DimensionsJson(d.dimensions), prefix + ".Dimensions";
    if d.dimensions == [] {
      NoDimensions(d);
    } else {
      assert name == prefix + "." + "Dimensions" && name + ".member." == prefix + DIMENSION_KEY;
      assert Flatten(fmt, Array(items), name) == Rebase(prefix, Ok(DimensionPairs(d))) by {
        FlattenDimensionItems(fmt, d.dimensions, name);
        FlattenArray(fmt, items, name);
        RebasePrefixed(prefix, DIMENSION_KEY, Indexed(groups, 1));
      }
      FlattenMember(fmt, "Dimensions", Array(items), Ok(DimensionPairs(d)), [], prefix, Ok([]));
      assert DimensionMembers(d) == [Member("Dimensions", Array(items))] + [];
      assert DimensionPairs(d) + [] == DimensionPairs(d);
    }
  }

  lemma FlattenUnit(fmt: Formats, d: MetricDatum, rest: seq<Member>, prefix: Bytes, rs: Result<seq<Pair>, EncodeError>)
    requires prefix != [] && FlattenMembers(fmt, rest, prefix) == Rebase(prefix, rs)
    ensures FlattenMembers(fmt, [Member("Unit", String(d.unit))] + rest, prefix) ==
            Rebase(prefix, Then(ScalarPair(fmt, ".Unit", String(d.unit), prefix + ".Unit"), rs))
  {
    hide FlattenMembers, Rebase, ScalarPair, Then;
    assert ".Unit" == "." + "Unit";
    FlattenScalarMember(fmt, "Unit", ".Unit", String(d.unit), rest, prefix, rs);
  }

  lemma FlattenValue(fmt: Formats, d: MetricDatum, rest: seq<Member>, prefix: Bytes, rs: Result<seq<Pair>, EncodeError>)
    requires prefix != [] && FlattenMembers(fmt, rest, prefix) == Rebase(prefix, rs)
    ensures FlattenMembers(fmt, [Member("Value", Real(d.value))] + rest, prefix) ==
            Rebase(prefix, Then(ScalarPair(fmt, ".Value", Real(d.value), prefix + ".Value"), rs))
  {
    hide FlattenMembers, Rebase, ScalarPair, Then;
    assert ".Value" == "." + "Value";
    FlattenScalarMember(fmt, "Value", ".Value", Real(d.value), rest, prefix, rs);
  }

  lemma FlattenTimestamp(fmt: Formats, d: MetricDatum, rest: seq<Member>, prefix: Bytes, rs: Result<seq<Pair>, EncodeError>)
    requires prefix != [] && FlattenMembers(fmt, rest, prefix) == Rebase(prefix, rs)
    ensures FlattenMembers(fmt, [Member("Timestamp", Int(d.timestampSeconds))] + rest, prefix) ==
            Rebase(prefix, Then(ScalarPair(fmt, ".Timestamp", Int(d.timestampSeconds), prefix + ".Timestamp"), rs))
  {
    hide FlattenMembers, Rebase, ScalarPair, Then;
    assert ".Timestamp" == "." + "Timestamp";
    FlattenScalarMember(fmt, "Timestamp", ".Timestamp", Int(d.timestampSeconds), rest, prefix, rs);
  }

  lemma FlattenMetricName(fmt: Formats, d: MetricDatum, rest: seq<Member>, prefix: Bytes, rs: Result<seq<Pair>, EncodeError>)
    requires prefix != [] && FlattenMembers(fmt, rest, prefix) == Rebase(prefix, rs)
    ensures FlattenMembers(fmt, [Member("MetricName", String(d.name))] + rest, prefix) ==
            Rebase(prefix, Then(ScalarPair(fmt, ".MetricName", String(d.name), prefix + ".MetricName"), rs))
  {
    hide FlattenMembers, Rebase, ScalarPair, Then;
    assert ".MetricName" == "." + "MetricName";
    FlattenScalarMember(fmt, "MetricName", ".MetricName", String(d.name), rest, prefix, rs);
  }

  lemma MembersOfDatum(d: MetricDatum)
    ensures DatumJson(d) ==
            Object([Member("MetricName", String(d.name))] +
                   ([Member("Timestamp", Int(d.timestampSeconds))] +
                    ([Member("Value", Real(d.value))] + ([Member("Unit", String(d.unit))] + DimensionMembers(d)))))
  {
    hide DimensionMembers;
    assert ScalarMembers(d) + DimensionMembers(d) ==
           [Member("MetricName", String(d.name))] +
           ([Member("Timestamp", Int(d.timestampSeconds))] +
            ([Member("Value", Real(d.value))] + ([Member("Unit", String(d.unit))] + DimensionMembers(d))));
  }

  lemma RebaseIs(fmt: Formats, d: MetricDatum, prefix: Bytes)
    ensures Rebase(prefix, Err(NonFiniteValue)) == Err(NonFiniteValue)
    ensures d.value.Finite? ==> Rebase(prefix, Ok(DatumFields(fmt, d))) == Ok(Prefixed(prefix, DatumFields(fmt, d)))
  {
    hide DatumFields;
  }

  lemma TimestampSuffix(prefix: Bytes)
    ensures prefix == [] || IsQueryTimestampField(prefix + ".Timestamp")
  {
  }

  /** The nested concatenation of FlattenDatum, evaluated. */
  lemma DatumPairs(fmt: Formats, d: MetricDatum, prefix: Bytes)
    requires prefix != []
    ensures Then(ScalarPair(fmt, ".MetricName", String(d.name), prefix + ".MetricName"),
                 Then(ScalarPair(fmt, ".Timestamp", Int(d.timestampSeconds), prefix + ".Timestamp"),
                      Then(ScalarPair(fmt, ".Value", Real(d.value), prefix + ".Value"),
                           Then(ScalarPair(fmt, ".Unit", String(d.unit), prefix + ".Unit"), Ok(DimensionPairs(d)))))) ==
            if d.value.Finite? then Ok(DatumFields(fmt, d)) else Err(NonFiniteValue)
  {
    hide DimensionPairs, CStr;
    TimestampSuffix(prefix);
    if d.value.Finite? {
      var unit: seq<Pair> := [(".Unit", CStr(d.unit))] + DimensionPairs(d);
      var value: seq<Pair> := [(".Value", fmt.number(d.value.value))] + unit;
      var stamp: seq<Pair> := [(".Timestamp", fmt.iso(d.timestampSeconds))] + value;
      assert [(".MetricName", CStr(d.name))] + stamp == DatumFields(fmt, d);
    }
  }

  /** A datum flattens to its fields under its prefix, or fails on a value no form can carry. */
  lemma FlattenDatum(fmt: Formats, d: MetricDatum, prefix: Bytes)
    requires prefix != []
    ensures Flatten(fmt, DatumJson(d), prefix) ==
            if d.value.Finite? then Ok(Prefixed(prefix, DatumFields(fmt, d))) else Err(NonFiniteValue)
  {
    hide FlattenMembers, Flatten, DimensionMembers, DimensionPairs, CStr, Then, ScalarPair, DatumFields, Rebase;
    var dims := Ok(DimensionPairs(d));
    FlattenDimensionMembers(fmt, d, prefix);
    var unit := [Member("Unit", String(d.unit))] + DimensionMembers(d);
    var unitPairs := Then(ScalarPair(fmt, ".Unit", String(d.unit), prefix + ".Unit"), dims);
    FlattenUnit(fmt, d, DimensionMembers(d), prefix, dims);
    var value := [Member("Value", Real(d.value))] + unit;
    var valuePairs := Then(ScalarPair(fmt, ".Value", Real(d.value), prefix + ".Value"), unitPairs);
    FlattenValue(fmt, d, unit, prefix, unitPairs);
    var stamp := [Member("Timestamp", Int(d.timestampSeconds))] + value;
    var stampPairs := Then(ScalarPair(fmt, ".Timestamp", Int(d.timestampSeconds), prefix + ".Timestamp"), valuePairs);
    FlattenTimestamp(fmt, d, value, prefix, valuePairs);
    var all := [Member("MetricName", String(d.name))] + stamp;
    FlattenMetricName(fmt, d, stamp, prefix, stampPairs);
    MembersOfDatum(d);
    FlattenObject(fmt, all, prefix);
    DatumPairs(fmt, d, prefix);
    RebaseIs(fmt, d, prefix);
  }

  lemma FlattenDatums(fmt: Formats, datums: seq<MetricDatum>)
    requires AllFinite(datums)
    ensures FlattenItems(fmt, DatumsJson(datums), "MetricData", 1) == Ok(Prefixed(DATUM_KEY, Indexed(DatumGroups(fmt, datums), 1)))
  {
    hide Flatten, DatumFields, Indexed, ToString;
    var items, groups := DatumsJson(datums), DatumGroups(fmt, datums);
    forall i | 0 <= i < |items|
      ensures Flatten(fmt, items[i], "MetricData" + ".member." + ToString(1 + i)) ==
              Ok(Prefixed("MetricData" + ".member." + ToString(1 + i), groups[i]))
    {
      FlattenDatum(fmt, datums[i], "MetricData" + ".member." + ToString(1 + i));
    }
    FlattenIndexed(fmt, items, groups, "MetricData", 1);
    assert "MetricData" + ".member." == DATUM_KEY;
  }

  lemma {:induction false} FlattenBadDatums(fmt: Formats, items: seq<Json>, datums: seq<MetricDatum>, prefix: Bytes, start: nat)
    requires prefix != [] && items == DatumsJson(datums) && !AllFinite(datums)
    ensures FlattenItems(fmt, items, prefix, start) == Err(NonFiniteValue)
  {
    hide Flatten, DatumFields, ToString, DatumJson;
    FlattenDatum(fmt, datums[0], prefix + ".member." + ToString(start));
    if datums[0].value.NonFinite? {
    } else {
      assert items[1..] == DatumsJson(datums[1..]);
      FlattenBadDatums(fmt, items[1..], datums[1..], prefix, start + 1);
    }
  }

  lemma FlattenDatumArray(fmt: Formats, datums: seq<MetricDatum>)
    ensures Flatten(fmt, Array(DatumsJson(datums)), "MetricData") ==
            if AllFinite(datums) then Ok(Prefixed(DATUM_KEY, Indexed(DatumGroups(fmt, datums), 1))) else Err(NonFiniteValue)
  {
    hide Indexed, Flatten, FlattenItems, DatumFields, DatumJson;
    FlattenArray(fmt, DatumsJson(datums), "MetricData");
    if AllFinite(datums) {
      FlattenDatums(fmt, datums);
    } else {
      FlattenBadDatums(fmt, DatumsJson(datums), datums, "MetricData", 1);
    }
  }

  lemma FlattenRootPair(fmt: Formats, first: Member, second: Member)
    requires '\0' !in first.key && '\0' !in second.key
    ensures Flatten(fmt, Object([first, second]), []) ==
            Then(Flatten(fmt, first.value, first.key), Then(Flatten(fmt, second.value, second.key), Ok([])))
  {
    assert MemberName([], first.key) == first.key && MemberName([], second.key) == second.key;
    hide FlattenMembers, Flatten, MemberName, Then;
    FlattenNoMembers(fmt, []);
    FlattenMembersCons(fmt, second, [], []);
    FlattenMembersCons(fmt, first, [second] + [], []);
    assert [first] + ([second] + []) == [first, second];
    FlattenObject(fmt, [first, second], []);
  }

  lemma QueryPairsOfRequest(fmt: Formats, namespace: Bytes, datums: seq<MetricDatum>)
    ensures QueryPairs(fmt, "PutMetricData", BuildPutMetricDataRequest(namespace, datums)) ==
            Then(Ok(Header("PutMetricData")),
                 Then(Flatten(fmt, String(namespace), "Namespace"), Then(Flatten(fmt, Array(DatumsJson(datums)), "MetricData"), Ok([]))))
  {
    hide Flatten, Header, Then, DatumsJson;
    FlattenRootPair(fmt, Member("Namespace", String(namespace)), Member("MetricData", Array(DatumsJson(datums))));
  }

  lemma FlattenText(fmt: Formats, text: Bytes, name: Bytes)
    ensures Flatten(fmt, String(text), name) == Ok([(name, CStr(text))])
  {
  }

  lemma ThenErrors(a: Result<seq<Pair>, EncodeError>, b: Result<seq<Pair>, EncodeError>, c: Result<seq<Pair>, EncodeError>)
    requires a.Ok? && b.Ok?
    ensures c.Err? ==> Then(a, Then(b, Then(c, Ok([])))) == c
  {
  }

  lemma ThenPairs(a: seq<Pair>, b: seq<Pair>, c: seq<Pair>)
    ensures Then(Ok(a), Then(Ok(b), Then(Ok(c), Ok([])))) == Ok(a + (b + (c + [])))
  {
  }

  lemma RequestJoined(fmt: Formats, namespace: Bytes, datums: seq<MetricDatum>)
    requires AllFinite(datums)
    ensures var pairs := Prefixed(DATUM_KEY, Indexed(DatumGroups(fmt, datums), 1));
            Header("PutMetricData") + ([("Namespace", CStr(namespace))] + (pairs + [])) == RequestPairs(fmt, namespace, datums)
  {
    hide Header, Indexed, CStr;
    var pairs := Prefixed(DATUM_KEY, Indexed(DatumGroups(fmt, datums), 1));
    assert pairs + [] == pairs;
  }

  /** The flattened request is its pair list; one non-finite value anywhere fails it. */
  lemma FlattenRequest(fmt: Formats, namespace: Bytes, datums: seq<MetricDatum>)
    ensures QueryPairs(fmt, "PutMetricData", BuildPutMetricDataRequest(namespace, datums)) ==
            if AllFinite(datums) then Ok(RequestPairs(fmt, namespace, datums)) else Err(NonFiniteValue)
  {
    hide CStr, Flatten, Header, Then, Indexed, DatumFields, DatumJson, QueryPairs, BuildPutMetricDataRequest;
    QueryPairsOfRequest(fmt, namespace, datums);
    FlattenText(fmt, namespace, "Namespace");
    FlattenDatumArray(fmt, datums);
    var second := Flatten(fmt, Array(DatumsJson(datums)), "MetricData");
    if AllFinite(datums) {
      RequestJoined(fmt, namespace, datums);
      ThenPairs(Header("PutMetricData"), [("Namespace", CStr(namespace))], second.value);
    } else {
      ThenErrors(Ok(Header("PutMetricData")), Flatten(fmt, String(namespace), "Namespace"), second);
    }
  }

  // ---------- looking the fields up again ----------

  /** The first byte of every key is c. */
  predicate KeysStart(pairs: seq<Pair>, at: nat, c: Byte) {
    forall i | 0 <= i < |pairs| :: at < |pairs[i].0| && pairs[i].0[at] == c
  }

  predicate KeysAvoid(pairs: seq<Pair>, at: nat, c: Byte) {
    forall i | 0 <= i < |pairs| :: at < |pairs[i].0| ==> pairs[i].0[at] != c
  }

  /** A key with byte c at position at is found only where keys have c there. */
  lemma LookupElsewhere(a: seq<Pair>, b: seq<Pair>, key: Bytes, at: nat, c: Byte)
    requires at < |key|
    ensures KeysAvoid(a, at, c) && key[at] == c ==> Lookup(a + b, key) == Lookup(b, key)
    ensures KeysStart(b, at, c) && key[at] != c ==> Lookup(a + b, key) == Lookup(a, key)
  {
    LookupAppend(a, b, key);
    if KeysAvoid(a, at, c) && key[at] == c {
      LookupMisses(a, key);
    }
    if KeysStart(b, at, c) && key[at] != c {
      LookupMisses(b, key);
    }
  }

  lemma DatumFieldsDotted(fmt: Formats, d: MetricDatum)
    requires d.value.Finite?
    ensures AllDotted(DatumFields(fmt, d)) && KeysStart(DimensionPairs(d), 1, 'D') && KeysAvoid(ScalarFields(fmt, d), 1, 'D')
  {
    hide Indexed;
    var pairs := Indexed(DimensionGroups(d.dimensions), 1);
    forall i | 0 <= i < |pairs| ensures Dotted(DIMENSION_KEY + pairs[i].0) && (DIMENSION_KEY + pairs[i].0)[1] == 'D' {
      assert (DIMENSION_KEY + pairs[i].0)[0] == DIMENSION_KEY[0] && (DIMENSION_KEY + pairs[i].0)[1] == DIMENSION_KEY[1];
    }
  }

  lemma {:induction false} LookupAt(pairs: seq<Pair>, i: nat)
    requires i < |pairs| && forall j | i < j < |pairs| :: pairs[j].0 != pairs[i].0
    ensures Lookup(pairs, pairs[i].0) == Some(pairs[i].1)
  {
    if i == |pairs| - 1 {
    } else {
      LookupAt(pairs[..|pairs| - 1], i);
    }
  }

  lemma ScalarLookups(fmt: Formats, d: MetricDatum)
    requires d.value.Finite?
    ensures Lookup(DatumFields(fmt, d), ".MetricName") == Some(CStr(d.name))
    ensures Lookup(DatumFields(fmt, d), ".Timestamp") == Some(fmt.iso(d.timestampSeconds))
    ensures Lookup(DatumFields(fmt, d), ".Value") == Some(fmt.number(d.value.value))
    ensures Lookup(DatumFields(fmt, d), ".Unit") == Some(CStr(d.unit))
  {
    hide CStr, DimensionPairs;
    DatumFieldsDotted(fmt, d);
    var scalars, dims := ScalarFields(fmt, d), DimensionPairs(d);
    LookupElsewhere(scalars, dims, ".MetricName", 1, 'D');
    LookupElsewhere(scalars, dims, ".Timestamp", 1, 'D');
    LookupElsewhere(scalars, dims, ".Value", 1, 'D');
    LookupElsewhere(scalars, dims, ".Unit", 1, 'D');
    assert scalars[0].0 == ".MetricName" && scalars[1].0 == ".Timestamp" && scalars[2].0 == ".Value" && scalars[3].0 == ".Unit";
    LookupAt(scalars, 0);
    LookupAt(scalars, 1);
    LookupAt(scalars, 2);
    LookupAt(scalars, 3);
  }

  lemma DimensionLookup(fmt: Formats, d: MetricDatum, j: nat, key: Bytes)
    requires d.value.Finite? && Dotted(key)
    ensures Lookup(DatumFields(fmt, d), DIMENSION_KEY + (ToString(j) + key)) ==
            if 1 <= j <= |d.dimensions| then Lookup(DimensionFields(d.dimensions[j - 1]), key) else None
  {
    hide ToString, Indexed, Lookup;
    DatumFieldsDotted(fmt, d);
    var full := DIMENSION_KEY + (ToString(j) + key);
    assert full[1] == DIMENSION_KEY[1] == 'D';
    LookupElsewhere(ScalarFields(fmt, d), DimensionPairs(d), full, 1, 'D');
    var groups := DimensionGroups(d.dimensions);
    LookupPrefixed(DIMENSION_KEY, Indexed(groups, 1), ToString(j) + key);
    LookupIndexed(groups, 1, j, key);
  }

  lemma DimensionFieldLookups(p: Pair)
    ensures Lookup(DimensionFields(p), ".Name") == Some(CStr(p.0)) && Lookup(DimensionFields(p), ".Value") == Some(CStr(p.1))
  {
    hide CStr;
    var pairs := DimensionFields(p);
    assert pairs[0].0 == ".Name" && pairs[1].0 == ".Value";
    LookupAt(pairs, 0);
    LookupAt(pairs, 1);
  }

  lemma DatumLookup(fmt: Formats, namespace: Bytes, datums: seq<MetricDatum>, i: nat, key: Bytes)
    requires AllFinite(datums) && Dotted(key)
    ensures Lookup(RequestPairs(fmt, namespace, datums), DATUM_KEY + (ToString(i) + key)) ==
            if 1 <= i <= |datums| then Lookup(DatumFields(fmt, datums[i - 1]), key) else None
  {
    hide ToString, Indexed, Lookup, DatumFields, CStr;
    var groups := DatumGroups(fmt, datums);
    forall g | 0 <= g < |groups| ensures AllDotted(groups[g]) {
      DatumFieldsDotted(fmt, datums[g]);
    }
    var full := DATUM_KEY + (ToString(i) + key);
    assert full[0] == DATUM_KEY[0] == 'M';
    var front := Header("PutMetricData") + [("Namespace", CStr(namespace))];
    LookupElsewhere(front, Prefixed(DATUM_KEY, Indexed(groups, 1)), full, 0, 'M');
    LookupPrefixed(DATUM_KEY, Indexed(groups, 1), ToString(i) + key);
    LookupIndexed(groups, 1, i, key);
  }

  lemma NamespaceLookup(fmt: Formats, namespace: Bytes, datums: seq<MetricDatum>)
    requires AllFinite(datums)
    ensures Lookup(RequestPairs(fmt, namespace, datums), "Namespace") == Some(CStr(namespace))
  {
    hide Indexed, DatumFields, CStr;
    var front := Header("PutMetricData") + [("Namespace", CStr(namespace))];
    var pairs := Indexed(DatumGroups(fmt, datums), 1);
    var rest := Prefixed(DATUM_KEY, pairs);
    forall i | 0 <= i < |rest| ensures 0 < |rest[i].0| && rest[i].0[0] == 'M' {
      assert rest[i].0 == DATUM_KEY + pairs[i].0 && (DATUM_KEY + pairs[i].0)[0] == DATUM_KEY[0];
    }
    LookupElsewhere(front, rest, "Namespace", 0, 'M');
    LookupAt(front, 2);
  }

  // ---------- the round trip ----------

  function CStrPair(p: Pair): Pair {
    (CStr(p.0), CStr(p.1))
  }

  function CStrPairs(pairs: seq<Pair>): (r: seq<Pair>)
    ensures |r| == |pairs| && forall i | 0 <= i < |r| :: r[i] == CStrPair(pairs[i])
  {
    seq(|pairs|, i requires 0 <= i < |pairs| => CStrPair(pairs[i]))
  }

  /** The row a datum is stored as: every string up to its first NUL, the timestamp in milliseconds. */
  function RowOf(namespace: Bytes, d: MetricDatum): MetricRow {
    MetricRow(CStr(namespace), CStr(d.name), d.timestampSeconds * 1000, d.value, CStr(d.unit), CStrPairs(d.dimensions))
  }

  /** The library's text forms of the datum's timestamp and value parse back to them. */
  predicate FormatsInvert(fmt: Formats, d: MetricDatum) {
    && d.value.Finite?
    && fmt.parseIso(fmt.iso(d.timestampSeconds)) == Some(d.timestampSeconds * 1000)
    && fmt.parseNumber(fmt.number(d.value.value)) == d.value
  }

  /** fields answers every lookup under a datum's prefix with the datum's own fields. */
  ghost predicate HoldsDatum(fields: map<Bytes, Bytes>, prefix: Bytes, own: seq<Pair>) {
    forall key | Dotted(key) ::
      Lookup(own, key) == if prefix + key in fields then Some(fields[prefix + key]) else None
  }

  lemma DimensionField(fmt: Formats, fields: map<Bytes, Bytes>, prefix: Bytes, d: MetricDatum, j: nat, key: Bytes)
    requires d.value.Finite? && HoldsDatum(fields, prefix, DatumFields(fmt, d)) && Dotted(key)
    ensures var full := DimensionPrefix(prefix, j) + key;
            (if full in fields then Some(fields[full]) else None) ==
            if 1 <= j <= |d.dimensions| then Lookup(DimensionFields(d.dimensions[j - 1]), key) else None
  {
    hide DatumFields, Lookup, ToString;
    var relative := DIMENSION_KEY + (ToString(j) + key);
    assert Dotted(relative);
    assert prefix + relative == DimensionPrefix(prefix, j) + key;
    DimensionLookup(fmt, d, j, key);
  }

  lemma {:induction false} DimensionsReadBack(fmt: Formats, fields: map<Bytes, Bytes>, prefix: Bytes, d: MetricDatum, from: nat)
    requires d.value.Finite? && HoldsDatum(fields, prefix, DatumFields(fmt, d))
    requires 1 <= from <= |d.dimensions| + 1 && HasKeys(fields, prefix + DIMENSION_KEY, ".Name", from - 1)
    ensures ReadDimensions(fields, prefix, from) == CStrPairs(d.dimensions)[from - 1..]
    decreases |d.dimensions| + 1 - from
  {
    hide DatumFields, Lookup, ToString, CStr, CStrPairs;
    DimensionField(fmt, fields, prefix, d, from, ".Name");
    DimensionField(fmt, fields, prefix, d, from, ".Value");
    if from > |d.dimensions| {
    } else {
      DimensionFieldLookups(d.dimensions[from - 1]);
      DimensionsReadBack(fmt, fields, prefix, d, from + 1);
    }
  }

  lemma DatumReadsBack(fmt: Formats, fields: map<Bytes, Bytes>, namespace: Bytes, prefix: Bytes, d: MetricDatum, nowMs: int)
    requires FormatsInvert(fmt, d) && HoldsDatum(fields, prefix, DatumFields(fmt, d))
    ensures prefix + ".MetricName" in fields
    ensures ReadDatum(fmt, fields, CStr(namespace), prefix, nowMs) == Ok(RowOf(namespace, d))
  {
    hide DatumFields, Lookup, CStr, CStrPairs, ReadDimensions;
    ScalarLookups(fmt, d);
    assert Dotted(".MetricName") && Dotted(".Timestamp") && Dotted(".Value") && Dotted(".Unit");
    DimensionsReadBack(fmt, fields, prefix, d, 1);
    assert CStrPairs(d.dimensions)[0..] == CStrPairs(d.dimensions);
  }

  /** fields is what the listener parsed from the request of these datums. */
  ghost predicate HoldsRequest(fmt: Formats, fields: map<Bytes, Bytes>, datums: seq<MetricDatum>)
    requires AllFinite(datums)
  {
    && (forall i | 1 <= i <= |datums| :: HoldsDatum(fields, DatumPrefix(i), DatumFields(fmt, datums[i - 1])))
    && DatumPrefix(|datums| + 1) + ".MetricName" !in fields
  }

  function RowsOf(namespace: Bytes, datums: seq<MetricDatum>): (r: seq<MetricRow>)
    ensures |r| == |datums| && forall i | 0 <= i < |r| :: r[i] == RowOf(namespace, datums[i])
  {
    seq(|datums|, i requires 0 <= i < |datums| => RowOf(namespace, datums[i]))
  }

  lemma {:induction false} DatumsReadBack(fmt: Formats, fields: map<Bytes, Bytes>, namespace: Bytes, datums: seq<MetricDatum>, nowMs: int, from: nat)
    requires forall i | 0 <= i < |datums| :: FormatsInvert(fmt, datums[i])
    requires AllFinite(datums) && HoldsRequest(fmt, fields, datums)
    requires 1 <= from <= |datums| + 1 && HasKeys(fields, DATUM_KEY, ".MetricName", from - 1)
    ensures ReadDatums(fmt, fields, CStr(namespace), nowMs, from) == Ok(RowsOf(namespace, datums)[from - 1..])
    decreases |datums| + 1 - from
  {
    hide DatumFields, ToString, CStr, HoldsDatum, ReadDatum, RowOf;
    if from <= |datums| {
      DatumReadsBack(fmt, fields, namespace, DatumPrefix(from), datums[from - 1], nowMs);
      DatumsReadBack(fmt, fields, namespace, datums, nowMs, from + 1);
      assert RowsOf(namespace, datums)[from - 1..] == [RowsOf(namespace, datums)[from - 1]] + RowsOf(namespace, datums)[from..];
    } else {
      assert RowsOf(namespace, datums)[from - 1..] == [];
    }
  }

  lemma RequestHolds(fmt: Formats, namespace: Bytes, datums: seq<MetricDatum>)
    requires AllFinite(datums)
    ensures HoldsRequest(fmt, FieldMap(RequestPairs(fmt, namespace, datums)), datums)
  {
    hide DatumFields, ToString, RequestPairs, FieldMap, Lookup;
    var pairs := RequestPairs(fmt, namespace, datums);
    var fields := FieldMap(pairs);
    forall i | 1 <= i <= |datums| ensures HoldsDatum(fields, DatumPrefix(i), DatumFields(fmt, datums[i - 1])) {
      forall key | Dotted(key)
        ensures Lookup(DatumFields(fmt, datums[i - 1]), key) ==
                if DatumPrefix(i) + key in fields then Some(fields[DatumPrefix(i) + key]) else None
      {
        DatumLookup(fmt, namespace, datums, i, key);
        FieldMapLookup(pairs, DatumPrefix(i) + key);
        assert DATUM_KEY + (ToString(i) + key) == DatumPrefix(i) + key;
      }
    }
    var n := |datums| + 1;
    DatumLookup(fmt, namespace, datums, n, ".MetricName");
    FieldMapLookup(pairs, DatumPrefix(n) + ".MetricName");
    assert DATUM_KEY + (ToString(n) + ".MetricName") == DatumPrefix(n) + ".MetricName";
  }

  lemma AllFormatsFinite(fmt: Formats, datums: seq<MetricDatum>)
    requires forall i | 0 <= i < |datums| :: FormatsInvert(fmt, datums[i])
    ensures AllFinite(datums)
  {
  }

  /**
   * The query-protocol round trip: for every namespace and non-empty datum list whose texts parse
   * back, the listener stores one row per datum, in order, with every dimension in order. The body
   * is the client's encoding of the request's JSON tree.
   */
  lemma PutMetricDataRoundTrip(fmt: Formats, namespace: Bytes, datums: seq<MetricDatum>, nowMs: int)
    requires CStr(namespace) != [] && datums != []
    requires forall i | 0 <= i < |datums| :: FormatsInvert(fmt, datums[i])
    ensures var pairs := QueryPairs(fmt, "PutMetricData", BuildPutMetricDataRequest(namespace, datums));
            && pairs.Ok?
            && PutMetricRows(fmt, FieldMap(ParsePairs(FormBody(pairs.value))), nowMs) == Ok(RowsOf(namespace, datums))
  {
    hide QueryPairs, BuildPutMetricDataRequest, RequestPairs, ParsePairs, FormBody, FieldMap, CStr, HoldsRequest, Lookup, FormatsInvert;
    assert AllFinite(datums) by { AllFormatsFinite(fmt, datums); }
    FlattenRequest(fmt, namespace, datums);
    var pairs := RequestPairs(fmt, namespace, datums);
    FormRoundTrip(pairs);
    RequestHolds(fmt, namespace, datums);
    NamespaceLookup(fmt, namespace, datums);
    FieldMapLookup(pairs, "Namespace");
    DatumsReadBack(fmt, FieldMap(pairs), namespace, datums, nowMs, 1);
    assert RowsOf(namespace, datums)[0..] == RowsOf(namespace, datums);
  }

  // ---------- data a client may leave out ----------

  /** A datum needs its value; without a time it gets the listener's, without a unit None; a time must be readable. */
  lemma DatumReads(fmt: Formats, fields: map<Bytes, Bytes>, namespace: Bytes, prefix: Bytes, nowMs: int)
    requires prefix + ".MetricName" in fields
    ensures var row := ReadDatum(fmt, fields, namespace, prefix, nowMs);
            && (row == Err(MissingParameter) <==> prefix + ".Value" !in fields)
            && (row == Err(InvalidParameterValue) <==>
                  && prefix + ".Value" in fields && prefix + ".Timestamp" in fields && fmt.parseIso(fields[prefix + ".Timestamp"]) == None)
            && (row.Ok? ==>
                  && row.value.namespace == namespace && row.value.name == fields[prefix + ".MetricName"]
                  && row.value.value == fmt.parseNumber(fields[prefix + ".Value"])
                  && (prefix + ".Timestamp" !in fields ==> row.value.timestampMs == nowMs)
                  && (prefix + ".Timestamp" in fields ==> fmt.parseIso(fields[prefix + ".Timestamp"]) == Some(row.value.timestampMs))
                  && (prefix + ".Unit" !in fields ==> row.value.unit == "None")
                  && (prefix + ".Unit" in fields ==> row.value.unit == fields[prefix + ".Unit"]))
  {
    hide ReadDimensions;
  }

  /** A request is refused without a namespace or without a first datum. */
  lemma RequestNeeds(fmt: Formats, fields: map<Bytes, Bytes>, nowMs: int)
    ensures "Namespace" !in fields || fields["Namespace"] == [] || DatumPrefix(1) + ".MetricName" !in fields ==>
              PutMetricRows(fmt, fields, nowMs) == Err(MissingParameter)
    ensures PutMetricRows(fmt, fields, nowMs).Ok? ==> PutMetricRows(fmt, fields, nowMs).value != []
  {
    hide ReadDatum, ToString;
  }
}
