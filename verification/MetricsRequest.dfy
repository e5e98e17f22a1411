/**
 * The request of read_cloudwatch_metrics (src/metrics_table.cpp): built as a tree, flattened to form
 * fields (src/cloudwatch_client.cpp) and read as a query by the listener (src/cloudwatch_server.cpp).
 */
module MetricsRequest {
  import opened Strings
  import opened QueryCodec
  import opened JsonTrees
  import opened MetricsWire
  import opened MetricsListener
  import opened MetricsRoundTrip
  import opened MetricBuckets

  // ---------- the request as a JSON tree ----------

  datatype MetricsBind = MetricsBind(
    namespace: Bytes,
    name: Bytes,
    dimensions: seq<Pair>,
    stat: Bytes,
    period: nat,
    unit: Bytes,
    startMs: int,
    endMs: int,
    maxDatapoints: nat,
    ascending: bool,
    token: Bytes)

  const ID: Bytes := "Id"
  const METRIC_STAT: Bytes := "MetricStat"
  const RETURN_DATA: Bytes := "ReturnData"
  const METRIC: Bytes := "Metric"
  const STAT: Bytes := "Stat"
  const PERIOD: Bytes := "Period"
  const UNIT: Bytes := "Unit"
  const NAMESPACE: Bytes := "Namespace"
  const METRIC_NAME: Bytes := "MetricName"
  const DIMENSIONS: Bytes := "Dimensions"
  const QUERY_ID: Bytes := "m1"
  const TRUE: Bytes := "true"
  const MEMBER: Bytes := ".member."
  const START_TIME: Bytes := "StartTime"
  const END_TIME: Bytes := "EndTime"
  const MAX_DATAPOINTS: Bytes := "MaxDatapoints"
  const SCAN_BY: Bytes := "ScanBy"
  const NEXT_TOKEN: Bytes := "NextToken"

  function Dot(key: Bytes): Bytes {
    "." + key
  }

  /** A text member, left out when the text is empty. */
  function Optional(key: Bytes, text: Bytes): seq<Member> {
    if text == [] then [] else [Member(key, String(text))]
  }

  function MetricMembers(b: MetricsBind): seq<Member> {
    Optional(NAMESPACE, b.namespace) +
    (Optional(METRIC_NAME, b.name) + ([Member(DIMENSIONS, Array(DimensionsJson(b.dimensions)))] + []))
  }

  function StatMembers(b: MetricsBind): seq<Member> {
    [Member(METRIC, Object(MetricMembers(b)))] +
    (Optional(STAT, b.stat) + ([Member(PERIOD, Int(b.period))] + (Optional(UNIT, b.unit) + [])))
  }

  function QueryMembers(b: MetricsBind): seq<Member> {
    [Member(ID, String(QUERY_ID))] + ([Member(METRIC_STAT, Object(StatMembers(b)))] + ([Member(RETURN_DATA, Bool(true))] + []))
  }

  function ScanOrder(b: MetricsBind): Bytes {
    if b.ascending then "TimestampAscending" else "TimestampDescending"
  }

  function WindowMembers(b: MetricsBind): seq<Member> {
    [Member(START_TIME, Int(TruncDiv(b.startMs, 1000)))] +
    ([Member(END_TIME, Int(TruncDiv(b.endMs, 1000)))] +
     ([Member(MAX_DATAPOINTS, Int(b.maxDatapoints))] + ([Member(SCAN_BY, String(ScanOrder(b)))] + Optional(NEXT_TOKEN, b.token))))
  }

  function BuildGetMetricDataRequest(b: MetricsBind): Json {
    Object([Member("MetricDataQueries", Array([Object(QueryMembers(b))]))] + WindowMembers(b))
  }

  // ---------- the fields it flattens to ----------

  function Field(key: Bytes, text: Bytes): seq<Pair> {
    if text == [] then [] else [(key, CStr(text))]
  }

  function DimensionRel(b: MetricsBind): seq<Pair> {
    Prefixed(MEMBER, Indexed(DimensionGroups(b.dimensions), 1))
  }

  function MetricRel(b: MetricsBind): seq<Pair> {
    Field(Dot(NAMESPACE), b.namespace) + (Field(Dot(METRIC_NAME), b.name) + (Prefixed(Dot(DIMENSIONS), DimensionRel(b)) + []))
  }

  function StatRel(b: MetricsBind): seq<Pair> {
    Prefixed(Dot(METRIC), MetricRel(b)) + (Field(Dot(STAT), b.stat) + ([(Dot(PERIOD), ToString(b.period))] + (Field(Dot(UNIT), b.unit) + [])))
  }

  function QueryRel(b: MetricsBind): seq<Pair> {
    [(Dot(ID), QUERY_ID)] + (Prefixed(Dot(METRIC_STAT), StatRel(b)) + ([(Dot(RETURN_DATA), TRUE)] + []))
  }

  function AfterEnd(b: MetricsBind): seq<Pair> {
    [(MAX_DATAPOINTS, ToString(b.maxDatapoints))] + ([(SCAN_BY, ScanOrder(b))] + Field(NEXT_TOKEN, b.token))
  }

  function AfterStart(fmt: Formats, b: MetricsBind): seq<Pair> {
    [(END_TIME, fmt.iso(TruncDiv(b.endMs, 1000)))] + AfterEnd(b)
  }

  function WindowPairs(fmt: Formats, b: MetricsBind): seq<Pair> {
    [(START_TIME, fmt.iso(TruncDiv(b.startMs, 1000)))] + AfterStart(fmt, b)
  }

  function QueryFields(fmt: Formats, b: MetricsBind): seq<Pair> {
    Header("GetMetricData") + (Prefixed(QUERY_KEY, QueryRel(b)) + WindowPairs(fmt, b))
  }

  /** The members under a prefix contribute these pairs, their keys relative to it. */
  predicate Flattens(fmt: Formats, members: seq<Member>, prefix: Bytes, pairs: seq<Pair>) {
    FlattenMembers(fmt, members, prefix) == Ok(Prefixed(prefix, pairs))
  }

  lemma KeysHaveNoNul()
    ensures '\0' !in ID && '\0' !in METRIC_STAT && '\0' !in RETURN_DATA && '\0' !in METRIC && '\0' !in STAT && '\0' !in PERIOD
    ensures '\0' !in UNIT && '\0' !in NAMESPACE && '\0' !in METRIC_NAME && '\0' !in DIMENSIONS && '\0' !in QUERY_ID
  {
  }

  lemma NoMembers(fmt: Formats, prefix: Bytes)
    ensures Flattens(fmt, [], prefix, [])
  {
    FlattenNoMembers(fmt, prefix);
  }

  lemma Nested(fmt: Formats, key: Bytes, value: Json, pairs: seq<Pair>, rest: seq<Member>, prefix: Bytes, more: seq<Pair>)
    requires prefix != [] && '\0' !in key
    requires Flatten(fmt, value, prefix + Dot(key)) == Ok(Prefixed(prefix + Dot(key), pairs))
    requires Flattens(fmt, rest, prefix, more)
    ensures Flattens(fmt, [Member(key, value)] + rest, prefix, Prefixed(Dot(key), pairs) + more)
  {
    hide Flatten, FlattenMembers;
    var own := Prefixed(Dot(key), pairs);
    assert prefix + "." + key == prefix + Dot(key);
    RebasePrefixed(prefix, Dot(key), pairs);
    FlattenMember(fmt, key, value, Ok(own), rest, prefix, Ok(more));
  }

  lemma OneField(fmt: Formats, key: Bytes, value: Json, text: Bytes, rest: seq<Member>, prefix: Bytes, more: seq<Pair>)
    requires prefix != [] && '\0' !in key && !value.Object? && !value.Array?
    requires ScalarText(fmt, value, prefix + Dot(key)) == Ok(text)
    requires Flattens(fmt, rest, prefix, more)
    ensures Flattens(fmt, [Member(key, value)] + rest, prefix, [(Dot(key), text)] + more)
  {
    hide FlattenMembers, ScalarText;
    assert prefix + "." + key == prefix + Dot(key);
    RebaseOne(prefix, Dot(key), text);
    FlattenMember(fmt, key, value, Ok([(Dot(key), text)]), rest, prefix, Ok(more));
  }

  lemma OptionalField(fmt: Formats, key: Bytes, text: Bytes, rest: seq<Member>, prefix: Bytes, more: seq<Pair>)
    requires prefix != [] && '\0' !in key && Flattens(fmt, rest, prefix, more)
    ensures Flattens(fmt, Optional(key, text) + rest, prefix, Field(Dot(key), text) + more)
  {
    hide Flattens, CStr;
    if text == [] {
      assert [] + rest == rest && [] + more == more;
    } else {
      OneField(fmt, key, String(text), CStr(text), rest, prefix, more);
    }
  }

  lemma FlattenMetric(fmt: Formats, b: MetricsBind, prefix: Bytes)
    requires prefix != []
    ensures Flattens(fmt, MetricMembers(b), prefix, MetricRel(b))
  {
    hide Flattens, Flatten, FlattenItems, Indexed, Optional, Field, Dot, NAMESPACE, METRIC_NAME, DIMENSIONS;
    KeysHaveNoNul();
    var name, items := prefix + Dot(DIMENSIONS), DimensionsJson(b.dimensions);
    assert Flatten(fmt, Array(items), prefix + Dot(DIMENSIONS)) == Ok(Prefixed(prefix + Dot(DIMENSIONS), DimensionRel(b))) by {
      FlattenDimensionItems(fmt, b.dimensions, name);
      FlattenArray(fmt, items, name);
      PrefixedJoins(name, ".member.", Indexed(DimensionGroups(b.dimensions), 1), []);
    }
    NoMembers(fmt, prefix);
    Nested(fmt, DIMENSIONS, Array(items), DimensionRel(b), [], prefix, []);
    var last, lastPairs := [Member(DIMENSIONS, Array(items))] + [], Prefixed(Dot(DIMENSIONS), DimensionRel(b)) + [];
    OptionalField(fmt, METRIC_NAME, b.name, last, prefix, lastPairs);
    OptionalField(fmt, NAMESPACE, b.namespace, Optional(METRIC_NAME, b.name) + last, prefix, Field(Dot(METRIC_NAME), b.name) + lastPairs);
  }

  lemma PeriodIsNoTimestamp(prefix: Bytes)
    ensures !IsQueryTimestampField(prefix + Dot(PERIOD))
  {
    var key := prefix + Dot(PERIOD);
    assert key[|key| - 1] == 'd' && ".Timestamp"[9] == 'p' && "StartTime"[8] == 'e' && "EndTime"[6] == 'e' && "Timestamp"[8] == 'p';
  }

  lemma ObjectFlattens(fmt: Formats, members: seq<Member>, prefix: Bytes, pairs: seq<Pair>)
    requires Flattens(fmt, members, prefix, pairs)
    ensures Flatten(fmt, Object(members), prefix) == Ok(Prefixed(prefix, pairs))
  {
    FlattenObject(fmt, members, prefix);
  }

  lemma FlattenStat(fmt: Formats, b: MetricsBind, prefix: Bytes)
    requires prefix != []
    ensures Flattens(fmt, StatMembers(b), prefix, StatRel(b))
  {
    assert ScalarText(fmt, Int(b.period), prefix + Dot(PERIOD)) == Ok(ToString(b.period)) by { PeriodIsNoTimestamp(prefix); }
    hide Flattens, Flatten, Optional, Field, MetricMembers, MetricRel, ScalarText, ToString, Dot, METRIC, STAT, PERIOD, UNIT;
    KeysHaveNoNul();
    NoMembers(fmt, prefix);
    OptionalField(fmt, UNIT, b.unit, [], prefix, []);
    var unit, unitPairs := Optional(UNIT, b.unit) + [], Field(Dot(UNIT), b.unit) + [];
    OneField(fmt, PERIOD, Int(b.period), ToString(b.period), unit, prefix, unitPairs);
    var period, periodPairs := [Member(PERIOD, Int(b.period))] + unit, [(Dot(PERIOD), ToString(b.period))] + unitPairs;
    OptionalField(fmt, STAT, b.stat, period, prefix, periodPairs);
    FlattenMetric(fmt, b, prefix + Dot(METRIC));
    ObjectFlattens(fmt, MetricMembers(b), prefix + Dot(METRIC), MetricRel(b));
    Nested(fmt, METRIC, Object(MetricMembers(b)), MetricRel(b), Optional(STAT, b.stat) + period, prefix, Field(Dot(STAT), b.stat) + periodPairs);
  }

  lemma FlattenQuery(fmt: Formats, b: MetricsBind, prefix: Bytes)
    requires prefix != []
    ensures Flattens(fmt, QueryMembers(b), prefix, QueryRel(b))
  {
    assert CStr(QUERY_ID) == QUERY_ID by { assert '\0' !in QUERY_ID; }
    assert ScalarText(fmt, String(QUERY_ID), prefix + Dot(ID)) == Ok(QUERY_ID);
    assert ScalarText(fmt, Bool(true), prefix + Dot(RETURN_DATA)) == Ok(TRUE);
    hide Flattens, Flatten, StatMembers, StatRel, ScalarText, CStr, Dot, ID, METRIC_STAT, RETURN_DATA, QUERY_ID, TRUE;
    KeysHaveNoNul();
    NoMembers(fmt, prefix);
    OneField(fmt, RETURN_DATA, Bool(true), TRUE, [], prefix, []);
    var last, lastPairs := [Member(RETURN_DATA, Bool(true))] + [], [(Dot(RETURN_DATA), TRUE)] + [];
    FlattenStat(fmt, b, prefix + Dot(METRIC_STAT));
    ObjectFlattens(fmt, StatMembers(b), prefix + Dot(METRIC_STAT), StatRel(b));
    Nested(fmt, METRIC_STAT, Object(StatMembers(b)), StatRel(b), last, prefix, lastPairs);
    OneField(fmt, ID, String(QUERY_ID), QUERY_ID, [Member(METRIC_STAT, Object(StatMembers(b)))] + last, prefix, Prefixed(Dot(METRIC_STAT), StatRel(b)) + lastPairs);
  }

  lemma RootField(fmt: Formats, key: Bytes, value: Json, text: Bytes, rest: seq<Member>, more: seq<Pair>)
    requires '\0' !in key && !value.Object? && !value.Array? && ScalarText(fmt, value, key) == Ok(text)
    requires FlattenMembers(fmt, rest, []) == Ok(more)
    ensures FlattenMembers(fmt, [Member(key, value)] + rest, []) == Ok([(key, text)] + more)
  {
    hide ScalarText, FlattenMembers;
    FlattenMembersCons(fmt, Member(key, value), rest, []);
  }

  lemma FlattenToken(fmt: Formats, token: Bytes)
    ensures FlattenMembers(fmt, Optional(NEXT_TOKEN, token), []) == Ok(Field(NEXT_TOKEN, token))
  {
    hide CStr;
    FlattenNoMembers(fmt, []);
    if token != [] {
      assert '\0' !in NEXT_TOKEN;
      RootField(fmt, NEXT_TOKEN, String(token), CStr(token), [], []);
      assert [Member(NEXT_TOKEN, String(token))] + [] == Optional(NEXT_TOKEN, token);
      assert [(NEXT_TOKEN, CStr(token))] + [] == Field(NEXT_TOKEN, token);
    }
  }

  lemma TimeTexts(fmt: Formats, seconds: int)
    ensures ScalarText(fmt, Int(seconds), START_TIME) == Ok(fmt.iso(seconds))
    ensures ScalarText(fmt, Int(seconds), END_TIME) == Ok(fmt.iso(seconds))
  {
    hide EndsWith, ToString;
  }

  lemma CountText(fmt: Formats, n: nat)
    ensures ScalarText(fmt, Int(n), MAX_DATAPOINTS) == Ok(ToString(n))
  {
    hide ToString;
    assert MAX_DATAPOINTS[12] == 's' && ".Timestamp"[9] == 'p';
    assert |MAX_DATAPOINTS| == 13 && |START_TIME| == 9 && |END_TIME| == 7 && |"Timestamp"| == 9;
  }

  lemma OrderText(fmt: Formats, b: MetricsBind)
    ensures ScalarText(fmt, String(ScanOrder(b)), SCAN_BY) == Ok(ScanOrder(b))
  {
    assert '\0' !in "TimestampAscending" && '\0' !in "TimestampDescending";
  }

  lemma WindowKeysHaveNoNul()
    ensures '\0' !in START_TIME && '\0' !in END_TIME && '\0' !in MAX_DATAPOINTS && '\0' !in SCAN_BY
  {
  }

  lemma FlattenWindow(fmt: Formats, b: MetricsBind)
    ensures FlattenMembers(fmt, WindowMembers(b), []) == Ok(WindowPairs(fmt, b))
  {
    var start, end := TruncDiv(b.startMs, 1000), TruncDiv(b.endMs, 1000);
    FlattenToken(fmt, b.token);
    TimeTexts(fmt, start);
    TimeTexts(fmt, end);
    CountText(fmt, b.maxDatapoints);
    OrderText(fmt, b);
    WindowKeysHaveNoNul();
    hide FlattenMembers, ScalarText, ToString, Optional, Field, ScanOrder, START_TIME, END_TIME, MAX_DATAPOINTS, SCAN_BY, NEXT_TOKEN;
    var token, tokenPairs := Optional(NEXT_TOKEN, b.token), Field(NEXT_TOKEN, b.token);
    RootField(fmt, SCAN_BY, String(ScanOrder(b)), ScanOrder(b), token, tokenPairs);
    var order, orderPairs := [Member(SCAN_BY, String(ScanOrder(b)))] + token, [(SCAN_BY, ScanOrder(b))] + tokenPairs;
    RootField(fmt, MAX_DATAPOINTS, Int(b.maxDatapoints), ToString(b.maxDatapoints), order, orderPairs);
    var count, countPairs := [Member(MAX_DATAPOINTS, Int(b.maxDatapoints))] + order, [(MAX_DATAPOINTS, ToString(b.maxDatapoints))] + orderPairs;
    RootField(fmt, END_TIME, Int(end), fmt.iso(end), count, countPairs);
    RootField(fmt, START_TIME, Int(start), fmt.iso(start), [Member(END_TIME, Int(end))] + count, [(END_TIME, fmt.iso(end))] + countPairs);
  }

  const QUERIES: Bytes := "MetricDataQueries"

  lemma OneItem(fmt: Formats, item: Json, prefix: Bytes)
    requires Flatten(fmt, item, prefix + ".member." + ToString(1)).Ok?
    ensures FlattenItems(fmt, [item], prefix, 1) == Flatten(fmt, item, prefix + ".member." + ToString(1))
  {
    hide Flatten, ToString;
    var flat := Flatten(fmt, item, prefix + ".member." + ToString(1));
    assert [item][1..] == [];
    assert FlattenItems(fmt, [], prefix, 2) == Ok([]);
    assert flat.value + [] == flat.value;
  }

  lemma FlattenQueries(fmt: Formats, b: MetricsBind)
    ensures Flatten(fmt, Array([Object(QueryMembers(b))]), QUERIES) == Ok(Prefixed(QUERY_KEY, QueryRel(b)))
  {
    assert QUERY_KEY == QUERIES + ".member." + ToString(1) by {
      assert ToString(1) == "1";
      assert "MetricDataQueries" + ".member." + "1" == "MetricDataQueries.member.1";
    }
    hide Flattens, Flatten, ToString, QueryMembers, QueryRel, QUERY_KEY, QUERIES;
    FlattenQuery(fmt, b, QUERY_KEY);
    ObjectFlattens(fmt, QueryMembers(b), QUERY_KEY, QueryRel(b));
    FlattenArray(fmt, [Object(QueryMembers(b))], QUERIES);
    OneItem(fmt, Object(QueryMembers(b)), QUERIES);
  }

  /** The request is flattened whole, its keys spelled out. */
  lemma FlattenGetRequest(fmt: Formats, b: MetricsBind)
    ensures QueryPairs(fmt, "GetMetricData", BuildGetMetricDataRequest(b)) == Ok(QueryFields(fmt, b))
  {
    hide Flatten, FlattenMembers, WindowMembers, WindowPairs, Optional, Field, QueryMembers, QueryRel, Header, QUERY_KEY;
    FlattenQueries(fmt, b);
    FlattenWindow(fmt, b);
    var rest := WindowMembers(b);
    var all := [Member("MetricDataQueries", Array([Object(QueryMembers(b))]))] + rest;
    assert MemberName([], "MetricDataQueries") == QUERIES by { assert '\0' !in "MetricDataQueries"; }
    FlattenMembersCons(fmt, Member("MetricDataQueries", Array([Object(QueryMembers(b))])), rest, []);
    FlattenObject(fmt, all, []);
  }

  // ---------- looking the fields up ----------

  /** Keys that differ in one of their first two bytes. */
  predicate Differ(x: Bytes, y: Bytes) {
    |x| >= 2 && |y| >= 2 && (x[0] != y[0] || x[1] != y[1])
  }

  predicate Apart(pairs: seq<Pair>, key: Bytes) {
    forall i | 0 <= i < |pairs| :: Differ(pairs[i].0, key)
  }

  lemma PrefixApart(prefix: Bytes, pairs: seq<Pair>, key: Bytes)
    requires Differ(prefix, key)
    ensures Apart(Prefixed(prefix, pairs), key)
  {
    forall i | 0 <= i < |pairs| ensures Differ(prefix + pairs[i].0, key) {
      assert (prefix + pairs[i].0)[0] == prefix[0] && (prefix + pairs[i].0)[1] == prefix[1];
    }
  }

  lemma DifferLonger(x: Bytes, key: Bytes, more: Bytes)
    requires Differ(x, key)
    ensures Differ(x, key + more)
  {
    assert (key + more)[0] == key[0] && (key + more)[1] == key[1];
  }

  /** Only own can hold the key. */
  lemma LookupBetween(a: seq<Pair>, own: seq<Pair>, c: seq<Pair>, key: Bytes)
    requires Apart(a, key) && Apart(c, key)
    ensures Lookup(a + (own + c), key) == Lookup(own, key)
  {
    hide Lookup;
    LookupAppend(a, own + c, key);
    LookupAppend(own, c, key);
    LookupMisses(a, key);
    LookupMisses(c, key);
  }

  lemma ApartBoth(a: seq<Pair>, b: seq<Pair>, key: Bytes)
    requires Apart(a, key) && Apart(b, key)
    ensures Apart(a + b, key)
  {
    hide Differ;
  }

  /** What the listener's accessor makes of a missing key. */
  function TextIn(pairs: seq<Pair>, key: Bytes): Bytes {
    if Lookup(pairs, key).Some? then Lookup(pairs, key).value else []
  }

  lemma FieldText(key: Bytes, text: Bytes)
    ensures TextIn(Field(key, text), key) == CStr(text)
  {
    if text != [] {
      assert Field(key, text)[..0] == [];
    }
  }

  lemma OneText(key: Bytes, text: Bytes)
    ensures TextIn([(key, text)], key) == text
  {
    assert [(key, text)][..0] == [];
  }

  lemma FieldApart(own: Bytes, text: Bytes, key: Bytes)
    requires Differ(own, key)
    ensures Apart(Field(own, text), key)
  {
  }

  lemma KeysDiffer()
    ensures Differ(Dot(ID), Dot(METRIC_STAT)) && Differ(Dot(RETURN_DATA), Dot(METRIC_STAT))
    ensures Differ(Dot(STAT), Dot(METRIC)) && Differ(Dot(PERIOD), Dot(METRIC)) && Differ(Dot(UNIT), Dot(METRIC))
    ensures Differ(Dot(METRIC), Dot(STAT)) && Differ(Dot(PERIOD), Dot(STAT)) && Differ(Dot(UNIT), Dot(STAT))
    ensures Differ(Dot(METRIC), Dot(PERIOD)) && Differ(Dot(STAT), Dot(PERIOD)) && Differ(Dot(UNIT), Dot(PERIOD))
    ensures Differ(Dot(METRIC_NAME), Dot(NAMESPACE)) && Differ(Dot(DIMENSIONS), Dot(NAMESPACE))
    ensures Differ(Dot(NAMESPACE), Dot(METRIC_NAME)) && Differ(Dot(DIMENSIONS), Dot(METRIC_NAME))
    ensures Differ(Dot(NAMESPACE), Dot(DIMENSIONS)) && Differ(Dot(METRIC_NAME), Dot(DIMENSIONS))
  {
  }

  lemma InStat(b: MetricsBind, key: Bytes)
    ensures Lookup(QueryRel(b), Dot(METRIC_STAT) + key) == Lookup(StatRel(b), key)
  {
    KeysDiffer();
    hide Lookup, StatRel, Dot, Differ, ID, METRIC_STAT, RETURN_DATA, QUERY_ID, TRUE;
    var full := Dot(METRIC_STAT) + key;
    DifferLonger(Dot(ID), Dot(METRIC_STAT), key);
    DifferLonger(Dot(RETURN_DATA), Dot(METRIC_STAT), key);
    LookupBetween([(Dot(ID), QUERY_ID)], Prefixed(Dot(METRIC_STAT), StatRel(b)), [(Dot(RETURN_DATA), TRUE)] + [], full);
    LookupPrefixed(Dot(METRIC_STAT), StatRel(b), key);
  }

  lemma InMetric(b: MetricsBind, key: Bytes)
    ensures Lookup(StatRel(b), Dot(METRIC) + key) == Lookup(MetricRel(b), key)
  {
    KeysDiffer();
    hide Lookup, MetricRel, Dot, Differ, Field, ToString, METRIC, STAT, PERIOD, UNIT;
    var full := Dot(METRIC) + key;
    DifferLonger(Dot(STAT), Dot(METRIC), key);
    DifferLonger(Dot(PERIOD), Dot(METRIC), key);
    DifferLonger(Dot(UNIT), Dot(METRIC), key);
    FieldApart(Dot(STAT), b.stat, full);
    FieldApart(Dot(UNIT), b.unit, full);
    var period := [(Dot(PERIOD), ToString(b.period))];
    ApartBoth(Field(Dot(UNIT), b.unit), [], full);
    ApartBoth(period, Field(Dot(UNIT), b.unit) + [], full);
    ApartBoth(Field(Dot(STAT), b.stat), period + (Field(Dot(UNIT), b.unit) + []), full);
    var tail := Field(Dot(STAT), b.stat) + (period + (Field(Dot(UNIT), b.unit) + []));
    LookupBetween([], Prefixed(Dot(METRIC), MetricRel(b)), tail, full);
    LookupPrefixed(Dot(METRIC), MetricRel(b), key);
    assert [] + StatRel(b) == StatRel(b);
  }

  lemma StatTexts(b: MetricsBind)
    ensures TextIn(StatRel(b), Dot(STAT)) == CStr(b.stat)
    ensures TextIn(StatRel(b), Dot(PERIOD)) == ToString(b.period)
  {
    KeysDiffer();
    FieldText(Dot(STAT), b.stat);
    OneText(Dot(PERIOD), ToString(b.period));
    hide Lookup, MetricRel, Dot, Differ, Field, ToString, METRIC, STAT, PERIOD, UNIT, CStr;
    var metric, stat, period, unit :=
      Prefixed(Dot(METRIC), MetricRel(b)), Field(Dot(STAT), b.stat), [(Dot(PERIOD), ToString(b.period))], Field(Dot(UNIT), b.unit) + [];
    PrefixApart(Dot(METRIC), MetricRel(b), Dot(STAT));
    PrefixApart(Dot(METRIC), MetricRel(b), Dot(PERIOD));
    FieldApart(Dot(UNIT), b.unit, Dot(STAT));
    FieldApart(Dot(UNIT), b.unit, Dot(PERIOD));
    FieldApart(Dot(STAT), b.stat, Dot(PERIOD));
    ApartBoth(period, unit, Dot(STAT));
    LookupBetween(metric, stat, period + unit, Dot(STAT));
    ApartBoth(metric, stat, Dot(PERIOD));
    LookupBetween(metric + stat, period, unit, Dot(PERIOD));
    assert metric + stat + (period + unit) == metric + (stat + (period + unit));
  }

  lemma MetricTexts(b: MetricsBind)
    ensures TextIn(MetricRel(b), Dot(NAMESPACE)) == CStr(b.namespace)
    ensures TextIn(MetricRel(b), Dot(METRIC_NAME)) == CStr(b.name)
  {
    KeysDiffer();
    FieldText(Dot(NAMESPACE), b.namespace);
    FieldText(Dot(METRIC_NAME), b.name);
    hide Lookup, DimensionRel, Dot, Differ, Field, NAMESPACE, METRIC_NAME, DIMENSIONS, CStr;
    var namespace, name, dimensions :=
      Field(Dot(NAMESPACE), b.namespace), Field(Dot(METRIC_NAME), b.name), Prefixed(Dot(DIMENSIONS), DimensionRel(b));
    PrefixApart(Dot(DIMENSIONS), DimensionRel(b), Dot(NAMESPACE));
    PrefixApart(Dot(DIMENSIONS), DimensionRel(b), Dot(METRIC_NAME));
    FieldApart(Dot(METRIC_NAME), b.name, Dot(NAMESPACE));
    FieldApart(Dot(NAMESPACE), b.namespace, Dot(METRIC_NAME));
    ApartBoth(name, dimensions + [], Dot(NAMESPACE));
    LookupBetween([], namespace, name + (dimensions + []), Dot(NAMESPACE));
    LookupBetween(namespace, name, dimensions + [], Dot(METRIC_NAME));
    assert [] + MetricRel(b) == MetricRel(b);
  }

  lemma InDimensions(b: MetricsBind, key: Bytes)
    ensures Lookup(MetricRel(b), Dot(DIMENSIONS) + key) == Lookup(DimensionRel(b), key)
  {
    KeysDiffer();
    hide Lookup, DimensionRel, Dot, Differ, Field, NAMESPACE, METRIC_NAME, DIMENSIONS, CStr;
    var full := Dot(DIMENSIONS) + key;
    var namespace, name, dimensions :=
      Field(Dot(NAMESPACE), b.namespace), Field(Dot(METRIC_NAME), b.name), Prefixed(Dot(DIMENSIONS), DimensionRel(b));
    DifferLonger(Dot(NAMESPACE), Dot(DIMENSIONS), key);
    DifferLonger(Dot(METRIC_NAME), Dot(DIMENSIONS), key);
    FieldApart(Dot(NAMESPACE), b.namespace, full);
    FieldApart(Dot(METRIC_NAME), b.name, full);
    ApartBoth(namespace, name, full);
    LookupBetween(namespace + name, dimensions, [], full);
    LookupPrefixed(Dot(DIMENSIONS), DimensionRel(b), key);
    assert namespace + name + (dimensions + []) == namespace + (name + (dimensions + []));
  }

  lemma RootKeysDiffer()
    ensures Differ("Action", QUERY_KEY) && Differ("Version", QUERY_KEY)
    ensures Differ(START_TIME, QUERY_KEY) && Differ(END_TIME, QUERY_KEY) && Differ(MAX_DATAPOINTS, QUERY_KEY)
    ensures Differ(SCAN_BY, QUERY_KEY) && Differ(NEXT_TOKEN, QUERY_KEY)
    ensures Differ(QUERY_KEY, START_TIME) && Differ(END_TIME, START_TIME) && Differ(MAX_DATAPOINTS, START_TIME)
    ensures Differ(SCAN_BY, START_TIME) && Differ(NEXT_TOKEN, START_TIME)
    ensures Differ(QUERY_KEY, END_TIME) && Differ(START_TIME, END_TIME) && Differ(MAX_DATAPOINTS, END_TIME)
    ensures Differ(SCAN_BY, END_TIME) && Differ(NEXT_TOKEN, END_TIME)
  {
  }

  lemma HeaderApart(key: Bytes)
    requires Differ("Action", key) && Differ("Version", key)
    ensures Apart(Header("GetMetricData"), key)
  {
    hide Differ;
  }

  lemma HeaderApartFromWindow()
    ensures Apart(Header("GetMetricData"), START_TIME) && Apart(Header("GetMetricData"), END_TIME)
  {
  }

  lemma AfterEndApart(b: MetricsBind, key: Bytes)
    requires Differ(MAX_DATAPOINTS, key) && Differ(SCAN_BY, key) && Differ(NEXT_TOKEN, key)
    ensures Apart(AfterEnd(b), key)
  {
    FieldApart(NEXT_TOKEN, b.token, key);
    hide Differ, ToString, ScanOrder, Field, MAX_DATAPOINTS, SCAN_BY, NEXT_TOKEN;
  }

  lemma AfterStartApart(fmt: Formats, b: MetricsBind, key: Bytes)
    requires Differ(END_TIME, key) && Differ(MAX_DATAPOINTS, key) && Differ(SCAN_BY, key) && Differ(NEXT_TOKEN, key)
    ensures Apart(AfterStart(fmt, b), key)
  {
    AfterEndApart(b, key);
    hide Differ, AfterEnd, END_TIME;
  }

  lemma WindowApart(fmt: Formats, b: MetricsBind, key: Bytes)
    requires Differ(START_TIME, key) && Differ(END_TIME, key) && Differ(MAX_DATAPOINTS, key) && Differ(SCAN_BY, key) && Differ(NEXT_TOKEN, key)
    ensures Apart(WindowPairs(fmt, b), key)
  {
    AfterStartApart(fmt, b, key);
    hide Differ, AfterStart, START_TIME;
  }

  lemma InQuery(fmt: Formats, b: MetricsBind, key: Bytes)
    ensures Lookup(QueryFields(fmt, b), QUERY_KEY + key) == Lookup(QueryRel(b), key)
  {
    RootKeysDiffer();
    hide Differ, Lookup, WindowPairs, QueryRel, Header, QUERY_KEY, START_TIME, END_TIME, MAX_DATAPOINTS, SCAN_BY, NEXT_TOKEN;
    DifferLonger("Action", QUERY_KEY, key);
    DifferLonger("Version", QUERY_KEY, key);
    DifferLonger(START_TIME, QUERY_KEY, key);
    DifferLonger(END_TIME, QUERY_KEY, key);
    DifferLonger(MAX_DATAPOINTS, QUERY_KEY, key);
    DifferLonger(SCAN_BY, QUERY_KEY, key);
    DifferLonger(NEXT_TOKEN, QUERY_KEY, key);
    HeaderApart(QUERY_KEY + key);
    WindowApart(fmt, b, QUERY_KEY + key);
    LookupBetween(Header("GetMetricData"), Prefixed(QUERY_KEY, QueryRel(b)), WindowPairs(fmt, b), QUERY_KEY + key);
    LookupPrefixed(QUERY_KEY, QueryRel(b), key);
  }

  lemma StartText(fmt: Formats, b: MetricsBind)
    ensures TextIn(QueryFields(fmt, b), START_TIME) == fmt.iso(TruncDiv(b.startMs, 1000))
  {
    RootKeysDiffer();
    HeaderApartFromWindow();
    hide Differ, Lookup, QueryRel, Header, AfterStart, QUERY_KEY, START_TIME, END_TIME, MAX_DATAPOINTS, SCAN_BY, NEXT_TOKEN;
    var header, query, own := Header("GetMetricData"), Prefixed(QUERY_KEY, QueryRel(b)), [(START_TIME, fmt.iso(TruncDiv(b.startMs, 1000)))];
    PrefixApart(QUERY_KEY, QueryRel(b), START_TIME);
    AfterStartApart(fmt, b, START_TIME);
    ApartBoth(header, query, START_TIME);
    OneText(START_TIME, own[0].1);
    LookupBetween(header + query, own, AfterStart(fmt, b), START_TIME);
    assert header + query + WindowPairs(fmt, b) == QueryFields(fmt, b);
  }

  lemma EndText(fmt: Formats, b: MetricsBind)
    ensures TextIn(QueryFields(fmt, b), END_TIME) == fmt.iso(TruncDiv(b.endMs, 1000))
  {
    RootKeysDiffer();
    HeaderApartFromWindow();
    hide Differ, Lookup, QueryRel, Header, AfterEnd, QUERY_KEY, START_TIME, END_TIME, MAX_DATAPOINTS, SCAN_BY, NEXT_TOKEN;
    var header, query := Header("GetMetricData"), Prefixed(QUERY_KEY, QueryRel(b));
    var start, own := [(START_TIME, fmt.iso(TruncDiv(b.startMs, 1000)))], [(END_TIME, fmt.iso(TruncDiv(b.endMs, 1000)))];
    PrefixApart(QUERY_KEY, QueryRel(b), END_TIME);
    AfterEndApart(b, END_TIME);
    ApartBoth(header, query, END_TIME);
    ApartBoth(header + query, start, END_TIME);
    OneText(END_TIME, own[0].1);
    LookupBetween(header + query + start, own, AfterEnd(b), END_TIME);
    assert header + query + start + AfterStart(fmt, b) == QueryFields(fmt, b);
  }

  // ---------- the listener reads the query back ----------

  lemma GetIsText(pairs: seq<Pair>, key: Bytes)
    ensures Get(FieldMap(pairs), key) == TextIn(pairs, key)
  {
    FieldMapLookup(pairs, key);
  }

  lemma MetricKeys()
    ensures Dot(METRIC) + Dot(METRIC_NAME) == ".Metric.MetricName"
    ensures Dot(METRIC) + Dot(NAMESPACE) == ".Metric.Namespace"
  {
  }

  lemma MemberKey()
    ensures Dot(METRIC) + (Dot(DIMENSIONS) + MEMBER) == ".Metric.Dimensions.member."
  {
    assert Dot(DIMENSIONS) + MEMBER == ".Dimensions.member.";
    hide DIMENSIONS, MEMBER;
  }

  lemma NameKey()
    ensures QUERY_KEY + ".MetricStat.Metric.MetricName" == QUERY_KEY + (Dot(METRIC_STAT) + (Dot(METRIC) + Dot(METRIC_NAME)))
  {
    MetricKeys();
    hide QUERY_KEY, METRIC, METRIC_NAME, NAMESPACE, DIMENSIONS, MEMBER;
    assert Dot(METRIC_STAT) + ".Metric.MetricName" == ".MetricStat.Metric.MetricName";
  }

  lemma NamespaceKey()
    ensures QUERY_KEY + ".MetricStat.Metric.Namespace" == QUERY_KEY + (Dot(METRIC_STAT) + (Dot(METRIC) + Dot(NAMESPACE)))
  {
    MetricKeys();
    hide QUERY_KEY, METRIC, METRIC_NAME, NAMESPACE, DIMENSIONS, MEMBER;
    assert Dot(METRIC_STAT) + ".Metric.Namespace" == ".MetricStat.Metric.Namespace";
  }

  lemma StatKeys()
    ensures QUERY_KEY + ".MetricStat.Stat" == QUERY_KEY + (Dot(METRIC_STAT) + Dot(STAT))
    ensures QUERY_KEY + ".MetricStat.Period" == QUERY_KEY + (Dot(METRIC_STAT) + Dot(PERIOD))
  {
    hide QUERY_KEY;
    assert Dot(METRIC_STAT) + Dot(STAT) == ".MetricStat.Stat";
    assert Dot(METRIC_STAT) + Dot(PERIOD) == ".MetricStat.Period";
  }

  lemma DimensionKey()
    ensures QUERY_DIMENSION == QUERY_KEY + (Dot(METRIC_STAT) + (Dot(METRIC) + (Dot(DIMENSIONS) + MEMBER)))
  {
    MemberKey();
    hide QUERY_KEY, METRIC, DIMENSIONS, MEMBER;
    assert Dot(METRIC_STAT) + ".Metric.Dimensions.member." == ".MetricStat.Metric.Dimensions.member.";
  }

  lemma NameTexts(fmt: Formats, b: MetricsBind)
    ensures var fields := FieldMap(QueryFields(fmt, b));
            && Get(fields, QUERY_KEY + ".MetricStat.Metric.MetricName") == CStr(b.name)
            && Get(fields, QUERY_KEY + ".MetricStat.Metric.Namespace") == CStr(b.namespace)
  {
    NameKey();
    NamespaceKey();
    hide QueryFields, QueryRel, StatRel, MetricRel, FieldMap, Get, Lookup, Dot, CStr, QUERY_KEY, METRIC_STAT, METRIC, METRIC_NAME, NAMESPACE;
    var name, namespace := Dot(METRIC) + Dot(METRIC_NAME), Dot(METRIC) + Dot(NAMESPACE);
    GetIsText(QueryFields(fmt, b), QUERY_KEY + (Dot(METRIC_STAT) + name));
    GetIsText(QueryFields(fmt, b), QUERY_KEY + (Dot(METRIC_STAT) + namespace));
    InQuery(fmt, b, Dot(METRIC_STAT) + name);
    InQuery(fmt, b, Dot(METRIC_STAT) + namespace);
    InStat(b, name);
    InStat(b, namespace);
    InMetric(b, Dot(METRIC_NAME));
    InMetric(b, Dot(NAMESPACE));
    MetricTexts(b);
  }

  lemma StatisticTexts(fmt: Formats, b: MetricsBind)
    ensures var fields := FieldMap(QueryFields(fmt, b));
            && Get(fields, QUERY_KEY + ".MetricStat.Stat") == CStr(b.stat)
            && Get(fields, QUERY_KEY + ".MetricStat.Period") == ToString(b.period)
  {
    StatKeys();
    hide QueryFields, QueryRel, StatRel, FieldMap, Get, Lookup, Dot, CStr, ToString, QUERY_KEY, METRIC_STAT, STAT, PERIOD;
    GetIsText(QueryFields(fmt, b), QUERY_KEY + (Dot(METRIC_STAT) + Dot(STAT)));
    GetIsText(QueryFields(fmt, b), QUERY_KEY + (Dot(METRIC_STAT) + Dot(PERIOD)));
    InQuery(fmt, b, Dot(METRIC_STAT) + Dot(STAT));
    InQuery(fmt, b, Dot(METRIC_STAT) + Dot(PERIOD));
    InStat(b, Dot(STAT));
    InStat(b, Dot(PERIOD));
    StatTexts(b);
  }

  lemma RegroupKey(a: Bytes, b: Bytes, c: Bytes, d: Bytes, e: Bytes, f: Bytes, g: Bytes)
    ensures a + (b + (c + (d + e))) + f + g == a + (b + (c + (d + (e + (f + g)))))
  {
  }

  lemma DimensionInRel(b: MetricsBind, d: nat, key: Bytes)
    requires Dotted(key)
    ensures Lookup(DimensionRel(b), MEMBER + (ToString(d) + key)) ==
            if 1 <= d <= |b.dimensions| then Lookup(DimensionFields(b.dimensions[d - 1]), key) else None
  {
    var groups := DimensionGroups(b.dimensions);
    assert forall g | 0 <= g < |groups| :: AllDotted(groups[g]);
    hide Lookup, ToString, Indexed, DimensionFields, AllDotted, MEMBER;
    LookupPrefixed(MEMBER, Indexed(groups, 1), ToString(d) + key);
    LookupIndexed(groups, 1, d, key);
  }

  /** A dimension's field is found under its number, and nothing behind the last one. */
  lemma DimensionText(fmt: Formats, b: MetricsBind, d: nat, key: Bytes)
    requires Dotted(key)
    ensures Lookup(QueryFields(fmt, b), QUERY_DIMENSION + ToString(d) + key) ==
            if 1 <= d <= |b.dimensions| then Lookup(DimensionFields(b.dimensions[d - 1]), key) else None
  {
    DimensionKey();
    hide QueryFields, QueryRel, StatRel, MetricRel, DimensionRel, Lookup, Dot, ToString, Dotted, DimensionFields,
         QUERY_KEY, QUERY_DIMENSION, METRIC_STAT, METRIC, DIMENSIONS, MEMBER;
    var inner := MEMBER + (ToString(d) + key);
    var metric := Dot(DIMENSIONS) + inner;
    RegroupKey(QUERY_KEY, Dot(METRIC_STAT), Dot(METRIC), Dot(DIMENSIONS), MEMBER, ToString(d), key);
    InQuery(fmt, b, Dot(METRIC_STAT) + (Dot(METRIC) + metric));
    InStat(b, Dot(METRIC) + metric);
    InMetric(b, metric);
    InDimensions(b, inner);
    DimensionInRel(b, d, key);
  }

  /** The dimensions up to the first whose name or value is empty where it is cut at a NUL. */
  function LeadingFilled(dimensions: seq<Pair>): seq<Pair> {
    if dimensions == [] || CStr(dimensions[0].0) == [] || CStr(dimensions[0].1) == [] then []
    else [CStrPair(dimensions[0])] + LeadingFilled(dimensions[1..])
  }

  lemma DimensionTexts(fmt: Formats, b: MetricsBind, d: nat)
    requires d >= 1
    ensures var fields := FieldMap(QueryFields(fmt, b));
            var name, value := Get(fields, QUERY_DIMENSION + ToString(d) + ".Name"), Get(fields, QUERY_DIMENSION + ToString(d) + ".Value");
            if d > |b.dimensions| then name == []
            else name == CStr(b.dimensions[d - 1].0) && value == CStr(b.dimensions[d - 1].1)
  {
    hide QueryFields, Lookup, FieldMap, Get, ToString, CStr, DimensionFields, QUERY_DIMENSION;
    GetIsText(QueryFields(fmt, b), QUERY_DIMENSION + ToString(d) + ".Name");
    GetIsText(QueryFields(fmt, b), QUERY_DIMENSION + ToString(d) + ".Value");
    DimensionText(fmt, b, d, ".Name");
    DimensionText(fmt, b, d, ".Value");
    if d <= |b.dimensions| {
      DimensionFieldLookups(b.dimensions[d - 1]);
    }
  }

  lemma {:induction false} QueryDimensionsRead(fmt: Formats, b: MetricsBind, d: nat)
    requires 1 <= d <= |b.dimensions| + 1 && HasKeys(FieldMap(QueryFields(fmt, b)), QUERY_DIMENSION, ".Name", d - 1)
    ensures QueryDimensions(FieldMap(QueryFields(fmt, b)), d) == LeadingFilled(b.dimensions[d - 1..])
    decreases |b.dimensions| + 1 - d
  {
    hide QueryFields, FieldMap, ToString, CStr, QUERY_DIMENSION;
    DimensionTexts(fmt, b, d);
    if d > |b.dimensions| {
      assert b.dimensions[d - 1..] == [];
    } else {
      var name, value := CStr(b.dimensions[d - 1].0), CStr(b.dimensions[d - 1].1);
      assert b.dimensions[d - 1..][0] == b.dimensions[d - 1] && b.dimensions[d - 1..][1..] == b.dimensions[d..];
      if name != [] && value != [] {
        QueryDimensionsRead(fmt, b, d + 1);
      }
    }
  }

  lemma PeriodReadsBack(n: nat)
    requires n <= INT64_MAX
    ensures PeriodOf(ToString(n)) == n
  {
    LeadingDigitsAll(ToString(n));
    DecimalRoundTrip(n);
    assert IsDigit(ToString(n)[0]);
  }

  /** The query the listener reads from the request, or its complaint. */
  function ReadAs(b: MetricsBind): Result<MetricQuery, MetricError> {
    if CStr(b.name) == [] then Err(MissingParameter)
    else if b.period == 0 then Err(InvalidParameterValue)
    else match StatisticOf(CStr(b.stat))
      case None => Err(InvalidParameterValue)
      case Some(stat) =>
        Ok(MetricQuery(CStr(b.name), CStr(b.namespace), LeadingFilled(b.dimensions),
                       TruncDiv(b.startMs, 1000) * 1000, TruncDiv(b.endMs, 1000) * 1000, b.period * 1000, stat))
  }

  /** The library's text form of a whole second parses back to it. */
  predicate SecondInverts(fmt: Formats, seconds: int) {
    fmt.parseIso(fmt.iso(seconds)) == Some(seconds * 1000)
  }

  lemma QueryReads(fmt: Formats, b: MetricsBind)
    requires b.period <= INT64_MAX && SecondInverts(fmt, TruncDiv(b.startMs, 1000)) && SecondInverts(fmt, TruncDiv(b.endMs, 1000))
    ensures QueryOf(fmt, FieldMap(QueryFields(fmt, b))) == ReadAs(b)
  {
    NameTexts(fmt, b);
    StatisticTexts(fmt, b);
    PeriodReadsBack(b.period);
    QueryDimensionsRead(fmt, b, 1);
    assert b.dimensions[0..] == b.dimensions;
    StartText(fmt, b);
    EndText(fmt, b);
    GetIsText(QueryFields(fmt, b), START_TIME);
    GetIsText(QueryFields(fmt, b), END_TIME);
    hide QueryFields, FieldMap, Get, Lookup, TextIn, ToString, CStr, StatisticOf, QueryDimensions, LeadingFilled, PeriodOf, QUERY_KEY;
  }

  /**
   * The client's request, flattened, encoded, joined, split and looked up, is the query the client was
   * bound to: its dimensions in order, its window cut to whole seconds.
   */
  lemma RequestReadsBack(fmt: Formats, b: MetricsBind)
    requires b.period <= INT64_MAX && SecondInverts(fmt, TruncDiv(b.startMs, 1000)) && SecondInverts(fmt, TruncDiv(b.endMs, 1000))
    ensures var pairs := QueryPairs(fmt, "GetMetricData", BuildGetMetricDataRequest(b));
            pairs.Ok? && QueryOf(fmt, FieldMap(ParsePairs(FormBody(pairs.value)))) == ReadAs(b)
  {
    hide QueryPairs, BuildGetMetricDataRequest, QueryFields, ParsePairs, FormBody, FieldMap, QueryOf, ReadAs, SecondInverts;
    FlattenGetRequest(fmt, b);
    FormRoundTrip(QueryFields(fmt, b));
    QueryReads(fmt, b);
  }

  /** The bound of a window is not negative, or a whole second. */
  predicate WholeBound(bound: int) {
    bound >= 0 || bound % 1000 == 0
  }

  lemma CutKeeps(bound: int, t: int)
    requires WholeBound(bound)
    ensures t * 1000 <= bound <==> t * 1000 <= TruncDiv(bound, 1000) * 1000
  {
    var cut := TruncDiv(bound, 1000);
    assert cut * 1000 <= bound < cut * 1000 + 1000;
  }

  /**
   * Cutting a bound to whole seconds changes nothing for timestamps in whole seconds exactly when the bound
   * is not negative or is whole itself: the division truncates toward zero.
   */
  lemma WholeSecondsExactly(bound: int)
    ensures (forall t :: t * 1000 <= bound <==> t * 1000 <= TruncDiv(bound, 1000) * 1000) <==> WholeBound(bound)
  {
    var cut := TruncDiv(bound, 1000);
    if WholeBound(bound) {
      forall t ensures t * 1000 <= bound <==> t * 1000 <= cut * 1000 {
        CutKeeps(bound, t);
      }
    } else {
      assert cut * 1000 > bound;
    }
  }
}
