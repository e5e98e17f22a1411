/**
 * Sending metrics and querying them back: send_cloudwatch_metrics (src/send_metrics.cpp), both
 * listener handlers (src/cloudwatch_server.cpp) and the reply conversion (src/cloudwatch_client.cpp).
 */
module MetricsThenQuery {
  import opened Strings
  import opened QueryCodec
  import opened MetricsWire
  import opened MetricsListener
  import opened MetricsRoundTrip
  import opened MetricBuckets
  import opened MetricsRequest
  import MetricPoints

  /** The values of the datums, in order. */
  function SentValues(datums: seq<MetricDatum>): (r: seq<real>)
    requires MetricsRoundTrip.AllFinite(datums)
    ensures |r| == |datums|
  {
    if datums == [] then [] else SentValues(datums[..|datums| - 1]) + [datums[|datums| - 1].value.value]
  }

  lemma SelectLast(front: seq<MetricRow>, row: MetricRow, q: MetricQuery)
    ensures Select(front + [row], q) == Select(front, q) + if MetricBuckets.Matches(q, row) then [row] else []
  {
    hide MetricBuckets.Matches;
    assert (front + [row])[..|front + [row]| - 1] == front;
  }

  lemma {:induction false} SelectPast(table: seq<MetricRow>, rows: seq<MetricRow>, q: MetricQuery)
    requires Select(table, q) == []
    requires forall i | 0 <= i < |rows| :: MetricBuckets.Matches(q, rows[i])
    ensures Select(table + rows, q) == rows
  {
    hide MetricBuckets.Matches, Select;
    if rows == [] {
      assert table + rows == table;
    } else {
      var front, last := rows[..|rows| - 1], rows[|rows| - 1];
      SelectPast(table, front, q);
      SelectLast(table + front, last, q);
      assert table + rows == table + front + [last] && rows == front + [last];
    }
  }

  lemma {:induction false} SentAreStored(namespace: Bytes, datums: seq<MetricDatum>)
    requires MetricsRoundTrip.AllFinite(datums)
    ensures MetricBuckets.AllFinite(MetricsRoundTrip.RowsOf(namespace, datums))
    ensures AllValues(MetricsRoundTrip.RowsOf(namespace, datums)) == SentValues(datums)
  {
    if datums == [] {
    } else {
      var n := |datums| - 1;
      SentAreStored(namespace, datums[..n]);
      assert MetricsRoundTrip.RowsOf(namespace, datums)[..n] == MetricsRoundTrip.RowsOf(namespace, datums[..n]);
    }
  }

  /** What the listener stores from the body the sender encodes; None when either of them fails. */
  function Stored(fmt: Formats, namespace: Bytes, datums: seq<MetricDatum>, nowMs: int): Option<seq<MetricRow>> {
    var pairs := QueryPairs(fmt, "PutMetricData", BuildPutMetricDataRequest(namespace, datums));
    if pairs.Err? then None
    else
      var rows := PutMetricRows(fmt, FieldMap(ParsePairs(FormBody(pairs.value))), nowMs);
      if rows.Err? then None else Some(rows.value)
  }

  /** The series the client makes of the listener's answer to a query. */
  function Queried(reply: MetricReply.ReplyFormats, special: NonFiniteAggregate, table: seq<MetricRow>, q: MetricQuery)
    : Result<MetricReply.Converted, MetricReply.ConvertError>
    requires q.periodMs > 0
  {
    MetricReply.Convert(reply, MetricReply.ReplyText(reply, q.name, ReplyRows(special, table, q)))
  }

  /** One value per bucket, and together they conserve all. */
  ghost predicate SeriesConserves(series: MetricReply.Converted, stat: Statistic, counts: seq<nat>, all: seq<real>) {
    && series.Series? && |series.values| == |counts| > 0 && all != []
    && Conserves(stat, RealsOf(series.values), counts, all)
  }

  lemma StoredRows(fmt: Formats, namespace: Bytes, datums: seq<MetricDatum>, nowMs: int)
    requires CStr(namespace) != [] && datums != []
    requires forall i | 0 <= i < |datums| :: FormatsInvert(fmt, datums[i])
    ensures Stored(fmt, namespace, datums, nowMs) == Some(MetricsRoundTrip.RowsOf(namespace, datums))
  {
    hide QueryPairs, BuildPutMetricDataRequest, ParsePairs, FormBody, FieldMap, PutMetricRows, CStr, FormatsInvert, MetricsRoundTrip.RowOf;
    PutMetricDataRoundTrip(fmt, namespace, datums, nowMs);
  }

  lemma QueriedConserves(reply: MetricReply.ReplyFormats, special: NonFiniteAggregate, table: seq<MetricRow>, q: MetricQuery)
    requires q.periodMs > 0 && MetricBuckets.AllFinite(Select(table, q)) && Select(table, q) != []
    requires MetricReply.RowsInvert(reply, ReplyRows(special, table, q))
    ensures Queried(reply, special, table, q).Ok?
    ensures var selected := Select(table, q);
            SeriesConserves(Queried(reply, special, table, q).value, q.stat,
                            Counts(selected, q.periodMs, Starts(selected, q.periodMs)), AllValues(selected))
  {
    hide MetricReply.Convert, MetricReply.ReplyText, MetricReply.RowsInvert, ReplyRows, Conserves, Starts, Values, AllValues, Select, MetricBuckets.AllFinite;
    ClientReadsBuckets(reply, special, table, q);
  }

  /**
   * The datums of one request body, queried over a window that covers them and that held no
   * matching row before: the client's buckets conserve exactly the values that were sent.
   */
  lemma SentMetricsReadBack(
    fmt: Formats, reply: MetricReply.ReplyFormats, special: NonFiniteAggregate,
    namespace: Bytes, datums: seq<MetricDatum>, nowMs: int, table: seq<MetricRow>, q: MetricQuery)
    requires CStr(namespace) != [] && datums != [] && q.periodMs > 0
    requires forall i | 0 <= i < |datums| :: FormatsInvert(fmt, datums[i])
    requires Select(table, q) == []
    requires forall i | 0 <= i < |datums| :: MetricBuckets.Matches(q, MetricsRoundTrip.RowOf(namespace, datums[i]))
    requires MetricReply.RowsInvert(reply, ReplyRows(special, table + MetricsRoundTrip.RowsOf(namespace, datums), q))
    ensures MetricsRoundTrip.AllFinite(datums)
    ensures Stored(fmt, namespace, datums, nowMs).Some?
    ensures var rows := Stored(fmt, namespace, datums, nowMs).value;
            && MetricBuckets.AllFinite(rows)
            && Queried(reply, special, table + rows, q).Ok?
            && SeriesConserves(Queried(reply, special, table + rows, q).value, q.stat,
                               Counts(rows, q.periodMs, Starts(rows, q.periodMs)), SentValues(datums))
  {
    hide Stored, Queried, SeriesConserves, CStr, FormatsInvert, Select, ReplyRows, MetricReply.RowsInvert, Starts, Values, AllValues, SentValues,
         MetricBuckets.Matches, MetricsRoundTrip.RowOf, MetricBuckets.AllFinite;
    AllFormatsFinite(fmt, datums);
    StoredRows(fmt, namespace, datums, nowMs);
    var rows := MetricsRoundTrip.RowsOf(namespace, datums);
    SelectPast(table, rows, q);
    SentAreStored(namespace, datums);
    QueriedConserves(reply, special, table + rows, q);
  }

  // ---------- with the client's own request ----------

  /** The query the listener reads from the client's request; None when either of them fails. */
  function Asked(fmt: Formats, b: MetricsBind): Option<MetricQuery> {
    var pairs := QueryPairs(fmt, "GetMetricData", BuildGetMetricDataRequest(b));
    if pairs.Err? then None
    else
      var q := QueryOf(fmt, FieldMap(ParsePairs(FormBody(pairs.value))));
      if q.Err? then None else Some(q.value)
  }

  /** What the caller asked for: the datum's metric and dimensions, at a time in the window as it was given. */
  predicate AskedFor(b: MetricsBind, namespace: Bytes, d: MetricDatum) {
    && CStr(d.name) == CStr(b.name)
    && (CStr(b.namespace) != [] ==> CStr(namespace) == CStr(b.namespace))
    && (forall i | 0 <= i < |LeadingFilled(b.dimensions)| ::
          DimensionOf(CStrPairs(d.dimensions), LeadingFilled(b.dimensions)[i].0) == Some(LeadingFilled(b.dimensions)[i].1))
    && b.startMs < d.timestampSeconds * 1000 <= b.endMs
  }

  lemma AskedForMatches(b: MetricsBind, namespace: Bytes, d: MetricDatum)
    requires ReadAs(b).Ok? && WholeBound(b.startMs) && WholeBound(b.endMs)
    ensures MetricBuckets.Matches(ReadAs(b).value, MetricsRoundTrip.RowOf(namespace, d)) <==> AskedFor(b, namespace, d)
  {
    hide CStr, CStrPairs, LeadingFilled, DimensionOf, StatisticOf, WholeBound, TruncDiv;
    CutKeeps(b.startMs, d.timestampSeconds);
    CutKeeps(b.endMs, d.timestampSeconds);
  }

  lemma AskedIs(fmt: Formats, b: MetricsBind)
    requires b.period <= INT64_MAX && SecondInverts(fmt, TruncDiv(b.startMs, 1000)) && SecondInverts(fmt, TruncDiv(b.endMs, 1000))
    ensures Asked(fmt, b) == if ReadAs(b).Err? then None else Some(ReadAs(b).value)
  {
    hide QueryPairs, BuildGetMetricDataRequest, ParsePairs, FormBody, FieldMap, QueryOf, ReadAs, SecondInverts;
    RequestReadsBack(fmt, b);
  }

  /**
   * The metric pipeline end to end: the datums of one PutMetricData body and the GetMetricData request of
   * read_cloudwatch_metrics both go over the wire, and the buckets the client reads conserve the sent values.
   */
  lemma SentMetricsAskedBack(
    fmt: Formats, reply: MetricReply.ReplyFormats, special: NonFiniteAggregate,
    namespace: Bytes, datums: seq<MetricDatum>, nowMs: int, table: seq<MetricRow>, b: MetricsBind)
    requires CStr(namespace) != [] && datums != []
    requires CStr(b.name) != [] && 0 < b.period <= INT64_MAX && StatisticOf(CStr(b.stat)).Some?
    requires WholeBound(b.startMs) && WholeBound(b.endMs)
    requires SecondInverts(fmt, TruncDiv(b.startMs, 1000)) && SecondInverts(fmt, TruncDiv(b.endMs, 1000))
    requires forall i | 0 <= i < |datums| :: FormatsInvert(fmt, datums[i]) && AskedFor(b, namespace, datums[i])
    requires ReadAs(b).Ok? ==>
               && Select(table, ReadAs(b).value) == []
               && MetricReply.RowsInvert(reply, ReplyRows(special, table + MetricsRoundTrip.RowsOf(namespace, datums), ReadAs(b).value))
    ensures MetricsRoundTrip.AllFinite(datums)
    ensures Stored(fmt, namespace, datums, nowMs).Some? && Asked(fmt, b).Some? && Asked(fmt, b).value.periodMs > 0
    ensures var rows, q := Stored(fmt, namespace, datums, nowMs).value, Asked(fmt, b).value;
            && MetricBuckets.AllFinite(rows)
            && Queried(reply, special, table + rows, q).Ok?
            && SeriesConserves(Queried(reply, special, table + rows, q).value, q.stat,
                               Counts(rows, q.periodMs, Starts(rows, q.periodMs)), SentValues(datums))
            && MetricPoints.PointsAre(special, table + rows, q, ReplyRows(special, table + rows, q))
  {
    hide Stored, Queried, SeriesConserves, CStr, FormatsInvert, Select, ReplyRows, MetricReply.RowsInvert, Starts, SentValues, Asked, AskedFor,
         MetricBuckets.Matches, MetricsRoundTrip.RowOf, MetricBuckets.AllFinite, MetricPoints.PointsAre, LeadingFilled, StatisticOf, TruncDiv, SecondInverts, WholeBound;
    AskedIs(fmt, b);
    var q := ReadAs(b).value;
    forall i | 0 <= i < |datums| ensures MetricBuckets.Matches(q, MetricsRoundTrip.RowOf(namespace, datums[i])) {
      AskedForMatches(b, namespace, datums[i]);
    }
    SentMetricsReadBack(fmt, reply, special, namespace, datums, nowMs, table, q);
    MetricPoints.RepliedPoints(special, table + Stored(fmt, namespace, datums, nowMs).value, q);
  }
}
