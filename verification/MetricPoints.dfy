/**
 * Which rows each point of a GetMetricData reply aggregates (src/cloudwatch_server.cpp), in terms of
 * times and periods, and that the client reads these points (src/cloudwatch_client.cpp).
 */
module MetricPoints {
  import opened Strings
  import opened QueryCodec
  import opened JsonTrees
  import opened MetricsListener
  import opened MetricBuckets

  // ---------- times and periods ----------

  /** The times a bucket covers: a period from its start on, mirrored before the epoch, and both around it. */
  predicate Covered(t: int, bucket: int, periodMs: int) {
    if bucket > 0 then bucket <= t < bucket + periodMs
    else if bucket < 0 then bucket - periodMs < t <= bucket
    else -periodMs < t < periodMs
  }

  lemma ProductsKeepOrder(a: int, b: int, p: nat)
    ensures a <= b ==> a * p <= b * p
    ensures (a + 1) * p == a * p + p
  {
    if a <= b {
      assert (b - a) * p >= 0;
      assert b * p - a * p == (b - a) * p;
    }
  }

  /** There is one quotient. */
  lemma QuotientIs(t: nat, p: nat, m: nat)
    requires p > 0
    ensures t / p == m <==> m * p <= t < m * p + p
  {
    var d := t / p;
    assert t == d * p + t % p;
    ProductsKeepOrder(d, m, p);
    ProductsKeepOrder(m, d, p);
    ProductsKeepOrder(d + 1, m, p);
    ProductsKeepOrder(m + 1, d, p);
  }

  lemma MultipleIs(b: nat, p: nat) returns (m: nat)
    requires p > 0 && b % p == 0
    ensures b == m * p && (b > 0 ==> m > 0) && (b == 0 ==> m == 0)
  {
    m := b / p;
    assert b == m * p + b % p;
    if m == 0 {
      assert m * p == 0;
    } else {
      ProductsKeepOrder(1, m, p);
    }
  }

  lemma MultipleLeavesNothing(m: nat, p: nat)
    requires p > 0
    ensures (m * p) % p == 0
  {
    QuotientIs(m * p, p, m);
    assert m * p == (m * p) / p * p + (m * p) % p;
  }

  lemma SignedMultiple(b: int, p: nat)
    requires p > 0
    ensures (-b) % p == 0 <==> b % p == 0
  {
    var q, r := b / p, b % p;
    assert b == q * p + r;
    var d, s := (-b) / p, (-b) % p;
    assert -b == d * p + s;
    assert (d + q) * p == d * p + q * p;
    assert (d + q) * p + r + s == 0;
    var k := d + q;
    if r == 0 && s != 0 {
      assert k * p == -s;
      ProductsKeepOrder(k, -1, p);
      ProductsKeepOrder(0, k, p);
      ProductsKeepOrder(-1, k, p);
    }
    if s == 0 && r != 0 {
      assert k * p == -r;
      ProductsKeepOrder(k, -1, p);
      ProductsKeepOrder(0, k, p);
      ProductsKeepOrder(-1, k, p);
    }
  }

  /** A time from the epoch on, or its mirror image, belongs to the multiple of the period at or next below it. */
  lemma BucketFromEpoch(t: nat, b: int, p: nat)
    requires p > 0
    ensures t / p * p == b <==> b >= 0 && b % p == 0 && b <= t < b + p
  {
    if t / p * p == b {
      QuotientIs(t, p, t / p);
      MultipleLeavesNothing(t / p, p);
    }
    if b >= 0 && b % p == 0 && b <= t < b + p {
      var m := MultipleIs(b, p);
      QuotientIs(t, p, m);
    }
  }

  /** A row's bucket is exactly the multiple of the period that covers its time. */
  lemma BucketExactly(t: int, b: int, periodMs: nat)
    requires periodMs > 0
    ensures BucketOf(t, periodMs) == b <==> b % periodMs == 0 && Covered(t, b, periodMs)
  {
    if t >= 0 {
      BucketFromEpoch(t, b, periodMs);
      assert BucketOf(t, periodMs) == t / periodMs * periodMs;
      if b < 0 {
        assert !Covered(t, b, periodMs);
      }
    } else {
      BucketFromEpoch(-t, -b, periodMs);
      assert -((-t) / periodMs) * periodMs == -((-t) / periodMs * periodMs);
      assert BucketOf(t, periodMs) == -((-t) / periodMs * periodMs);
      if b > 0 {
        assert !Covered(t, b, periodMs);
      } else {
        SignedMultiple(-b, periodMs);
      }
    }
  }

  // ---------- the query's words ----------

  function NameOf(stat: Statistic): Bytes {
    match stat
    case Sum => "Sum"
    case Average => "Average"
    case Maximum => "Maximum"
    case Minimum => "Minimum"
    case SampleCount => "SampleCount"
  }

  /** A statistic is known by its name, the average also by none; any other text is refused. */
  lemma StatisticNamed(text: Bytes, stat: Statistic)
    ensures StatisticOf(text) == Some(stat) <==> text == NameOf(stat) || (stat == Average && text == [])
    ensures StatisticOf(text) == None <==> text != [] && forall s :: text != NameOf(s)
  {
    assert |NameOf(Sum)| == 3 && |NameOf(SampleCount)| == 11;
    assert NameOf(Average)[0] == 'A' && NameOf(Maximum)[1] == 'a' && NameOf(Minimum)[1] == 'i';
    if text == NameOf(Sum) || text == NameOf(Average) || text == NameOf(Maximum) || text == NameOf(Minimum) || text == NameOf(SampleCount) {
    } else {
      forall s ensures text != NameOf(s) {
        match s
        case Sum =>
        case Average =>
        case Maximum =>
        case Minimum =>
        case SampleCount =>
      }
    }
  }

  /** Without a period it is a minute. */
  lemma PeriodMissing()
    ensures PeriodOf([]) == 60
  {
  }

  // ---------- which rows a point stands for ----------

  /** The first dimension of that name has that value. */
  predicate HasDimension(dimensions: seq<Pair>, filter: Pair) {
    exists k | 0 <= k < |dimensions| :: dimensions[k] == filter && forall j | 0 <= j < k :: dimensions[j].0 != filter.0
  }

  lemma {:induction false} DimensionFound(dimensions: seq<Pair>, filter: Pair)
    ensures DimensionOf(dimensions, filter.0) == Some(filter.1) <==> HasDimension(dimensions, filter)
  {
    if dimensions == [] {
    } else if dimensions[0].0 == filter.0 {
      if dimensions[0] == filter {
        assert HasDimension(dimensions, filter);
      }
    } else {
      var rest := dimensions[1..];
      DimensionFound(rest, filter);
      if HasDimension(rest, filter) {
        var k :| 0 <= k < |rest| && rest[k] == filter && forall j | 0 <= j < k :: rest[j].0 != filter.0;
        assert dimensions[k + 1] == filter;
        forall j | 0 <= j < k + 1 ensures dimensions[j].0 != filter.0 {
          assert j > 0 ==> dimensions[j] == rest[j - 1];
        }
      }
      if HasDimension(dimensions, filter) {
        var k :| 0 <= k < |dimensions| && dimensions[k] == filter && forall j | 0 <= j < k :: dimensions[j].0 != filter.0;
        assert rest[k - 1] == filter;
        forall j | 0 <= j < k - 1 ensures rest[j].0 != filter.0 {
          assert rest[j] == dimensions[j + 1];
        }
      }
    }
  }

  /** The query asks for the row, and it falls under the point at this time. */
  predicate Counted(q: MetricQuery, row: MetricRow, bucket: int) {
    && row.name == q.name
    && (q.namespace == [] || row.namespace == q.namespace)
    && (forall i | 0 <= i < |q.dimensions| :: HasDimension(row.dimensions, q.dimensions[i]))
    && q.startMs < row.timestampMs && row.timestampMs <= q.endMs
    && Covered(row.timestampMs, bucket, q.periodMs)
  }

  /** The stored values of those rows, in table order. */
  function PointValues(table: seq<MetricRow>, q: MetricQuery, bucket: int): seq<Double> {
    if table == [] then []
    else
      var last := table[|table| - 1];
      PointValues(table[..|table| - 1], q, bucket) + if Counted(q, last, bucket) then [last.value] else []
  }

  lemma CountedMeans(q: MetricQuery, row: MetricRow, bucket: int)
    requires q.periodMs > 0 && bucket % q.periodMs == 0
    ensures Counted(q, row, bucket) <==> MetricBuckets.Matches(q, row) && BucketOf(row.timestampMs, q.periodMs) == bucket
  {
    BucketExactly(row.timestampMs, bucket, q.periodMs);
    hide BucketOf, Covered, HasDimension, DimensionOf;
    forall i | 0 <= i < |q.dimensions|
      ensures HasDimension(row.dimensions, q.dimensions[i]) <==> DimensionOf(row.dimensions, q.dimensions[i].0) == Some(q.dimensions[i].1)
    {
      DimensionFound(row.dimensions, q.dimensions[i]);
    }
  }

  lemma DoublesPush(rows: seq<MetricRow>, row: MetricRow, periodMs: nat, bucket: int)
    requires periodMs > 0
    ensures DoublesIn(rows + [row], periodMs, bucket) ==
            DoublesIn(rows, periodMs, bucket) + if BucketOf(row.timestampMs, periodMs) == bucket then [row.value] else []
  {
    hide BucketOf;
    assert (rows + [row])[..|rows|] == rows;
  }

  lemma {:induction false} PointValuesAre(table: seq<MetricRow>, q: MetricQuery, bucket: int)
    requires q.periodMs > 0 && bucket % q.periodMs == 0
    ensures PointValues(table, q, bucket) == DoublesIn(MetricBuckets.Select(table, q), q.periodMs, bucket)
  {
    hide Counted, MetricBuckets.Matches, BucketOf;
    if table == [] {
    } else {
      var front, last := table[..|table| - 1], table[|table| - 1];
      PointValuesAre(front, q, bucket);
      CountedMeans(q, last, bucket);
      var selected := MetricBuckets.Select(front, q);
      DoublesPush(selected, last, q.periodMs, bucket);
      if MetricBuckets.Matches(q, last) {
        assert MetricBuckets.Select(table, q) == selected + [last];
      } else {
        assert MetricBuckets.Select(table, q) == selected;
      }
      hide DoublesIn;
    }
  }

  // ---------- what a point says ----------

  /** The statistic of the values; over an infinity or NaN, but for a count, whatever the engine answers. */
  ghost predicate IsStatistic(special: NonFiniteAggregate, stat: Statistic, values: seq<Double>, result: Double)
    requires values != []
  {
    if stat == SampleCount then result == Finite(|values| as real)
    else if exists i | 0 <= i < |values| :: values[i].NonFinite? then result == special(stat, values)
    else
      && result.Finite?
      && match stat
         case Sum => result.value == Total(RealsOf(values))
         case Average => result.value * (|values| as real) == Total(RealsOf(values))
         case Maximum => result in values && forall i | 0 <= i < |values| :: values[i].value <= result.value
         case Minimum => result in values && forall i | 0 <= i < |values| :: result.value <= values[i].value
         case SampleCount => true
  }

  lemma AggregateIsStatistic(special: NonFiniteAggregate, stat: Statistic, values: seq<Double>)
    requires values != []
    ensures IsStatistic(special, stat, values, AggregateDoubles(special, stat, values))
  {
    hide Total, Largest, Smallest;
    var reals := RealsOf(values);
    if MetricReply.Writable(values) && (stat == Maximum || stat == Minimum) {
      var x := if stat == Maximum then Largest(reals) else Smallest(reals);
      assert x in reals;
      var i :| 0 <= i < |reals| && reals[i] == x;
      assert values[i] == Finite(x);
      forall j | 0 <= j < |values|
        ensures if stat == Maximum then values[j].value <= x else x <= values[j].value
      {
        assert reals[j] in reals;
      }
    }
  }

  /**
   * The points of a reply: rising multiples of the period, one for each that covers a row asked for, each with the
   * statistic of exactly the rows asked for that it covers.
   */
  ghost predicate PointsAre(special: NonFiniteAggregate, table: seq<MetricRow>, q: MetricQuery, points: seq<MetricReply.ReplyRow>)
    requires q.periodMs > 0
  {
    && (forall i | 0 <= i < |points| ::
          && points[i].0 % q.periodMs == 0
          && PointValues(table, q, points[i].0) != []
          && IsStatistic(special, q.stat, PointValues(table, q, points[i].0), points[i].1))
    && (forall i, j | 0 <= i < j < |points| :: points[i].0 < points[j].0)
    && (forall b | b % q.periodMs == 0 && PointValues(table, q, b) != [] :: exists i :: 0 <= i < |points| && points[i].0 == b)
  }

  lemma {:induction false} StartsAreMultiples(rows: seq<MetricRow>, periodMs: nat)
    requires periodMs > 0
    ensures forall b | b in Starts(rows, periodMs) :: b % periodMs == 0
  {
    hide BucketOf;
    if rows == [] {
    } else {
      var n := |rows| - 1;
      StartsAreMultiples(rows[..n], periodMs);
      StartsMeaning(rows[..n], periodMs);
      var b := BucketOf(rows[n].timestampMs, periodMs);
      BucketExactly(rows[n].timestampMs, b, periodMs);
      InsertStartMeaning(Starts(rows[..n], periodMs), b);
    }
  }

  /** The listener replies with these points, whatever the table holds. */
  lemma RepliedPoints(special: NonFiniteAggregate, table: seq<MetricRow>, q: MetricQuery)
    requires q.periodMs > 0
    ensures PointsAre(special, table, q, ReplyRows(special, table, q))
  {
    hide MetricBuckets.Select, Starts, DoublesIn, PointValues, IsStatistic, AggregateDoubles;
    var selected, points := MetricBuckets.Select(table, q), ReplyRows(special, table, q);
    var starts := Starts(selected, q.periodMs);
    StartsMeaning(selected, q.periodMs);
    StartsAreMultiples(selected, q.periodMs);
    forall i | 0 <= i < |points|
      ensures points[i].0 % q.periodMs == 0 && PointValues(table, q, points[i].0) != []
      ensures IsStatistic(special, q.stat, PointValues(table, q, points[i].0), points[i].1)
    {
      assert starts[i] in starts;
      PointValuesAre(table, q, starts[i]);
      AggregateIsStatistic(special, q.stat, PointValues(table, q, starts[i]));
    }
    forall b | b % q.periodMs == 0 && PointValues(table, q, b) != [] ensures exists i :: 0 <= i < |points| && points[i].0 == b {
      PointValuesAre(table, q, b);
      var i :| 0 <= i < |starts| && starts[i] == b;
      assert points[i].0 == b;
    }
  }

  /** The client reads exactly these points, unless one of them is an infinity or NaN. */
  lemma ClientReadsPoints(reply: MetricReply.ReplyFormats, special: NonFiniteAggregate, table: seq<MetricRow>, q: MetricQuery)
    returns (points: seq<MetricReply.ReplyRow>)
    requires q.periodMs > 0 && MetricReply.RowsInvert(reply, ReplyRows(special, table, q))
    ensures PointsAre(special, table, q, points)
    ensures var series := MetricReply.Convert(reply, MetricReply.ReplyText(reply, q.name, ReplyRows(special, table, q)));
            && (series.Ok? <==> forall i | 0 <= i < |points| :: points[i].1.Finite?)
            && (series.Ok? ==>
                  && series.value.Series? && |series.value.timestamps| == |series.value.values| == |points|
                  && forall i | 0 <= i < |points| ::
                       series.value.timestamps[i] == points[i].0 as real / 1000.0 && series.value.values[i] == points[i].1)
  {
    hide MetricReply.Convert, MetricReply.ReplyText, MetricReply.RowsInvert, PointsAre, ReplyRows;
    points := ReplyRows(special, table, q);
    RepliedPoints(special, table, q);
    MetricReply.ReplyRoundTrip(reply, q.name, points);
    assert forall i | 0 <= i < |points| :: MetricReply.Numbers(points)[i] == points[i].1;
  }
}
