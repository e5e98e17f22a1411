/**
 * GetMetricData in the listener (src/cloudwatch_server.cpp): which rows a query takes, how they
 * fall into buckets, and what the aggregates conserve. Stored values are taken as exact numbers.
 */
module MetricBuckets {
  import opened Strings
  import opened QueryCodec
  import opened JsonTrees
  import opened MetricsWire
  import opened MetricsListener
  import MetricReply

  // ---------- statistics over lists of values ----------

  datatype Statistic = Sum | Average | Maximum | Minimum | SampleCount

  function Total(values: seq<real>): real {
    if values == [] then 0.0 else Total(values[..|values| - 1]) + values[|values| - 1]
  }

  function Largest(values: seq<real>): (m: real)
    requires values != []
    ensures m in values && forall i | 0 <= i < |values| :: values[i] <= m
  {
    if |values| == 1 then values[0]
    else
      var front := Largest(values[..|values| - 1]);
      if values[|values| - 1] > front then values[|values| - 1] else front
  }

  function Smallest(values: seq<real>): (m: real)
    requires values != []
    ensures m in values && forall i | 0 <= i < |values| :: values[i] >= m
  {
    if |values| == 1 then values[0]
    else
      var front := Smallest(values[..|values| - 1]);
      if values[|values| - 1] < front then values[|values| - 1] else front
  }

  function Aggregate(stat: Statistic, values: seq<real>): real
    requires values != []
  {
    match stat
    case Sum => Total(values)
    case Average => Total(values) / (|values| as real)
    case Maximum => Largest(values)
    case Minimum => Smallest(values)
    case SampleCount => |values| as real
  }

  lemma TotalUnfold(values: seq<real>)
    requires values != []
    ensures Total(values) == Total(values[..|values| - 1]) + values[|values| - 1]
  {
  }

  lemma {:induction false} TotalRemove(values: seq<real>, i: nat)
    requires i < |values|
    ensures Total(values) == Total(values[..i] + values[i + 1..]) + values[i]
  {
    hide Total;
    var n := |values| - 1;
    TotalUnfold(values);
    if i == n {
      assert values[..i] + values[i + 1..] == values[..n];
    } else {
      var front, rest := values[..n], values[..i] + values[i + 1..];
      TotalRemove(front, i);
      TotalUnfold(rest);
      assert rest[..|rest| - 1] == front[..i] + front[i + 1..];
    }
  }

  /** A list without one occurrence of a value. */
  lemma TakeOut(values: seq<real>, x: real) returns (rest: seq<real>)
    requires x in multiset(values)
    ensures multiset(rest) == multiset(values) - multiset{x} && |rest| + 1 == |values| && Total(values) == Total(rest) + x
  {
    hide Total;
    var i :| 0 <= i < |values| && values[i] == x;
    TotalRemove(values, i);
    rest := values[..i] + values[i + 1..];
    assert values == values[..i] + [x] + values[i + 1..];
  }

  lemma MoveOut(all: multiset<real>, a: multiset<real>, b: multiset<real>, x: real)
    requires all == a + b && x in a
    ensures all - multiset{x} == (a - multiset{x}) + b
  {
  }

  lemma NoTotal()
    ensures Total([]) == 0.0
  {
  }

  /** Two lists that together hold a third's values: their totals and counts add up to its own. */
  lemma {:induction false} TotalJoins(all: seq<real>, a: seq<real>, b: seq<real>)
    requires multiset(all) == multiset(a) + multiset(b)
    ensures Total(all) == Total(a) + Total(b) && |all| == |a| + |b|
    decreases |a| + |b|
  {
    hide Total;
    assert |multiset(all)| == |all| && |multiset(a)| == |a| && |multiset(b)| == |b|;
    if a != [] {
      var x := a[0];
      assert x in multiset(a);
      var rest := TakeOut(a, x);
      var all' := TakeOut(all, x);
      MoveOut(multiset(all), multiset(a), multiset(b), x);
      TotalJoins(all', rest, b);
    } else if b != [] {
      var x := b[0];
      assert x in multiset(b);
      var rest := TakeOut(b, x);
      var all' := TakeOut(all, x);
      MoveOut(multiset(all), multiset(b), multiset(a), x);
      TotalJoins(all', a, rest);
    } else {
      assert all == a;
      NoTotal();
    }
  }

  lemma SameElements(all: seq<real>, a: seq<real>, b: seq<real>, x: real)
    requires multiset(all) == multiset(a) + multiset(b)
    ensures x in all <==> x in a || x in b
  {
    assert x in all <==> x in multiset(all);
    assert x in a <==> x in multiset(a);
    assert x in b <==> x in multiset(b);
  }

  /** The extremes of the whole are the extremes of the parts. */
  lemma ExtremesJoin(all: seq<real>, a: seq<real>, b: seq<real>)
    requires multiset(all) == multiset(a) + multiset(b) && a != [] && b != []
    ensures all != []
    ensures Largest(all) == if Largest(b) > Largest(a) then Largest(b) else Largest(a)
    ensures Smallest(all) == if Smallest(b) < Smallest(a) then Smallest(b) else Smallest(a)
  {
    hide Largest, Smallest;
    SameElements(all, a, b, a[0]);
    SameElements(all, a, b, Largest(all));
    SameElements(all, a, b, Largest(a));
    SameElements(all, a, b, Largest(b));
    SameElements(all, a, b, Smallest(all));
    SameElements(all, a, b, Smallest(a));
    SameElements(all, a, b, Smallest(b));
  }

  // ---------- which rows a query takes ----------

  datatype MetricQuery = MetricQuery(
    name: Bytes,
    namespace: Bytes,
    dimensions: seq<Pair>,
    startMs: int,
    endMs: int,
    periodMs: nat,
    stat: Statistic)

  function DimensionOf(dimensions: seq<Pair>, key: Bytes): Option<Bytes> {
    if dimensions == [] then None else if dimensions[0].0 == key then Some(dimensions[0].1) else DimensionOf(dimensions[1..], key)
  }

  /** Everything in the WHERE clause but the time window. */
  predicate Concerns(q: MetricQuery, row: MetricRow) {
    && row.name == q.name
    && (q.namespace != [] ==> row.namespace == q.namespace)
    && forall i | 0 <= i < |q.dimensions| :: DimensionOf(row.dimensions, q.dimensions[i].0) == Some(q.dimensions[i].1)
  }

  /** The window excludes its start and includes its end. */
  predicate Matches(q: MetricQuery, row: MetricRow) {
    Concerns(q, row) && q.startMs < row.timestampMs <= q.endMs
  }

  function Select(rows: seq<MetricRow>, q: MetricQuery): (r: seq<MetricRow>)
    ensures forall i | 0 <= i < |r| :: r[i] in rows && Matches(q, r[i])
  {
    if rows == [] then []
    else Select(rows[..|rows| - 1], q) + if Matches(q, rows[|rows| - 1]) then [rows[|rows| - 1]] else []
  }

  predicate AllFinite(rows: seq<MetricRow>) {
    forall i | 0 <= i < |rows| :: rows[i].value.Finite?
  }

  // ---------- buckets ----------

  /** DuckDB's integer division truncates toward zero, so the bucket around the epoch is twice as wide. */
  function BucketOf(timestampMs: int, periodMs: nat): int
    requires periodMs > 0
  {
    TruncDiv(timestampMs, periodMs) * periodMs
  }

  /** The values in one bucket, in table order. */
  function Values(rows: seq<MetricRow>, periodMs: nat, bucket: int): seq<real>
    requires periodMs > 0 && AllFinite(rows)
  {
    if rows == [] then []
    else
      var last := rows[|rows| - 1];
      Values(rows[..|rows| - 1], periodMs, bucket) + if BucketOf(last.timestampMs, periodMs) == bucket then [last.value.value] else []
  }

  function InsertStart(starts: seq<int>, start: int): seq<int> {
    if starts == [] then [start]
    else if starts[0] == start then starts
    else if start < starts[0] then [start] + starts
    else [starts[0]] + InsertStart(starts[1..], start)
  }

  /** The buckets that hold a row, in order. */
  function Starts(rows: seq<MetricRow>, periodMs: nat): seq<int>
    requires periodMs > 0
  {
    if rows == [] then [] else InsertStart(Starts(rows[..|rows| - 1], periodMs), BucketOf(rows[|rows| - 1].timestampMs, periodMs))
  }

  predicate Ascending(starts: seq<int>) {
    forall i, j | 0 <= i < j < |starts| :: starts[i] < starts[j]
  }

  lemma {:induction false} InsertStartMeaning(starts: seq<int>, start: int)
    requires Ascending(starts)
    ensures Ascending(InsertStart(starts, start))
    ensures forall b :: b in InsertStart(starts, start) <==> b in starts || b == start
  {
    if starts == [] || starts[0] >= start {
    } else {
      InsertStartMeaning(starts[1..], start);
      assert starts == [starts[0]] + starts[1..];
      var rest := InsertStart(starts[1..], start);
      forall i | 0 <= i < |rest| ensures starts[0] < rest[i] {
        assert rest[i] in rest;
      }
    }
  }

  /** The stored doubles in one bucket, in table order. */
  function DoublesIn(rows: seq<MetricRow>, periodMs: nat, bucket: int): seq<Double>
    requires periodMs > 0
  {
    if rows == [] then []
    else
      var last := rows[|rows| - 1];
      DoublesIn(rows[..|rows| - 1], periodMs, bucket) + if BucketOf(last.timestampMs, periodMs) == bucket then [last.value] else []
  }

  function RealsOf(values: seq<Double>): (r: seq<real>)
    ensures |r| == |values| && forall i | 0 <= i < |r| && values[i].Finite? :: r[i] == values[i].value
  {
    seq(|values|, i requires 0 <= i < |values| => if values[i].Finite? then values[i].value else 0.0)
  }

  /** Over finite rows a bucket's doubles are its values. */
  lemma {:induction false} DoublesAreValues(rows: seq<MetricRow>, periodMs: nat, bucket: int)
    requires periodMs > 0 && AllFinite(rows)
    ensures MetricReply.Writable(DoublesIn(rows, periodMs, bucket))
    ensures RealsOf(DoublesIn(rows, periodMs, bucket)) == Values(rows, periodMs, bucket)
  {
    hide BucketOf;
    if rows == [] {
    } else {
      DoublesAreValues(rows[..|rows| - 1], periodMs, bucket);
    }
  }

  /** Every listed bucket holds a value, and every row's bucket is listed. */
  lemma {:induction false} StartsMeaning(rows: seq<MetricRow>, periodMs: nat)
    requires periodMs > 0
    ensures Ascending(Starts(rows, periodMs))
    ensures forall b :: b in Starts(rows, periodMs) <==> DoublesIn(rows, periodMs, b) != []
  {
    hide BucketOf;
    if rows == [] {
    } else {
      var n := |rows| - 1;
      StartsMeaning(rows[..n], periodMs);
      InsertStartMeaning(Starts(rows[..n], periodMs), BucketOf(rows[n].timestampMs, periodMs));
    }
  }

  lemma StartsHoldValues(rows: seq<MetricRow>, periodMs: nat)
    requires periodMs > 0 && AllFinite(rows)
    ensures forall b :: b in Starts(rows, periodMs) <==> Values(rows, periodMs, b) != []
  {
    hide Starts, DoublesIn, Values;
    StartsMeaning(rows, periodMs);
    forall b ensures DoublesIn(rows, periodMs, b) != [] <==> Values(rows, periodMs, b) != [] {
      DoublesAreValues(rows, periodMs, b);
    }
  }

  function AllValues(rows: seq<MetricRow>): (r: seq<real>)
    requires AllFinite(rows)
    ensures |r| == |rows|
  {
    if rows == [] then [] else AllValues(rows[..|rows| - 1]) + [rows[|rows| - 1].value.value]
  }

  /** The values of the rows that fall into one of the buckets. */
  function ValuesIn(rows: seq<MetricRow>, periodMs: nat, starts: seq<int>): seq<real>
    requires periodMs > 0 && AllFinite(rows)
  {
    if rows == [] then []
    else
      var last := rows[|rows| - 1];
      ValuesIn(rows[..|rows| - 1], periodMs, starts) + if BucketOf(last.timestampMs, periodMs) in starts then [last.value.value] else []
  }

  lemma {:induction false} OneMoreBucket(rows: seq<MetricRow>, periodMs: nat, starts: seq<int>, b: int)
    requires periodMs > 0 && AllFinite(rows) && b !in starts
    ensures multiset(ValuesIn(rows, periodMs, starts + [b])) == multiset(ValuesIn(rows, periodMs, starts)) + multiset(Values(rows, periodMs, b))
  {
    hide BucketOf;
    if rows == [] {
    } else {
      OneMoreBucket(rows[..|rows| - 1], periodMs, starts, b);
    }
  }

  lemma {:induction false} NoBucket(rows: seq<MetricRow>, periodMs: nat)
    requires periodMs > 0 && AllFinite(rows)
    ensures ValuesIn(rows, periodMs, []) == []
  {
    if rows == [] {
    } else {
      NoBucket(rows[..|rows| - 1], periodMs);
    }
  }

  lemma {:induction false} EveryBucket(rows: seq<MetricRow>, periodMs: nat, starts: seq<int>)
    requires periodMs > 0 && AllFinite(rows)
    requires forall i | 0 <= i < |rows| :: BucketOf(rows[i].timestampMs, periodMs) in starts
    ensures ValuesIn(rows, periodMs, starts) == AllValues(rows)
  {
    hide BucketOf;
    if rows == [] {
    } else {
      EveryBucket(rows[..|rows| - 1], periodMs, starts);
    }
  }

  // ---------- what the buckets' statistics conserve ----------

  /** The statistic of every listed bucket. */
  function Folded(stat: Statistic, rows: seq<MetricRow>, periodMs: nat, starts: seq<int>): (r: seq<real>)
    requires periodMs > 0 && AllFinite(rows)
    requires forall i | 0 <= i < |starts| :: Values(rows, periodMs, starts[i]) != []
    ensures |r| == |starts|
    ensures forall i | 0 <= i < |r| :: r[i] == Aggregate(stat, Values(rows, periodMs, starts[i]))
  {
    seq(|starts|, i requires 0 <= i < |starts| => Aggregate(stat, Values(rows, periodMs, starts[i])))
  }

  function Counts(rows: seq<MetricRow>, periodMs: nat, starts: seq<int>): (r: seq<nat>)
    requires periodMs > 0 && AllFinite(rows)
    ensures |r| == |starts|
    ensures forall i | 0 <= i < |r| :: r[i] == |Values(rows, periodMs, starts[i])|
  {
    seq(|starts|, i requires 0 <= i < |starts| => |Values(rows, periodMs, starts[i])|)
  }

  /** Numbers added up, each as often as its count says. */
  function Weighted(numbers: seq<real>, counts: seq<nat>): real
    requires |numbers| == |counts|
  {
    if numbers == [] then 0.0
    else
      var n := |numbers| - 1;
      Weighted(numbers[..n], counts[..n]) + numbers[n] * (counts[n] as real)
  }

  /** What a statistic's per-bucket results fold to, compared with the statistic over everything; averages fold with their counts. */
  ghost predicate Conserves(stat: Statistic, buckets: seq<real>, counts: seq<nat>, all: seq<real>)
    requires |buckets| == |counts| && buckets != [] && all != []
  {
    match stat
    case Sum => Total(buckets) == Total(all)
    case SampleCount => Total(buckets) == |all| as real
    case Maximum => Largest(buckets) == Largest(all)
    case Minimum => Smallest(buckets) == Smallest(all)
    case Average => Weighted(buckets, counts) == Total(all)
  }

  lemma AverageWeighs(values: seq<real>)
    requires values != []
    ensures Aggregate(Average, values) * (|values| as real) == Total(values)
  {
  }

  lemma OneValue(values: seq<real>)
    requires |values| == 1
    ensures Total(values) == Largest(values) == Smallest(values) == values[0]
  {
    assert values[..0] == [];
    assert Total(values[..0]) == 0.0;
  }

  lemma SameMultiset(a: seq<real>, b: seq<real>)
    requires multiset(a) == multiset(b) && b != []
    ensures a != [] && Total(a) == Total(b) && |a| == |b| && Largest(a) == Largest(b) && Smallest(a) == Smallest(b)
  {
    hide Largest, Smallest;
    var none: seq<real> := [];
    TotalJoins(a, b, none);
    SameElements(a, b, none, Largest(a));
    SameElements(a, b, none, Largest(b));
    SameElements(a, b, none, Smallest(a));
    SameElements(a, b, none, Smallest(b));
  }

  lemma ConserveOne(stat: Statistic, folded: seq<real>, counts: seq<nat>, all: seq<real>, own: seq<real>)
    requires |folded| == |counts| == 1 && own != [] && folded[0] == Aggregate(stat, own) && counts[0] == |own|
    requires multiset(all) == multiset(own)
    ensures all != [] && Conserves(stat, folded, counts, all)
  {
    hide Total, Largest, Smallest;
    OneValue(folded);
    AverageWeighs(own);
    assert Weighted(folded[..0], counts[..0]) == 0.0;
    SameMultiset(all, own);
  }

  lemma FoldStep(values: seq<real>)
    requires |values| > 1
    ensures var n := |values| - 1;
            && Total(values) == Total(values[..n]) + values[n]
            && Largest(values) == (if values[n] > Largest(values[..n]) then values[n] else Largest(values[..n]))
            && Smallest(values) == (if values[n] < Smallest(values[..n]) then values[n] else Smallest(values[..n]))
  {
  }

  lemma ConserveStep(stat: Statistic, folded: seq<real>, counts: seq<nat>, all: seq<real>, before: seq<real>, own: seq<real>)
    requires |folded| == |counts| > 1 && before != [] && own != []
    requires Conserves(stat, folded[..|folded| - 1], counts[..|folded| - 1], before)
    requires folded[|folded| - 1] == Aggregate(stat, own) && counts[|folded| - 1] == |own|
    requires multiset(all) == multiset(before) + multiset(own)
    ensures all != [] && Conserves(stat, folded, counts, all)
  {
    hide Total, Largest, Smallest;
    TotalJoins(all, before, own);
    FoldStep(folded);
    match stat
    case Average => AverageWeighs(own);
    case Maximum => ExtremesJoin(all, before, own);
    case Minimum => ExtremesJoin(all, before, own);
    case _ =>
  }

  lemma {:induction false} BucketsConserve(rows: seq<MetricRow>, periodMs: nat, stat: Statistic, starts: seq<int>)
    requires periodMs > 0 && AllFinite(rows) && Ascending(starts) && starts != []
    requires forall i | 0 <= i < |starts| :: Values(rows, periodMs, starts[i]) != []
    ensures ValuesIn(rows, periodMs, starts) != []
    ensures Conserves(stat, Folded(stat, rows, periodMs, starts), Counts(rows, periodMs, starts), ValuesIn(rows, periodMs, starts))
  {
    hide Values, ValuesIn, Aggregate, Conserves;
    var n := |starts| - 1;
    var front, last := starts[..n], starts[n];
    assert last !in front;
    OneMoreBucket(rows, periodMs, front, last);
    assert front + [last] == starts;
    var all, own := ValuesIn(rows, periodMs, starts), Values(rows, periodMs, last);
    var folded, counts := Folded(stat, rows, periodMs, starts), Counts(rows, periodMs, starts);
    if n == 0 {
      NoBucket(rows, periodMs);
      assert front == [];
      ConserveOne(stat, folded, counts, all, own);
    } else {
      BucketsConserve(rows, periodMs, stat, front);
      assert folded[..n] == Folded(stat, rows, periodMs, front) && counts[..n] == Counts(rows, periodMs, front);
      ConserveStep(stat, folded, counts, all, ValuesIn(rows, periodMs, front), own);
    }
  }

  lemma {:induction false} BucketListed(rows: seq<MetricRow>, periodMs: nat, i: nat)
    requires periodMs > 0 && AllFinite(rows) && i < |rows|
    ensures Values(rows, periodMs, BucketOf(rows[i].timestampMs, periodMs)) != []
  {
    hide BucketOf;
    if i == |rows| - 1 {
    } else {
      BucketListed(rows[..|rows| - 1], periodMs, i);
    }
  }

  /**
   * The buckets partition the rows: per-bucket sums and counts add up to the unbucketed totals,
   * averages do so weighted by their counts, and extremes fold to the global ones, for every period.
   */
  lemma BucketingConserves(rows: seq<MetricRow>, periodMs: nat, stat: Statistic)
    requires periodMs > 0 && AllFinite(rows) && rows != []
    ensures var starts := Starts(rows, periodMs);
            && starts != [] && Ascending(starts)
            && (forall i | 0 <= i < |starts| :: Values(rows, periodMs, starts[i]) != [])
            && Conserves(stat, Folded(stat, rows, periodMs, starts), Counts(rows, periodMs, starts), AllValues(rows))
  {
    hide Values, ValuesIn, Starts, Conserves, BucketOf, AllValues;
    var starts := Starts(rows, periodMs);
    StartsMeaning(rows, periodMs);
    StartsHoldValues(rows, periodMs);
    forall i | 0 <= i < |rows| ensures BucketOf(rows[i].timestampMs, periodMs) in starts {
      BucketListed(rows, periodMs, i);
    }
    assert BucketOf(rows[0].timestampMs, periodMs) in starts;
    EveryBucket(rows, periodMs, starts);
    BucketsConserve(rows, periodMs, stat, starts);
  }

  // ---------- adjacent windows ----------

  function Window(q: MetricQuery, startMs: int, endMs: int): MetricQuery {
    q.(startMs := startMs, endMs := endMs)
  }

  lemma ConcernsAlike(q: MetricQuery, row: MetricRow, a: int, b: int, c: int)
    ensures Concerns(Window(q, a, c), row) == Concerns(Window(q, a, b), row) == Concerns(Window(q, b, c), row)
  {
  }

  /** A row of the whole window is in exactly one of the two parts. */
  lemma WindowSplits(q: MetricQuery, row: MetricRow, a: int, b: int, c: int)
    requires a <= b <= c
    ensures Matches(Window(q, a, c), row) <==> Matches(Window(q, a, b), row) || Matches(Window(q, b, c), row)
    ensures !(Matches(Window(q, a, b), row) && Matches(Window(q, b, c), row))
  {
    hide Concerns;
    ConcernsAlike(q, row, a, b, c);
  }

  function Amount(row: MetricRow): real {
    if row.value.Finite? then row.value.value else 0.0
  }

  lemma ValuesPush(rows: seq<MetricRow>, row: MetricRow, periodMs: nat, bucket: int)
    requires periodMs > 0 && AllFinite(rows) && row.value.Finite?
    ensures AllFinite(rows + [row])
    ensures Values(rows + [row], periodMs, bucket) ==
            Values(rows, periodMs, bucket) + if BucketOf(row.timestampMs, periodMs) == bucket then [row.value.value] else []
  {
    assert (rows + [row])[..|rows|] == rows;
  }

  /** The values a row adds to a bucket of a selection. */
  lemma SelectValues(front: seq<MetricRow>, row: MetricRow, q: MetricQuery, bucket: int)
    requires q.periodMs > 0 && AllFinite(Select(front + [row], q))
    ensures AllFinite(Select(front, q))
    ensures multiset(Values(Select(front + [row], q), q.periodMs, bucket)) ==
            multiset(Values(Select(front, q), q.periodMs, bucket)) +
            if Matches(q, row) && BucketOf(row.timestampMs, q.periodMs) == bucket then multiset{Amount(row)} else multiset{}
  {
    hide BucketOf, Matches, Values;
    var all, before := Select(front + [row], q), Select(front, q);
    assert (front + [row])[..|front|] == front;
    if Matches(q, row) {
      assert all == before + [row];
      forall i | 0 <= i < |before| ensures before[i].value.Finite? {
        assert all[i] == before[i];
      }
      assert all[|before|] == row;
      ValuesPush(before, row, q.periodMs, bucket);
    } else {
      assert all == before;
    }
  }

  /** Selecting fewer rows keeps them finite. */
  lemma {:induction false} PartFinite(rows: seq<MetricRow>, q: MetricQuery, a: int, b: int, c: int)
    requires a <= b <= c && AllFinite(Select(rows, Window(q, a, c)))
    ensures AllFinite(Select(rows, Window(q, a, b))) && AllFinite(Select(rows, Window(q, b, c)))
  {
    hide Matches;
    if rows == [] {
    } else {
      var front, row := rows[..|rows| - 1], rows[|rows| - 1];
      WindowSplits(q, row, a, b, c);
      var whole := Select(rows, Window(q, a, c));
      var before := Select(front, Window(q, a, c));
      forall i | 0 <= i < |before| ensures before[i].value.Finite? {
        assert whole[i] == before[i];
      }
      if Matches(Window(q, a, c), row) {
        assert whole[|before|] == row;
      }
      PartFinite(front, q, a, b, c);
    }
  }

  lemma NoValues(periodMs: nat, bucket: int)
    requires periodMs > 0
    ensures Values([], periodMs, bucket) == []
  {
  }

  lemma {:induction false} WindowsJoin(rows: seq<MetricRow>, q: MetricQuery, a: int, b: int, c: int, bucket: int)
    requires a <= b <= c && q.periodMs > 0
    requires AllFinite(Select(rows, Window(q, a, c))) && AllFinite(Select(rows, Window(q, a, b))) && AllFinite(Select(rows, Window(q, b, c)))
    ensures multiset(Values(Select(rows, Window(q, a, c)), q.periodMs, bucket)) ==
            multiset(Values(Select(rows, Window(q, a, b)), q.periodMs, bucket)) + multiset(Values(Select(rows, Window(q, b, c)), q.periodMs, bucket))
  {
    hide BucketOf, Matches, Values, AllFinite;
    if rows == [] {
      NoValues(q.periodMs, bucket);
    } else {
      hide Select;
      var front, row := rows[..|rows| - 1], rows[|rows| - 1];
      assert front + [row] == rows;
      SelectValues(front, row, Window(q, a, c), bucket);
      SelectValues(front, row, Window(q, a, b), bucket);
      SelectValues(front, row, Window(q, b, c), bucket);
      WindowSplits(q, row, a, b, c);
      WindowsJoin(front, q, a, b, c, bucket);
    }
  }

  /** (a, b] and (b, c] aggregate to (a, c], bucket by bucket: sums and counts add, extremes fold. */
  lemma WindowsAggregate(rows: seq<MetricRow>, q: MetricQuery, a: int, b: int, c: int, bucket: int)
    requires a <= b <= c && q.periodMs > 0
    requires AllFinite(Select(rows, Window(q, a, c)))
    ensures AllFinite(Select(rows, Window(q, a, b))) && AllFinite(Select(rows, Window(q, b, c)))
    ensures var whole := Values(Select(rows, Window(q, a, c)), q.periodMs, bucket);
            var first := Values(Select(rows, Window(q, a, b)), q.periodMs, bucket);
            var second := Values(Select(rows, Window(q, b, c)), q.periodMs, bucket);
            && |whole| == |first| + |second|
            && Total(whole) == Total(first) + Total(second)
            && (first != [] && second != [] ==>
                  && Largest(whole) == (if Largest(second) > Largest(first) then Largest(second) else Largest(first))
                  && Smallest(whole) == (if Smallest(second) < Smallest(first) then Smallest(second) else Smallest(first)))
  {
    hide Values, Select, Total, Largest, Smallest, AllFinite;
    PartFinite(rows, q, a, b, c);
    WindowsJoin(rows, q, a, b, c, bucket);
    var whole := Values(Select(rows, Window(q, a, c)), q.periodMs, bucket);
    var first := Values(Select(rows, Window(q, a, b)), q.periodMs, bucket);
    var second := Values(Select(rows, Window(q, b, c)), q.periodMs, bucket);
    TotalJoins(whole, first, second);
    if first != [] && second != [] {
      ExtremesJoin(whole, first, second);
    }
  }

  // ---------- the handler ----------

  const QUERY_KEY: Bytes := "MetricDataQueries.member.1"
  const QUERY_DIMENSION: Bytes := QUERY_KEY + ".MetricStat.Metric.Dimensions.member."

  function Get(fields: map<Bytes, Bytes>, key: Bytes): Bytes {
    if key in fields then fields[key] else []
  }

  /** strtoll: the leading integer, 0 without one, held at the ends of the 64-bit range. */
  function LeadingInt64(s: Bytes): Int64 {
    var t := TrimLeft(s);
    var digits := LeadingDigits(if t != [] && (t[0] == '-' || t[0] == '+') then t[1..] else t);
    var value := DecimalValue(digits) * (if t != [] && t[0] == '-' then -1 else 1);
    if value > INT64_MAX then INT64_MAX else if value < INT64_MIN then INT64_MIN else value
  }

  function StatisticOf(stat: Bytes): Option<Statistic> {
    if stat == "Sum" then Some(Sum)
    else if stat == [] || stat == "Average" then Some(Average)
    else if stat == "Maximum" then Some(Maximum)
    else if stat == "Minimum" then Some(Minimum)
    else if stat == "SampleCount" then Some(SampleCount)
    else None
  }

  /** The dimension filters from number d on, up to the first with an empty or missing name or value. */
  function QueryDimensions(fields: map<Bytes, Bytes>, d: nat): seq<Pair>
    requires d >= 1 && HasKeys(fields, QUERY_DIMENSION, ".Name", d - 1)
    decreases |fields| + 1 - d
  {
    IndexedKeysBounded(fields, QUERY_DIMENSION, ".Name", d - 1);
    var name, value := Get(fields, QUERY_DIMENSION + ToString(d) + ".Name"), Get(fields, QUERY_DIMENSION + ToString(d) + ".Value");
    if name == [] || value == [] then []
    else
      IndexedKeysBounded(fields, QUERY_DIMENSION, ".Name", d);
      [(name, value)] + QueryDimensions(fields, d + 1)
  }

  function PeriodOf(text: Bytes): int {
    if text == [] then 60 else LeadingInt64(text)
  }

  /** The query of a request, or the first complaint about it. */
  function QueryOf(fmt: Formats, fields: map<Bytes, Bytes>): (r: Result<MetricQuery, MetricError>)
    ensures r.Ok? ==> r.value.periodMs > 0
  {
    var name := Get(fields, QUERY_KEY + ".MetricStat.Metric.MetricName");
    var period := PeriodOf(Get(fields, QUERY_KEY + ".MetricStat.Period"));
    var start, end := fmt.parseIso(Get(fields, "StartTime")), fmt.parseIso(Get(fields, "EndTime"));
    var stat := StatisticOf(Get(fields, QUERY_KEY + ".MetricStat.Stat"));
    if name == [] then Err(MissingParameter)
    else if period <= 0 || start.None? || end.None? || stat.None? then Err(InvalidParameterValue)
    else
      Ok(MetricQuery(
        name, Get(fields, QUERY_KEY + ".MetricStat.Metric.Namespace"), QueryDimensions(fields, 1),
        start.value, end.value, period * 1000, stat.value))
  }

  method CollectQueryDimensions(fields: map<Bytes, Bytes>) returns (dimensions: seq<Pair>)
    ensures dimensions == QueryDimensions(fields, 1)
  {
    dimensions := [];
    var d := 1;
    while Get(fields, QUERY_DIMENSION + ToString(d) + ".Name") != [] && Get(fields, QUERY_DIMENSION + ToString(d) + ".Value") != []
      invariant d >= 1 && HasKeys(fields, QUERY_DIMENSION, ".Name", d - 1)
      invariant dimensions + QueryDimensions(fields, d) == QueryDimensions(fields, 1)
      decreases |fields| + 1 - d
    {
      IndexedKeysBounded(fields, QUERY_DIMENSION, ".Name", d);
      dimensions := dimensions + [(Get(fields, QUERY_DIMENSION + ToString(d) + ".Name"), Get(fields, QUERY_DIMENSION + ToString(d) + ".Value"))];
      d := d + 1;
    }
  }

  /** The engine's aggregate of doubles that are not all finite: any function of the statistic and the doubles. */
  type NonFiniteAggregate = (Statistic, seq<Double>) -> Double

  /** The aggregate of one bucket: a count is a count, and exact over finite doubles. */
  function AggregateDoubles(special: NonFiniteAggregate, stat: Statistic, values: seq<Double>): Double
    requires values != []
  {
    if stat.SampleCount? then Finite(|values| as real)
    else if MetricReply.Writable(values) then Finite(Aggregate(stat, RealsOf(values)))
    else special(stat, values)
  }

  /** The rows the reply prints: the buckets in order, each with its aggregate. */
  function ReplyRows(special: NonFiniteAggregate, table: seq<MetricRow>, q: MetricQuery): (r: seq<MetricReply.ReplyRow>)
    requires q.periodMs > 0
    ensures var starts := Starts(Select(table, q), q.periodMs);
            && |r| == |starts|
            && forall i | 0 <= i < |r| ::
                 && DoublesIn(Select(table, q), q.periodMs, starts[i]) != []
                 && r[i] == (starts[i], AggregateDoubles(special, q.stat, DoublesIn(Select(table, q), q.periodMs, starts[i])))
  {
    var selected := Select(table, q);
    var starts := Starts(selected, q.periodMs);
    StartsMeaning(selected, q.periodMs);
    seq(|starts|, i requires 0 <= i < |starts| => (starts[i], AggregateDoubles(special, q.stat, DoublesIn(selected, q.periodMs, starts[i]))))
  }

  method GetMetricData(fmt: Formats, reply: MetricReply.ReplyFormats, special: NonFiniteAggregate,
                       fields: map<Bytes, Bytes>, table: seq<MetricRow>)
    returns (r: Result<Bytes, MetricError>)
    ensures QueryOf(fmt, fields).Ok? ==>
              r == Ok(MetricReply.ReplyText(reply, QueryOf(fmt, fields).value.name, ReplyRows(special, table, QueryOf(fmt, fields).value)))
    ensures QueryOf(fmt, fields).Err? ==> r == Err(QueryOf(fmt, fields).error)
  {
    hide ReplyRows, MetricReply.ReplyText, QueryDimensions, LeadingInt64, StatisticOf;
    var name := Get(fields, QUERY_KEY + ".MetricStat.Metric.MetricName");
    if name == [] {
      return Err(MissingParameter);
    }
    var period := PeriodOf(Get(fields, QUERY_KEY + ".MetricStat.Period"));
    if period <= 0 {
      return Err(InvalidParameterValue);
    }
    var start := fmt.parseIso(Get(fields, "StartTime"));
    var end := fmt.parseIso(Get(fields, "EndTime"));
    if start.None? || end.None? {
      return Err(InvalidParameterValue);
    }
    var stat := StatisticOf(Get(fields, QUERY_KEY + ".MetricStat.Stat"));
    if stat.None? {
      return Err(InvalidParameterValue);
    }
    var dimensions := CollectQueryDimensions(fields);
    var q := MetricQuery(
      name, Get(fields, QUERY_KEY + ".MetricStat.Metric.Namespace"), dimensions, start.value, end.value, period * 1000, stat.value);
    assert QueryOf(fmt, fields) == Ok(q);
    var text := MetricReply.PrintReply(reply, name, ReplyRows(special, table, q));
    return Ok(text);
  }

  lemma CountIsExact(values: seq<real>)
    requires values != []
    ensures Aggregate(SampleCount, values) == |values| as real
  {
  }

  /** Over finite rows every bucket's printed aggregate is the exact one. */
  lemma FiniteReplyRows(special: NonFiniteAggregate, table: seq<MetricRow>, q: MetricQuery)
    requires q.periodMs > 0 && AllFinite(Select(table, q))
    ensures var selected := Select(table, q); var starts := Starts(selected, q.periodMs);
            && (forall i | 0 <= i < |starts| :: Values(selected, q.periodMs, starts[i]) != [])
            && |ReplyRows(special, table, q)| == |starts|
            && forall i | 0 <= i < |starts| :: ReplyRows(special, table, q)[i] == (starts[i], Finite(Folded(q.stat, selected, q.periodMs, starts)[i]))
  {
    hide Select, Starts, DoublesIn, Values, Aggregate;
    var selected := Select(table, q);
    var starts := Starts(selected, q.periodMs);
    StartsHoldValues(selected, q.periodMs);
    forall i | 0 <= i < |starts|
      ensures ReplyRows(special, table, q)[i] == (starts[i], Finite(Folded(q.stat, selected, q.periodMs, starts)[i]))
    {
      DoublesAreValues(selected, q.periodMs, starts[i]);
      CountIsExact(Values(selected, q.periodMs, starts[i]));
    }
  }

  /**
   * What the client reads when the selected values are finite: one time per bucket, in order, with
   * exactly that bucket's aggregate beside it; and over a selection that is not empty these conserve it.
   */
  lemma ClientReadsBuckets(reply: MetricReply.ReplyFormats, special: NonFiniteAggregate, table: seq<MetricRow>, q: MetricQuery)
    requires q.periodMs > 0 && AllFinite(Select(table, q))
    requires MetricReply.RowsInvert(reply, ReplyRows(special, table, q))
    ensures var selected := Select(table, q); var starts := Starts(selected, q.periodMs);
            var series := MetricReply.Convert(reply, MetricReply.ReplyText(reply, q.name, ReplyRows(special, table, q)));
            && (forall i | 0 <= i < |starts| :: Values(selected, q.periodMs, starts[i]) != [])
            && series.Ok? && series.value.Series?
            && |series.value.values| == |series.value.timestamps| == |starts|
            && (forall i | 0 <= i < |starts| ::
                  && series.value.timestamps[i] == starts[i] as real / 1000.0
                  && series.value.values[i] == Finite(Aggregate(q.stat, Values(selected, q.periodMs, starts[i]))))
            && (selected != [] ==>
                  && starts != []
                  && Conserves(q.stat, RealsOf(series.value.values), Counts(selected, q.periodMs, starts), AllValues(selected)))
  {
    hide MetricReply.Convert, MetricReply.ReplyText, Conserves, Values, AllValues, Starts, Select, MetricReply.RowsInvert, Aggregate, DoublesIn, AllFinite;
    var selected := Select(table, q);
    var starts := Starts(selected, q.periodMs);
    var rows := ReplyRows(special, table, q);
    FiniteReplyRows(special, table, q);
    MetricReply.ReplyRoundTrip(reply, q.name, rows);
    assert MetricReply.Writable(MetricReply.Numbers(rows));
    if selected != [] {
      BucketingConserves(selected, q.periodMs, q.stat);
      assert RealsOf(MetricReply.Numbers(rows)) == Folded(q.stat, selected, q.periodMs, starts);
    }
  }
}
