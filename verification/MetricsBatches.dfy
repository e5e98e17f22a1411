/**
 * How send_cloudwatch_metrics cuts its datums into requests (src/send_metrics.cpp), and what the
 * size estimate behind the cut promises about the encoded body.
 */
module MetricsBatches {
  import opened Strings
  import opened QueryCodec
  import opened JsonTrees
  import opened MetricsWire
  import opened MetricsListener
  import opened MetricsRoundTrip
  import opened PutPlanner

  const MAX_DATUMS_PER_REQUEST: nat := 1000
  const MAX_REQUEST_BYTES: nat := 800000
  const MAX_DIMENSIONS: nat := 30
  const BODY_LIMIT: nat := 1000000

  // ---------- the dimensions of a datum ----------

  /** The attributes column of a row: empty, not JSON, or a document. */
  datatype Attributes = NoAttributes | InvalidJson | Parsed(root: Json)

  datatype DimensionError = NotJson | TooManyDimensions(count: nat)

  /** The string-valued members, in document order. */
  function StringMembers(members: seq<Member>): seq<Pair> {
    if members == [] then []
    else StringMembers(members[..|members| - 1]) +
         if members[|members| - 1].value.String? then [(CStr(members[|members| - 1].key), CStr(members[|members| - 1].value.text))] else []
  }

  function Dimensions(service: Bytes, attributes: Attributes): (r: Result<seq<Pair>, DimensionError>)
    ensures r.Ok? ==> |r.value| <= MAX_DIMENSIONS
  {
    var own: seq<Pair> := if service == [] then [] else [("service.name", service)];
    match attributes
    case NoAttributes => Ok(own)
    case InvalidJson => Err(NotJson)
    case Parsed(root) =>
      var all := own + if root.Object? then StringMembers(root.members) else [];
      if |all| > MAX_DIMENSIONS then Err(TooManyDimensions(|all|)) else Ok(all)
  }

  /** Members that are not strings are left out; the others keep their order. */
  lemma MembersAre(front: seq<Member>, last: Member)
    ensures StringMembers([]) == []
    ensures StringMembers(front + [last]) ==
            StringMembers(front) + if last.value.String? then [(CStr(last.key), CStr(last.value.text))] else []
  {
    hide CStr;
    assert (front + [last])[..|front|] == front;
  }

  /** Text that is no JSON is refused, and so are more than thirty dimensions, the service's among them; without attributes nothing is. */
  lemma DimensionsMean(service: Bytes, attributes: Attributes)
    ensures var r := Dimensions(service, attributes);
            var own: seq<Pair> := if service == [] then [] else [("service.name", service)];
            match attributes
            case NoAttributes => r == Ok(own)
            case InvalidJson => r == Err(NotJson)
            case Parsed(root) =>
              var more := if root.Object? then StringMembers(root.members) else [];
              if |own| + |more| <= 30 then r == Ok(own + more) else r == Err(TooManyDimensions(|own| + |more|))
  {
    hide StringMembers;
  }

  method CollectDimensions(service: Bytes, attributes: Attributes) returns (r: Result<seq<Pair>, DimensionError>)
    ensures r == Dimensions(service, attributes)
  {
    hide CStr;
    var dimensions: seq<Pair> := [];
    if service != [] {
      dimensions := [("service.name", service)];
    }
    if attributes.NoAttributes? {
      return Ok(dimensions);
    }
    if attributes.InvalidJson? {
      return Err(NotJson);
    }
    if attributes.root.Object? {
      ghost var own := dimensions;
      var members := attributes.root.members;
      for index := 0 to |members|
        invariant dimensions == own + StringMembers(members[..index])
      {
        assert members[..index + 1][..index] == members[..index];
        var child := members[index].value;
        if child.String? {
          dimensions := dimensions + [(CStr(members[index].key), CStr(child.text))];
        }
      }
      assert members[..|members|] == members;
    } else {
      assert dimensions + [] == dimensions;
    }
    if |dimensions| > MAX_DIMENSIONS {
      return Err(TooManyDimensions(|dimensions|));
    }
    return Ok(dimensions);
  }

  // ---------- cutting the datums into requests ----------

  function DimensionBytes(dimensions: seq<Pair>): nat {
    if dimensions == [] then 0
    else DimensionBytes(dimensions[..|dimensions| - 1]) + 120 + |dimensions[|dimensions| - 1].0| + |dimensions[|dimensions| - 1].1|
  }

  function EstimateDatumBytes(d: MetricDatum): nat {
    200 + |d.name| + |d.unit| + DimensionBytes(d.dimensions)
  }

  function EstimatedBytes(datums: seq<MetricDatum>, lo: nat, hi: nat): nat
    requires lo <= hi <= |datums|
  {
    if lo == hi then 0 else EstimatedBytes(datums, lo, hi - 1) + EstimateDatumBytes(datums[hi - 1])
  }

  /** A request takes at most 1000 datums, and more than one only while the estimate stays within the budget. */
  predicate WithinBudget(datums: seq<MetricDatum>, lo: nat, hi: nat)
    requires lo <= hi <= |datums|
  {
    0 < hi - lo <= MAX_DATUMS_PER_REQUEST && (hi - lo > 1 ==> EstimatedBytes(datums, lo, hi) <= MAX_REQUEST_BYTES)
  }

  /** The inner loop: how many datums the request starting at offset takes. */
  method GrowRequest(datums: seq<MetricDatum>, offset: nat) returns (batch: nat)
    requires offset < |datums|
    ensures offset + batch <= |datums| && WithinBudget(datums, offset, offset + batch)
    ensures offset + batch < |datums| ==> !WithinBudget(datums, offset, offset + batch + 1)
  {
    hide EstimateDatumBytes;
    batch := 0;
    var bytes := 0;
    while offset + batch < |datums| && batch < MAX_DATUMS_PER_REQUEST
      invariant offset + batch <= |datums| && batch <= MAX_DATUMS_PER_REQUEST
      invariant bytes == EstimatedBytes(datums, offset, offset + batch)
      invariant batch > 0 ==> WithinBudget(datums, offset, offset + batch)
    {
      var next := EstimateDatumBytes(datums[offset + batch]);
      if batch > 0 && bytes + next > MAX_REQUEST_BYTES {
        break;
      }
      bytes := bytes + next;
      batch := batch + 1;
    }
  }

  lemma BudgetIsPositive(datums: seq<MetricDatum>, lo: nat, hi: nat)
    requires lo <= hi <= |datums| && WithinBudget(datums, lo, hi)
    ensures lo < hi
  {
  }

  /** The outer loop: the requests tile the datum list in order, each within its budget and none extensible. */
  method PlanRequests(datums: seq<MetricDatum>) returns (batches: seq<Batch>)
    ensures Tiles(batches, |datums|)
    ensures forall i | 0 <= i < |batches| :: WithinBudget(datums, batches[i].offset, batches[i].End())
    ensures forall i | 0 <= i < |batches| :: batches[i].End() < |datums| ==> !WithinBudget(datums, batches[i].offset, batches[i].End() + 1)
  {
    hide WithinBudget, Start;
    batches := [];
    var offset := 0;
    StartZero(batches);
    while offset < |datums|
      invariant offset <= |datums| && Tiles(batches, offset)
      invariant forall i | 0 <= i < |batches| :: WithinBudget(datums, batches[i].offset, batches[i].End())
      invariant forall i | 0 <= i < |batches| :: batches[i].End() < |datums| ==> !WithinBudget(datums, batches[i].offset, batches[i].End() + 1)
    {
      var batch := GrowRequest(datums, offset);
      assert batch > 0 by { BudgetIsPositive(datums, offset, offset + batch); }
      TilesAppend(batches, offset, offset + batch);
      batches := batches + [Batch(offset, batch)];
      offset := offset + batch;
    }
  }

  // ---------- exact sizes ----------

  /** The encoded length of a pair with its '=' and one separator. */
  function PairSize(p: Pair): nat {
    |Encode(p.0)| + |Encode(p.1)| + 2
  }

  function PairsSize(pairs: seq<Pair>): nat {
    if pairs == [] then 0 else PairsSize(pairs[..|pairs| - 1]) + PairSize(pairs[|pairs| - 1])
  }

  lemma {:induction false} PairsSizeAppend(a: seq<Pair>, b: seq<Pair>)
    ensures PairsSize(a + b) == PairsSize(a) + PairsSize(b)
  {
    hide PairSize;
    if b == [] {
      assert a + b == a;
    } else {
      PairsSizeAppend(a, b[..|b| - 1]);
      assert (a + b)[..|a + b| - 1] == a + b[..|b| - 1];
    }
  }

  lemma PairsSizeOne(p: Pair)
    ensures PairsSize([p]) == PairSize(p)
  {
    hide PairSize;
    var one: seq<Pair> := [p];
    assert one[..0] == [];
  }

  lemma PairsSizeTwo(p: Pair, q: Pair)
    ensures PairsSize([p, q]) == PairSize(p) + PairSize(q)
  {
    hide PairSize, PairsSize;
    PairsSizeOne(p);
    PairsSizeOne(q);
    PairsSizeAppend([p], [q]);
    assert [p] + [q] == [p, q];
  }

  /** The body is as long as its pairs, less the separator the last pair does not have. */
  lemma {:induction false} BodySize(pairs: seq<Pair>)
    requires pairs != []
    ensures |FormBody(pairs)| + 1 == PairsSize(pairs)
  {
    PairsSizeAppend([pairs[0]], pairs[1..]);
    assert [pairs[0]] + pairs[1..] == pairs;
    PairsSizeOne(pairs[0]);
    if |pairs| <= 1 {
    } else {
      BodySize(pairs[1..]);
    }
  }

  predicate AllUnreserved(s: Bytes) {
    forall i | 0 <= i < |s| :: Unreserved(s[i])
  }

  /** How long a text is once percent-encoded. */
  function Wire(s: Bytes): nat {
    |s| + 2 * Reserved(s)
  }

  lemma PlainKeySize(key: Bytes, value: Bytes)
    requires AllUnreserved(key)
    ensures PairSize((key, value)) == |key| + Wire(value) + 2
  {
    EncodeUnreserved(key);
    EncodeLength(value);
  }

  lemma DatumPrefixPlain(i: nat)
    ensures AllUnreserved(DatumPrefix(i)) && |DatumPrefix(i)| == 18 + |ToString(i)|
  {
    assert AllUnreserved("MetricData.member.");
  }

  lemma DimensionPrefixPlain(i: nat, j: nat)
    ensures AllUnreserved(DimensionPrefix(DatumPrefix(i), j))
    ensures |DimensionPrefix(DatumPrefix(i), j)| == 37 + |ToString(i)| + |ToString(j)|
  {
    DatumPrefixPlain(i);
    assert AllUnreserved(".Dimensions.member.");
  }

  // ---------- one dimension ----------

  /** The exact encoded size of dimension j of datum i. */
  function DimensionCost(i: nat, j: nat, p: Pair): nat {
    89 + 2 * |ToString(i)| + 2 * |ToString(j)| + Wire(CStr(p.0)) + Wire(CStr(p.1))
  }

  lemma KeySize(prefix: Bytes, name: Bytes, value: Bytes)
    requires AllUnreserved(prefix) && AllUnreserved(name)
    ensures PairSize((prefix + name, value)) == |prefix| + |name| + Wire(value) + 2
  {
    PlainKeySize(prefix + name, value);
  }

  lemma DimensionSize(i: nat, j: nat, p: Pair)
    ensures PairsSize(Prefixed(DimensionPrefix(DatumPrefix(i), j), DimensionFields(p))) == DimensionCost(i, j, p)
  {
    hide CStr, Wire, PairsSize, PairSize, DimensionPrefix, ToString;
    var prefix := DimensionPrefix(DatumPrefix(i), j);
    DimensionPrefixPlain(i, j);
    KeySize(prefix, ".Name", CStr(p.0));
    KeySize(prefix, ".Value", CStr(p.1));
    var a, b := (prefix + ".Name", CStr(p.0)), (prefix + ".Value", CStr(p.1));
    PairsSizeTwo(a, b);
    assert Prefixed(prefix, DimensionFields(p)) == [a, b];
  }

  function DimensionsCost(i: nat, dimensions: seq<Pair>): nat {
    if dimensions == [] then 0
    else DimensionsCost(i, dimensions[..|dimensions| - 1]) + DimensionCost(i, |dimensions|, dimensions[|dimensions| - 1])
  }

  /** One more group adds its own pairs behind its index. */
  lemma IndexedSize(prefix: Bytes, groups: seq<seq<Pair>>, start: nat)
    requires groups != []
    ensures var n := |groups| - 1;
            PairsSize(Prefixed(prefix, Indexed(groups, start))) ==
            PairsSize(Prefixed(prefix, Indexed(groups[..n], start))) + PairsSize(Prefixed(prefix + ToString(start + n), groups[n]))
  {
    hide PairsSize, ToString;
    var n := |groups| - 1;
    var front, last := Indexed(groups[..n], start), Prefixed(ToString(start + n), groups[n]);
    PrefixedJoins(prefix, ToString(start + n), groups[n], []);
    PrefixedJoins(prefix, [], front, last);
    PairsSizeAppend(Prefixed(prefix, front), Prefixed(prefix, last));
  }

  lemma {:induction false} DimensionsSize(i: nat, dimensions: seq<Pair>)
    ensures PairsSize(Prefixed(DatumPrefix(i) + DIMENSION_KEY, Indexed(DimensionGroups(dimensions), 1))) == DimensionsCost(i, dimensions)
  {
    hide DimensionCost, DimensionFields, ToString, DatumPrefix;
    var prefix := DatumPrefix(i) + DIMENSION_KEY;
    if dimensions == [] {
    } else {
      var n := |dimensions| - 1;
      DimensionsSize(i, dimensions[..n]);
      DimensionSize(i, n + 1, dimensions[n]);
      IndexedSize(prefix, DimensionGroups(dimensions), 1);
      assert DimensionGroups(dimensions)[..n] == DimensionGroups(dimensions[..n]);
    }
  }

  // ---------- one datum ----------

  /** The exact encoded size of datum i's fields. */
  function DatumCost(fmt: Formats, i: nat, d: MetricDatum): nat
    requires d.value.Finite?
  {
    112 + 4 * |ToString(i)| + Wire(CStr(d.name)) + Wire(fmt.iso(d.timestampSeconds)) + Wire(fmt.number(d.value.value)) +
    Wire(CStr(d.unit)) + DimensionsCost(i, d.dimensions)
  }

  lemma ScalarsSize(fmt: Formats, i: nat, d: MetricDatum)
    requires d.value.Finite?
    ensures PairsSize(Prefixed(DatumPrefix(i), ScalarFields(fmt, d))) + DimensionsCost(i, d.dimensions) == DatumCost(fmt, i, d)
  {
    hide CStr, Wire, PairsSize, PairSize, DatumPrefix, ToString, DimensionsCost;
    var prefix := DatumPrefix(i);
    DatumPrefixPlain(i);
    var iso, number := fmt.iso(d.timestampSeconds), fmt.number(d.value.value);
    KeySize(prefix, ".MetricName", CStr(d.name));
    KeySize(prefix, ".Timestamp", iso);
    KeySize(prefix, ".Value", number);
    KeySize(prefix, ".Unit", CStr(d.unit));
    var a, b := (prefix + ".MetricName", CStr(d.name)), (prefix + ".Timestamp", iso);
    var c, e := (prefix + ".Value", number), (prefix + ".Unit", CStr(d.unit));
    PairsSizeTwo(a, b);
    PairsSizeTwo(c, e);
    PairsSizeAppend([a, b], [c, e]);
    assert Prefixed(prefix, ScalarFields(fmt, d)) == [a, b] + [c, e];
  }

  lemma DatumSize(fmt: Formats, i: nat, d: MetricDatum)
    requires d.value.Finite?
    ensures PairsSize(Prefixed(DatumPrefix(i), DatumFields(fmt, d))) == DatumCost(fmt, i, d)
  {
    hide PairsSize, DatumPrefix, ToString, DimensionsCost, DatumCost, ScalarFields, Indexed;
    ScalarsSize(fmt, i, d);
    DimensionsSize(i, d.dimensions);
    var prefix, dims := DatumPrefix(i), Indexed(DimensionGroups(d.dimensions), 1);
    PrefixedJoins(prefix, DIMENSION_KEY, dims, []);
    PrefixedJoins(prefix, [], ScalarFields(fmt, d), DimensionPairs(d));
    PairsSizeAppend(Prefixed(prefix, ScalarFields(fmt, d)), Prefixed(prefix, DimensionPairs(d)));
  }

  // ---------- the whole body ----------

  function DatumsCost(fmt: Formats, datums: seq<MetricDatum>): nat
    requires AllFinite(datums)
  {
    if datums == [] then 0
    else DatumsCost(fmt, datums[..|datums| - 1]) + DatumCost(fmt, |datums|, datums[|datums| - 1])
  }

  lemma {:induction false} DatumsSize(fmt: Formats, datums: seq<MetricDatum>)
    requires AllFinite(datums)
    ensures PairsSize(Prefixed(DATUM_KEY, Indexed(DatumGroups(fmt, datums), 1))) == DatumsCost(fmt, datums)
  {
    hide DatumCost, DatumFields, ToString;
    if datums == [] {
    } else {
      var n := |datums| - 1;
      DatumsSize(fmt, datums[..n]);
      DatumSize(fmt, n + 1, datums[n]);
      IndexedSize(DATUM_KEY, DatumGroups(fmt, datums), 1);
      assert DatumGroups(fmt, datums)[..n] == DatumGroups(fmt, datums[..n]);
    }
  }

  lemma PlainPair(key: Bytes, value: Bytes)
    requires AllUnreserved(key) && AllUnreserved(value)
    ensures PairSize((key, value)) == |key| + |value| + 2
  {
    EncodeUnreserved(key);
    EncodeUnreserved(value);
  }

  lemma HeaderSize()
    ensures PairsSize(Header("PutMetricData")) == 40
  {
    hide PairsSize, PairSize;
    PairsSizeTwo(("Action", "PutMetricData"), ("Version", "2010-08-01"));
    assert PairSize(("Action", "PutMetricData")) == 21 by { PlainPair("Action", "PutMetricData"); }
    assert PairSize(("Version", "2010-08-01")) == 19 by { PlainPair("Version", "2010-08-01"); }
  }

  /** The exact length of the encoded body of a request. */
  lemma BodyLength(fmt: Formats, namespace: Bytes, datums: seq<MetricDatum>)
    requires AllFinite(datums)
    ensures |FormBody(RequestPairs(fmt, namespace, datums))| == 50 + Wire(CStr(namespace)) + DatumsCost(fmt, datums)
  {
    hide PairsSize, PairSize, CStr, Wire, DatumsCost, Indexed, FormBody;
    var rest := Prefixed(DATUM_KEY, Indexed(DatumGroups(fmt, datums), 1));
    var front := Header("PutMetricData") + [("Namespace", CStr(namespace))];
    DatumsSize(fmt, datums);
    HeaderSize();
    PlainKeySize("Namespace", CStr(namespace));
    PairsSizeOne(("Namespace", CStr(namespace)));
    PairsSizeAppend(Header("PutMetricData"), [("Namespace", CStr(namespace))]);
    PairsSizeAppend(front, rest);
    BodySize(RequestPairs(fmt, namespace, datums));
  }

  // ---------- the estimate is an upper bound ----------

  function ReservedOfDimensions(dimensions: seq<Pair>): nat {
    if dimensions == [] then 0
    else ReservedOfDimensions(dimensions[..|dimensions| - 1]) + Reserved(dimensions[|dimensions| - 1].0) + Reserved(dimensions[|dimensions| - 1].1)
  }

  /** The string bytes of a datum that percent-encoding triples. */
  function ReservedOf(d: MetricDatum): nat {
    Reserved(d.name) + Reserved(d.unit) + ReservedOfDimensions(d.dimensions)
  }

  /** What the library's text forms take: 20 bytes with two colons, and at most 24 with at most one plus sign. */
  predicate FormatsBounded(fmt: Formats, d: MetricDatum) {
    && d.value.Finite?
    && |fmt.iso(d.timestampSeconds)| <= 20 && Reserved(fmt.iso(d.timestampSeconds)) <= 2
    && |fmt.number(d.value.value)| <= 24 && Reserved(fmt.number(d.value.value)) <= 1
  }

  /** A string cut at its first NUL is no longer and has no more reserved bytes. */
  lemma {:induction false} CStrCost(s: Bytes)
    ensures Wire(CStr(s)) <= Wire(s)
  {
    if s == [] || s[0] == '\0' {
    } else {
      CStrCost(s[1..]);
      assert CStr(s)[1..] == CStr(s[1..]);
    }
  }

  lemma DigitCount(n: nat)
    ensures n < 100 ==> |ToString(n)| <= 2
    ensures n <= 1000 ==> |ToString(n)| <= 4
  {
    if n >= 10 && n >= 100 {
      assert |ToString(n / 10)| == if n / 10 < 10 then 1 else |ToString(n / 100)| + 1;
      if n >= 1000 {
        assert n <= 1000 ==> |ToString(n / 100)| == 2;
      }
    }
  }

  lemma {:induction false} DimensionsEstimate(i: nat, dimensions: seq<Pair>)
    requires i <= MAX_DATUMS_PER_REQUEST && |dimensions| <= MAX_DIMENSIONS
    ensures DimensionsCost(i, dimensions) + 19 * |dimensions| <= DimensionBytes(dimensions) + 2 * ReservedOfDimensions(dimensions)
  {
    hide CStr, ToString, Reserved;
    if dimensions == [] {
    } else {
      var n := |dimensions| - 1;
      DimensionsEstimate(i, dimensions[..n]);
      DigitCount(i);
      DigitCount(n + 1);
      CStrCost(dimensions[n].0);
      CStrCost(dimensions[n].1);
    }
  }

  /** A datum's fields never take more than the estimate and two bytes for every byte that has to be percent-encoded. */
  lemma EstimateBounds(fmt: Formats, i: nat, d: MetricDatum)
    requires i <= MAX_DATUMS_PER_REQUEST && |d.dimensions| <= MAX_DIMENSIONS && FormatsBounded(fmt, d)
    ensures DatumCost(fmt, i, d) <= EstimateDatumBytes(d) + 2 * ReservedOf(d)
  {
    hide CStr, ToString, Reserved, DimensionsCost, DimensionBytes, ReservedOfDimensions;
    DimensionsEstimate(i, d.dimensions);
    DigitCount(i);
    CStrCost(d.name);
    CStrCost(d.unit);
  }

  function ReservedOfAll(datums: seq<MetricDatum>, lo: nat, hi: nat): nat
    requires lo <= hi <= |datums|
  {
    if lo == hi then 0 else ReservedOfAll(datums, lo, hi - 1) + ReservedOf(datums[hi - 1])
  }

  predicate Sendable(fmt: Formats, datums: seq<MetricDatum>) {
    forall i | 0 <= i < |datums| :: FormatsBounded(fmt, datums[i]) && |datums[i].dimensions| <= MAX_DIMENSIONS
  }

  lemma {:induction false} DatumsEstimate(fmt: Formats, datums: seq<MetricDatum>, lo: nat, hi: nat)
    requires lo <= hi <= |datums| && hi - lo <= MAX_DATUMS_PER_REQUEST
    requires Sendable(fmt, datums) && AllFinite(datums)
    ensures DatumsCost(fmt, datums[lo..hi]) <= EstimatedBytes(datums, lo, hi) + 2 * ReservedOfAll(datums, lo, hi)
  {
    hide EstimateDatumBytes, ReservedOf, DatumCost;
    if lo == hi {
    } else {
      DatumsEstimate(fmt, datums, lo, hi - 1);
      EstimateBounds(fmt, hi - lo, datums[hi - 1]);
      assert datums[lo..hi][..hi - lo - 1] == datums[lo..hi - 1];
    }
  }

  /**
   * A planned request of two or more datums stays under the service's body limit whenever the bytes
   * to be percent-encoded and the namespace leave room for it; with none, always.
   */
  lemma PlannedBodyFits(fmt: Formats, namespace: Bytes, datums: seq<MetricDatum>, lo: nat, hi: nat)
    requires lo + 1 < hi <= |datums| && WithinBudget(datums, lo, hi)
    requires Sendable(fmt, datums) && AllFinite(datums)
    ensures var body := FormBody(RequestPairs(fmt, namespace, datums[lo..hi]));
            && |body| <= MAX_REQUEST_BYTES + 50 + Wire(CStr(namespace)) + 2 * ReservedOfAll(datums, lo, hi)
            && (Wire(CStr(namespace)) + 2 * ReservedOfAll(datums, lo, hi) < 199950 ==> |body| < BODY_LIMIT)
  {
    hide CStr, Wire, FormBody, RequestPairs, DatumsCost, EstimatedBytes, ReservedOfAll;
    DatumsEstimate(fmt, datums, lo, hi);
    BodyLength(fmt, namespace, datums[lo..hi]);
  }

  // ---------- exactly when the estimate and the body hold ----------

  /** What a string adds to its own length on the wire: two bytes per escape, less what its first NUL cuts off. */
  function Growth(s: Bytes): int {
    2 * Reserved(CStr(s)) - (|s| - |CStr(s)|)
  }

  /** The dimensions' growth and digits, less the 31 bytes each that the estimate is generous by. */
  function DimensionsGrowth(i: nat, dimensions: seq<Pair>): int {
    if dimensions == [] then 0
    else
      var n := |dimensions| - 1;
      DimensionsGrowth(i, dimensions[..n]) + Growth(dimensions[n].0) + Growth(dimensions[n].1) +
      2 * |ToString(i)| + 2 * |ToString(n + 1)| - 31
  }

  /** By how much datum i's fields exceed its estimate: digits, text forms and escapes against the 88 bytes to spare. */
  function DatumGrowth(fmt: Formats, i: nat, d: MetricDatum): int
    requires d.value.Finite?
  {
    4 * |ToString(i)| + Wire(fmt.iso(d.timestampSeconds)) + Wire(fmt.number(d.value.value)) +
    Growth(d.name) + Growth(d.unit) + DimensionsGrowth(i, d.dimensions) - 88
  }

  lemma GrowthIsWire(s: Bytes)
    ensures Wire(CStr(s)) == |s| + Growth(s)
  {
  }

  lemma {:induction false} DimensionsExcess(i: nat, dimensions: seq<Pair>)
    ensures DimensionsCost(i, dimensions) == DimensionBytes(dimensions) + DimensionsGrowth(i, dimensions)
  {
    hide Wire, Growth, CStr, ToString;
    if dimensions == [] {
    } else {
      var n := |dimensions| - 1;
      DimensionsExcess(i, dimensions[..n]);
      GrowthIsWire(dimensions[n].0);
      GrowthIsWire(dimensions[n].1);
    }
  }

  /** A datum's fields stay within its estimate exactly when digits, text forms and escapes fit what is to spare. */
  lemma EstimateHoldsExactly(fmt: Formats, i: nat, d: MetricDatum)
    requires d.value.Finite?
    ensures DatumCost(fmt, i, d) == EstimateDatumBytes(d) + DatumGrowth(fmt, i, d)
    ensures DatumCost(fmt, i, d) <= EstimateDatumBytes(d) <==> DatumGrowth(fmt, i, d) <= 0
  {
    hide Wire, Growth, CStr, ToString, DimensionsCost, DimensionBytes, DimensionsGrowth;
    DimensionsExcess(i, d.dimensions);
    GrowthIsWire(d.name);
    GrowthIsWire(d.unit);
  }

  /** Any request, of one datum or of many, stays under the service's body limit exactly when its fields and namespace leave room. */
  lemma BodyFitsExactly(fmt: Formats, namespace: Bytes, datums: seq<MetricDatum>, lo: nat, hi: nat)
    requires lo < hi <= |datums| && AllFinite(datums)
    ensures |FormBody(RequestPairs(fmt, namespace, datums[lo..hi]))| < BODY_LIMIT <==>
            Wire(CStr(namespace)) + DatumsCost(fmt, datums[lo..hi]) < BODY_LIMIT - 50
  {
    hide CStr, Wire, FormBody, RequestPairs, DatumsCost;
    BodyLength(fmt, namespace, datums[lo..hi]);
  }

  // ---------- where the estimate falls short ----------

  /** The unit a datum carries: CloudWatch's name for it, and None for everything it has no name for. */
  function CloudwatchUnit(unit: Bytes): (r: Bytes)
    ensures r != []
  {
    match unit
    case "s" => "Seconds"
    case "ms" => "Milliseconds"
    case "us" => "Microseconds"
    case "By" => "Bytes"
    case "bytes" => "Bytes"
    case "KiBy" => "Kilobytes"
    case "MiBy" => "Megabytes"
    case "GiBy" => "Gigabytes"
    case "Bi" => "Bits"
    case "%" => "Percent"
    case _ => if |unit| >= 2 && unit[0] == '{' && unit[|unit| - 1] == '}' then "Count" else "None"
  }

  predicate Braced(unit: Bytes) {
    |unit| >= 2 && unit[0] == '{' && unit[|unit| - 1] == '}'
  }

  /** Which texts stand for a time or a share: seconds and their parts, and percent. */
  lemma TimeUnits(unit: Bytes)
    ensures CloudwatchUnit(unit) == "Seconds" <==> unit == "s"
    ensures CloudwatchUnit(unit) == "Milliseconds" <==> unit == "ms"
    ensures CloudwatchUnit(unit) == "Microseconds" <==> unit == "us"
    ensures CloudwatchUnit(unit) == "Percent" <==> unit == "%"
  {
  }

  /** Which stand for an amount of data. */
  lemma DataUnits(unit: Bytes)
    ensures CloudwatchUnit(unit) == "Bytes" <==> unit == "By" || unit == "bytes"
    ensures CloudwatchUnit(unit) == "Kilobytes" <==> unit == "KiBy"
    ensures CloudwatchUnit(unit) == "Megabytes" <==> unit == "MiBy"
    ensures CloudwatchUnit(unit) == "Gigabytes" <==> unit == "GiBy"
    ensures CloudwatchUnit(unit) == "Bits" <==> unit == "Bi"
  {
  }

  /** Anything in braces is a count, and what has no name is None. */
  lemma OtherUnits(unit: Bytes)
    ensures CloudwatchUnit(unit) == "Count" <==> Braced(unit)
    ensures CloudwatchUnit(unit) in {"Seconds", "Milliseconds", "Microseconds", "Bytes", "Kilobytes", "Megabytes", "Gigabytes", "Bits", "Percent", "Count", "None"}
  {
  }

  function Percents(n: nat): (r: Bytes)
    ensures |r| == n && '\0' !in r
  {
    if n == 0 then [] else ['%'] + Percents(n - 1)
  }

  lemma {:induction false} PercentsReserved(n: nat)
    ensures Reserved(Percents(n)) == n
  {
    if n == 0 {
    } else {
      PercentsReserved(n - 1);
    }
  }

  /** A datum as the sender builds it from a row without a unit. */
  predicate IsHeavy(d: MetricDatum) {
    d.value.Finite? && d.name == Percents(399000) && d.unit == CloudwatchUnit([]) && d.dimensions == []
  }

  lemma HeavyDatum(fmt: Formats, i: nat, d: MetricDatum)
    requires IsHeavy(d)
    ensures EstimateDatumBytes(d) == 399204 && DatumCost(fmt, i, d) > 1197000 && DatumGrowth(fmt, i, d) > 0
  {
    hide Percents;
    PercentsReserved(399000);
    EstimateHoldsExactly(fmt, i, d);
  }

  lemma HeavyIsFinite(d: MetricDatum)
    requires IsHeavy(d)
    ensures d.value.Finite?
  {
  }

  /** The estimate counts a percent-encoded byte once: two such names pass the budget and overflow the body limit. */
  lemma EstimateCanFallShort(fmt: Formats, namespace: Bytes, d: MetricDatum)
    requires IsHeavy(d)
    ensures WithinBudget([d, d], 0, 2) && |FormBody(RequestPairs(fmt, namespace, [d, d]))| > BODY_LIMIT
  {
    hide IsHeavy, EstimateDatumBytes, DatumCost, DatumGrowth, FormBody, RequestPairs, Wire, CStr;
    HeavyDatum(fmt, 2, d);
    var datums := [d, d];
    assert AllFinite(datums) by { HeavyIsFinite(d); }
    assert EstimatedBytes(datums, 0, 1) == EstimateDatumBytes(d);
    BodyLength(fmt, namespace, datums);
    assert DatumsCost(fmt, datums) >= DatumCost(fmt, 2, d);
  }
}
