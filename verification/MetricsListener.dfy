/**
 * PutMetricData in the listener (src/cloudwatch_server.cpp): rows are reassembled from the flat
 * form fields by indexed lookups.
 */
module MetricsListener {
  import opened Strings
  import opened QueryCodec
  import opened JsonTrees
  import opened MetricsWire

  datatype MetricRow = MetricRow(
    namespace: Bytes,
    name: Bytes,
    timestampMs: int,
    value: Double,
    unit: Bytes,
    dimensions: seq<Pair>)

  datatype MetricError = MissingParameter | InvalidParameterValue

  const DATUM_KEY: Bytes := "MetricData.member."
  const DIMENSION_KEY: Bytes := ".Dimensions.member."

  function DatumPrefix(index: nat): Bytes {
    DATUM_KEY + ToString(index)
  }

  function DimensionPrefix(datum: Bytes, index: nat): Bytes {
    datum + DIMENSION_KEY + ToString(index)
  }

  // ---------- termination: indexed keys are distinct, so a finite map runs out of them ----------

  /** The keys with indices 1..n are all present. */
  predicate HasKeys(fields: map<Bytes, Bytes>, prefix: Bytes, suffix: Bytes, n: nat) {
    forall i: nat | 1 <= i <= n :: prefix + ToString(i) + suffix in fields
  }

  lemma IndexedKeyInjective(prefix: Bytes, suffix: Bytes, i: nat, j: nat)
    requires Dotted(suffix) && prefix + ToString(i) + suffix == prefix + ToString(j) + suffix
    ensures i == j
  {
    assert (prefix + ToString(i) + suffix)[|prefix|..] == ToString(i) + suffix;
    assert (prefix + ToString(j) + suffix)[|prefix|..] == ToString(j) + suffix;
    NumeralPrefix(i, suffix, j, suffix);
  }

  lemma {:induction false} IndexedKeysBounded(fields: map<Bytes, Bytes>, prefix: Bytes, suffix: Bytes, n: nat)
    requires Dotted(suffix)
    requires HasKeys(fields, prefix, suffix, n)
    ensures n <= |fields|
  {
    if n == 0 {
    } else {
      var key := prefix + ToString(n) + suffix;
      var rest := fields - {key};
      forall i: nat | 1 <= i <= n - 1 ensures prefix + ToString(i) + suffix in rest {
        if prefix + ToString(i) + suffix == key {
          IndexedKeyInjective(prefix, suffix, i, n);
        }
      }
      IndexedKeysBounded(rest, prefix, suffix, n - 1);
      assert |rest| == |fields| - 1 by {
        assert fields.Keys == rest.Keys + {key};
      }
    }
  }

  // ---------- lookups ----------

  /** Dimensions from number d on, up to the first missing name or value. */
  function ReadDimensions(fields: map<Bytes, Bytes>, datum: Bytes, d: nat): seq<Pair>
    requires d >= 1 && HasKeys(fields, datum + DIMENSION_KEY, ".Name", d - 1)
    decreases |fields| + 1 - d
  {
    IndexedKeysBounded(fields, datum + DIMENSION_KEY, ".Name", d - 1);
    var prefix := DimensionPrefix(datum, d);
    if prefix + ".Name" !in fields || prefix + ".Value" !in fields then []
    else
      IndexedKeysBounded(fields, datum + DIMENSION_KEY, ".Name", d);
      [(fields[prefix + ".Name"], fields[prefix + ".Value"])] + ReadDimensions(fields, datum, d + 1)
  }

  /** The row of one datum whose name field is present. */
  function ReadDatum(fmt: Formats, fields: map<Bytes, Bytes>, namespace: Bytes, prefix: Bytes, nowMs: int): Result<MetricRow, MetricError>
    requires prefix + ".MetricName" in fields
  {
    if prefix + ".Value" !in fields then Err(MissingParameter)
    else
      var timestamp := if prefix + ".Timestamp" in fields then fmt.parseIso(fields[prefix + ".Timestamp"]) else Some(nowMs);
      if timestamp.None? then Err(InvalidParameterValue)
      else
        Ok(MetricRow(
          namespace,
          fields[prefix + ".MetricName"],
          timestamp.value,
          fmt.parseNumber(fields[prefix + ".Value"]),
          if prefix + ".Unit" in fields then fields[prefix + ".Unit"] else "None",
          ReadDimensions(fields, prefix, 1)))
  }

  function WithRows(added: seq<MetricRow>, rest: Result<seq<MetricRow>, MetricError>): Result<seq<MetricRow>, MetricError> {
    if rest.Err? then rest else Ok(added + rest.value)
  }

  /** The rows of the datums from number index on, up to the first missing name. */
  function ReadDatums(fmt: Formats, fields: map<Bytes, Bytes>, namespace: Bytes, nowMs: int, index: nat): Result<seq<MetricRow>, MetricError>
    requires index >= 1 && HasKeys(fields, DATUM_KEY, ".MetricName", index - 1)
    decreases |fields| + 1 - index
  {
    IndexedKeysBounded(fields, DATUM_KEY, ".MetricName", index - 1);
    var prefix := DatumPrefix(index);
    if prefix + ".MetricName" !in fields then Ok([])
    else
      IndexedKeysBounded(fields, DATUM_KEY, ".MetricName", index);
      var row := ReadDatum(fmt, fields, namespace, prefix, nowMs);
      if row.Err? then Err(row.error)
      else
        WithRows([row.value], ReadDatums(fmt, fields, namespace, nowMs, index + 1))
  }

  lemma WithRowsJoins(a: seq<MetricRow>, b: seq<MetricRow>, rest: Result<seq<MetricRow>, MetricError>)
    ensures WithRows(a, WithRows(b, rest)) == WithRows(a + b, rest)
    ensures WithRows([], rest) == rest
  {
    if rest.Ok? {
      assert a + (b + rest.value) == a + b + rest.value;
      assert [] + rest.value == rest.value;
    }
  }

  lemma WithRowsEnds(added: seq<MetricRow>)
    ensures WithRows(added, Ok([])) == Ok(added)
    ensures forall e :: WithRows(added, Err(e)) == Err(e)
  {
    assert added + [] == added;
  }

  /** The rows a PutMetricData request adds, or the error it is answered with. */
  function PutMetricRows(fmt: Formats, fields: map<Bytes, Bytes>, nowMs: int): Result<seq<MetricRow>, MetricError> {
    if "Namespace" !in fields || fields["Namespace"] == [] then Err(MissingParameter)
    else
      var rows := ReadDatums(fmt, fields, fields["Namespace"], nowMs, 1);
      if rows.Ok? && rows.value == [] then Err(MissingParameter) else rows
  }

  // ---------- the handler ----------

  class MetricTable {
    var rows: seq<MetricRow>
    var totalRequests: nat
    var totalRows: nat

    constructor ()
      ensures rows == [] && totalRequests == 0 && totalRows == 0
    {
      rows, totalRequests, totalRows := [], 0, 0;
    }

    method CollectDimensions(fields: map<Bytes, Bytes>, datum: Bytes) returns (dimensions: seq<Pair>)
      ensures dimensions == ReadDimensions(fields, datum, 1)
    {
      dimensions := [];
      var d := 1;
      while DimensionPrefix(datum, d) + ".Name" in fields && DimensionPrefix(datum, d) + ".Value" in fields
        invariant d >= 1 && HasKeys(fields, datum + DIMENSION_KEY, ".Name", d - 1)
        invariant dimensions + ReadDimensions(fields, datum, d) == ReadDimensions(fields, datum, 1)
        decreases |fields| + 1 - d
      {
        IndexedKeysBounded(fields, datum + DIMENSION_KEY, ".Name", d);
        dimensions := dimensions + [(fields[DimensionPrefix(datum, d) + ".Name"], fields[DimensionPrefix(datum, d) + ".Value"])];
        d := d + 1;
      }
    }

    /** Nothing is stored unless every datum reads back. */
    method PutMetricData(fmt: Formats, body: Bytes, nowMs: int) returns (error: Option<MetricError>)
      modifies this
      ensures var outcome := PutMetricRows(fmt, FieldMap(ParsePairs(body)), nowMs);
              match outcome
              case Err(e) => error == Some(e) && rows == old(rows) && totalRequests == old(totalRequests) && totalRows == old(totalRows)
              case Ok(added) =>
                && error == None && rows == old(rows) + added
                && totalRequests == old(totalRequests) + 1 && totalRows == old(totalRows) + |added|
    {
      hide ReadDatum, ParsePairs, FieldMap, WithRows;
      var fields := ParseFormBody(body);
      if "Namespace" !in fields || fields["Namespace"] == [] {
        return Some(MissingParameter);
      }
      var namespace := fields["Namespace"];
      var added: seq<MetricRow> := [];
      var index := 1;
      error := None;
      WithRowsJoins([], [], ReadDatums(fmt, fields, namespace, nowMs, 1));
      while error.None? && DatumPrefix(index) + ".MetricName" in fields
        invariant index >= 1 && HasKeys(fields, DATUM_KEY, ".MetricName", index - 1)
        invariant unchanged(this)
        invariant index == 1 ==> added == []
        invariant var whole := ReadDatums(fmt, fields, namespace, nowMs, 1);
                  if error.Some? then whole == Err(error.value)
                  else whole == WithRows(added, ReadDatums(fmt, fields, namespace, nowMs, index))
        decreases error.None?, |fields| + 1 - index
      {
        IndexedKeysBounded(fields, DATUM_KEY, ".MetricName", index);
        var row := BuildRow(fmt, fields, namespace, DatumPrefix(index), nowMs);
        WithRowsEnds(added);
        if row.Err? {
          error := Some(row.error);
        } else {
          WithRowsJoins(added, [row.value], ReadDatums(fmt, fields, namespace, nowMs, index + 1));
          added := added + [row.value];
          index := index + 1;
        }
      }
      if error.Some? {
        return;
      }
      WithRowsEnds(added);
      if added == [] {
        return Some(MissingParameter);
      }
      rows := rows + added;
      totalRequests := totalRequests + 1;
      totalRows := totalRows + |added|;
    }

    method BuildRow(fmt: Formats, fields: map<Bytes, Bytes>, namespace: Bytes, prefix: Bytes, nowMs: int) returns (row: Result<MetricRow, MetricError>)
      requires prefix + ".MetricName" in fields
      ensures row == ReadDatum(fmt, fields, namespace, prefix, nowMs)
    {
      if prefix + ".Value" !in fields {
        return Err(MissingParameter);
      }
      var dimensions := CollectDimensions(fields, prefix);
      var timestampMs := nowMs;
      if prefix + ".Timestamp" in fields {
        var parsed := fmt.parseIso(fields[prefix + ".Timestamp"]);
        if parsed.None? {
          return Err(InvalidParameterValue);
        }
        timestampMs := parsed.value;
      }
      var unit := if prefix + ".Unit" in fields then fields[prefix + ".Unit"] else "None";
      return Ok(MetricRow(namespace, fields[prefix + ".MetricName"], timestampMs, fmt.parseNumber(fields[prefix + ".Value"]), unit, dimensions));
    }
  }
}
