/**
 * FilterLogEvents in the listener (src/cloudwatch_server.cpp): a filtered, ordered query over
 * the events table, answered page by page with a decimal offset as the page token.
 */
module LogQuery {
  import opened Strings
  import opened Doubles
  import opened Listener

  /** The request as the JSON accessors read it; an absent string reads as empty. */
  datatype FilterRequest = FilterRequest(
    logGroup: Bytes,
    startTime: Option<Number>,
    endTime: Option<Number>,
    limit: Option<Number>,
    startFromHead: Option<bool>,
    filterPattern: Bytes,
    streamPrefix: Bytes,
    streams: seq<Bytes>,
    nextToken: Bytes)

  datatype LogEvent = LogEvent(timestampMs: int, ingestionMs: int, eventId: Bytes, logStreamName: Bytes, message: Bytes)

  datatype Page = Page(events: seq<LogEvent>, nextToken: Bytes)

  datatype QueryError = InvalidParameterException | InternalFailure

  // ---------- the WHERE clause ----------

  /** The substring a filter pattern asks for, or the error for syntax the listener does not support. */
  function FilterPatternSubstring(pattern: Bytes): Result<Bytes, QueryError> {
    var trimmed := Trim(pattern);
    if trimmed == [] then Ok([])
    else if trimmed[0] == '{' || trimmed[0] == '[' then Err(InvalidParameterException)
    else if trimmed[0] == '"' && trimmed[|trimmed| - 1] == '"' && |trimmed| >= 2 then Ok(trimmed[1..|trimmed| - 1])
    else if ' ' in trimmed || '?' in trimmed then Err(InvalidParameterException)
    else Ok(trimmed)
  }

  function IntOr(value: Option<Number>, fallback: int): int {
    if value.Some? then GetNumber(value.value) else fallback
  }

  predicate InWindow(timestampMs: int, startMs: int, endMs: int) {
    if endMs > 0 then startMs <= timestampMs < endMs
    else if startMs > 0 then startMs <= timestampMs
    else true
  }

  predicate Matches(req: FilterRequest, substring: Bytes, row: EventRow) {
    && row.logGroup == req.logGroup
    && InWindow(row.timestampMs, IntOr(req.startTime, 0), IntOr(req.endTime, 0))
    && (substring != [] ==> Contains(row.message, substring))
    && (req.streamPrefix != [] ==> StartsWith(row.logStream, req.streamPrefix))
    && (req.streams != [] ==> row.logStream in req.streams)
  }

  function Select(rows: seq<EventRow>, req: FilterRequest, substring: Bytes): seq<EventRow> {
    if rows == [] then []
    else
      var last := rows[|rows| - 1];
      Select(rows[..|rows| - 1], req, substring) + (if Matches(req, substring, last) then [last] else [])
  }

  lemma {:induction false} SelectMember(rows: seq<EventRow>, req: FilterRequest, substring: Bytes, row: EventRow)
    ensures row in Select(rows, req, substring) <==> row in rows && Matches(req, substring, row)
  {
    hide Matches;
    if rows == [] {
    } else {
      SelectMember(rows[..|rows| - 1], req, substring, row);
      assert rows == rows[..|rows| - 1] + [rows[|rows| - 1]];
    }
  }

  lemma SelectOne(rows: seq<EventRow>, row: EventRow, req: FilterRequest, substring: Bytes)
    ensures Select(rows + [row], req, substring) == Select(rows, req, substring) + (if Matches(req, substring, row) then [row] else [])
  {
    hide Matches;
    assert (rows + [row])[..|rows|] == rows;
  }

  lemma {:induction false} SelectAppend(a: seq<EventRow>, b: seq<EventRow>, req: FilterRequest, substring: Bytes)
    ensures Select(a + b, req, substring) == Select(a, req, substring) + Select(b, req, substring)
  {
    hide Matches;
    if b == [] {
      assert a + b == a;
    } else {
      var front, last := b[..|b| - 1], b[|b| - 1];
      SelectAppend(a, front, req, substring);
      SelectOne(a + front, last, req, substring);
      SelectOne(front, last, req, substring);
      hide Select;
      assert a + b == (a + front) + [last] && b == front + [last];
    }
  }

  // ---------- the ORDER BY clause ----------

  predicate KeyLess(a: EventRow, b: EventRow) {
    a.timestampMs < b.timestampMs || (a.timestampMs == b.timestampMs && LexLess(a.eventId, b.eventId))
  }

  predicate Before(ascending: bool, a: EventRow, b: EventRow) {
    if ascending then KeyLess(a, b) else KeyLess(b, a)
  }

  predicate Ordered(rows: seq<EventRow>, ascending: bool) {
    forall i, j | 0 <= i < j < |rows| :: !Before(ascending, rows[j], rows[i])
  }

  function InsertRow(rows: seq<EventRow>, row: EventRow, ascending: bool): seq<EventRow> {
    if rows == [] || !Before(ascending, row, rows[|rows| - 1]) then rows + [row]
    else InsertRow(rows[..|rows| - 1], row, ascending) + [rows[|rows| - 1]]
  }

  function OrderBy(rows: seq<EventRow>, ascending: bool): seq<EventRow> {
    if rows == [] then [] else InsertRow(OrderBy(rows[..|rows| - 1], ascending), rows[|rows| - 1], ascending)
  }

  /** !Before is a total preorder. */
  lemma NotBeforeTransitive(ascending: bool, a: EventRow, b: EventRow, c: EventRow)
    ensures Before(ascending, a, b) ==> !Before(ascending, b, a)
    ensures !Before(ascending, b, a) && !Before(ascending, c, b) ==> !Before(ascending, c, a)
  {
    var x, y, z := a.eventId, b.eventId, c.eventId;
    LexOrder(x, y, z);
    LexOrder(z, x, y);
    LexOrder(y, z, x);
    LexOrder(x, z, y);
    LexOrder(z, y, x);
    LexOrder(y, x, z);
  }

  lemma AppendLast(inner: seq<EventRow>, source: seq<EventRow>, last: EventRow, ascending: bool)
    requires Ordered(inner, ascending) && multiset(inner) == multiset(source)
    requires forall i | 0 <= i < |source| :: !Before(ascending, last, source[i])
    ensures Ordered(inner + [last], ascending) && multiset(inner + [last]) == multiset(source + [last])
  {
    hide Before;
    forall i | 0 <= i < |inner| ensures !Before(ascending, last, inner[i]) {
      assert inner[i] in multiset(source);
    }
  }

  /** Every row stands before or level with the last one. */
  lemma LastIsGreatest(rows: seq<EventRow>, row: EventRow, ascending: bool)
    requires Ordered(rows, ascending) && rows != [] && !Before(ascending, row, rows[|rows| - 1])
    ensures forall i | 0 <= i < |rows| :: !Before(ascending, row, rows[i])
  {
    hide Before;
    forall i | 0 <= i < |rows| ensures !Before(ascending, row, rows[i]) {
      NotBeforeTransitive(ascending, rows[i], rows[|rows| - 1], row);
    }
  }

  lemma OrderedFront(front: seq<EventRow>, last: EventRow, ascending: bool)
    requires Ordered(front + [last], ascending)
    ensures Ordered(front, ascending) && forall i | 0 <= i < |front| :: !Before(ascending, last, front[i])
  {
    hide Before;
    forall i | 0 <= i < |front| ensures !Before(ascending, last, front[i]) {
      assert (front + [last])[i] == front[i] && (front + [last])[|front|] == last;
    }
    forall i, j | 0 <= i < j < |front| ensures !Before(ascending, front[j], front[i]) {
      assert (front + [last])[i] == front[i] && (front + [last])[j] == front[j];
    }
  }

  lemma {:induction false} InsertRowOrdered(rows: seq<EventRow>, row: EventRow, ascending: bool)
    requires Ordered(rows, ascending)
    ensures Ordered(InsertRow(rows, row, ascending), ascending)
    ensures multiset(InsertRow(rows, row, ascending)) == multiset(rows + [row])
  {
    hide Before;
    if rows == [] {
    } else if !Before(ascending, row, rows[|rows| - 1]) {
      LastIsGreatest(rows, row, ascending);
      AppendLast(rows, rows, row, ascending);
    } else {
      hide Ordered;
      var front, last := rows[..|rows| - 1], rows[|rows| - 1];
      assert rows == front + [last];
      OrderedFront(front, last, ascending);
      InsertRowOrdered(front, row, ascending);
      NotBeforeTransitive(ascending, row, last, last);
      AppendLast(InsertRow(front, row, ascending), front + [row], last, ascending);
      assert multiset(front + [row] + [last]) == multiset(rows + [row]);
    }
  }

  /** OrderBy returns the rows it was given, in key order. */
  lemma {:induction false} OrderByOrdered(rows: seq<EventRow>, ascending: bool)
    ensures Ordered(OrderBy(rows, ascending), ascending) && multiset(OrderBy(rows, ascending)) == multiset(rows)
  {
    if rows == [] {
    } else {
      OrderByOrdered(rows[..|rows| - 1], ascending);
      InsertRowOrdered(OrderBy(rows[..|rows| - 1], ascending), rows[|rows| - 1], ascending);
      assert rows == rows[..|rows| - 1] + [rows[|rows| - 1]];
    }
  }

  lemma InsertAtEnd(rows: seq<EventRow>, row: EventRow, ascending: bool)
    requires rows == [] || !Before(ascending, row, rows[|rows| - 1])
    ensures InsertRow(rows, row, ascending) == rows + [row]
  {
    hide Before;
  }

  /** Rows already in strictly ascending key order stay where they are. */
  lemma {:induction false} OrderByIdentity(rows: seq<EventRow>, ascending: bool)
    requires forall i, j | 0 <= i < j < |rows| :: Before(ascending, rows[i], rows[j])
    ensures OrderBy(rows, ascending) == rows
  {
    hide Before, InsertRow;
    if rows == [] {
    } else {
      var n := |rows| - 1;
      var front, last := rows[..n], rows[n];
      OrderByIdentity(front, ascending);
      if n > 0 {
        assert front[n - 1] == rows[n - 1];
        NotBeforeTransitive(ascending, rows[n - 1], last, last);
      }
      InsertAtEnd(front, last, ascending);
      assert rows == front + [last];
    }
  }

  // ---------- the whole query and one page of it ----------

  function LogEventOf(row: EventRow): LogEvent {
    LogEvent(row.timestampMs, row.ingestionMs, CStr(row.eventId), CStr(row.logStream), CStr(row.message))
  }

  function LogEventsOf(rows: seq<EventRow>): (r: seq<LogEvent>)
    ensures |r| == |rows| && forall i | 0 <= i < |r| :: r[i] == LogEventOf(rows[i])
  {
    seq(|rows|, i requires 0 <= i < |rows| => LogEventOf(rows[i]))
  }

  predicate Ascending(req: FilterRequest) {
    req.startFromHead == Some(true)
  }

  /** All rows a request selects, in its order, as if there were no paging. */
  function QueryAll(store: Store, req: FilterRequest, substring: Bytes): seq<LogEvent> {
    LogEventsOf(OrderBy(Select(store.events, req, substring), Ascending(req)))
  }

  function Clamp(limit: int): (r: nat)
    ensures 1 <= r <= 10000
  {
    if limit < 1 then 1 else if limit > 10000 then 10000 else limit
  }

  /** SQL's LIMIT count OFFSET offset. */
  function Slice<T>(s: seq<T>, offset: nat, count: nat): seq<T> {
    if offset >= |s| then [] else if offset + count >= |s| then s[offset..] else s[offset..offset + count]
  }

  function ParseOffset(token: Bytes): Result<nat, QueryError> {
    if token == [] then Ok(0)
    else match Stoll(token)
      case None => Err(InvalidParameterException)
      case Some(offset) => if offset < 0 then Err(InternalFailure) else Ok(offset) // SQL refuses a negative OFFSET
  }

  function FilterLogEvents(store: Store, req: FilterRequest): Result<Page, QueryError> {
    if req.logGroup == [] then Err(InvalidParameterException)
    else match FilterPatternSubstring(req.filterPattern)
      case Err(e) => Err(e)
      case Ok(substring) =>
        match ParseOffset(req.nextToken)
        case Err(e) => Err(e)
        case Ok(offset) =>
          var limit := Clamp(IntOr(req.limit, 10000));
          var rows := Slice(QueryAll(store, req, substring), offset, limit + 1);
          var returned := if |rows| < limit then |rows| else limit;
          Ok(Page(rows[..returned], if |rows| > returned then ToString(offset + returned) else []))
  }
}
