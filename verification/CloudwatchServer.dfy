/**
 * The listener object (src/cloudwatch_server.cpp): its tables and counters as fields, and the
 * log handlers as methods, each tied to the critical section or query it performs.
 */
module CloudwatchServerObject {
  import opened Doubles
  import opened Strings
  import opened Listener
  import opened ListenerRuns
  import opened LogQuery

  class CloudwatchServer {
    var groups: seq<GroupRow>
    var events: seq<EventRow>
    var eventCounter: nat
    var totalRequests: nat
    var totalRows: nat
    const autoCreateGroups: bool

    constructor (autoCreateGroups: bool)
      ensures Tables() == Store([], []) && eventCounter == 0
      ensures this.autoCreateGroups == autoCreateGroups && StoreOk(Tables(), eventCounter)
    {
      this.autoCreateGroups := autoCreateGroups;
      groups, events := [], [];
      eventCounter, totalRequests, totalRows := 0, 0, 0;
    }

    ghost function Tables(): Store
      reads this
    {
      Store(groups, events)
    }

    method HandleCreateLogGroup(group: Bytes, nowMs: int) returns (reply: Reply)
      modifies this`groups
      ensures (Tables(), reply) == CreateLogGroup(old(Tables()), group, nowMs)
      ensures old(StoreOk(Tables(), eventCounter)) ==> StoreOk(Tables(), eventCounter)
    {
      if StoreOk(Tables(), eventCounter) {
        LockedKeepsStore(Tables(), eventCounter, autoCreateGroups, Create(group, nowMs));
      }
      hide StoreOk;
      if group == [] {
        return Err(InvalidParameter);
      }
      if GroupExists(groups, group) {
        return Err(ResourceAlreadyExists);
      }
      groups := groups + [GroupRow(group, None, None, nowMs)];
      return Ok(());
    }

    method HandleDeleteLogGroup(group: Bytes) returns (reply: Reply)
      modifies this`groups, this`events
      ensures (Tables(), reply) == DeleteLogGroup(old(Tables()), group)
      ensures old(StoreOk(Tables(), eventCounter)) ==> StoreOk(Tables(), eventCounter)
    {
      if StoreOk(Tables(), eventCounter) {
        LockedKeepsStore(Tables(), eventCounter, autoCreateGroups, Delete(group));
      }
      hide StoreOk;
      if group == [] {
        return Err(InvalidParameter);
      }
      if !GroupExists(groups, group) {
        return Err(ResourceNotFound);
      }
      groups := GroupsOutside(groups, group);
      events := EventsOutside(events, group);
      return Ok(());
    }

    method HandleCreateLogStream(group: Bytes, stream: Bytes, nowMs: int) returns (reply: Reply)
      modifies this`groups
      ensures (Tables(), reply) == CreateLogStream(old(Tables()), group, stream, nowMs)
      ensures old(StoreOk(Tables(), eventCounter)) ==> StoreOk(Tables(), eventCounter)
    {
      if StoreOk(Tables(), eventCounter) {
        LockedKeepsStore(Tables(), eventCounter, autoCreateGroups, CreateStream(group, stream, nowMs));
      }
      hide StoreOk;
      if group == [] || stream == [] {
        return Err(InvalidParameter);
      }
      if !GroupExists(groups, group) {
        return Err(ResourceNotFound);
      }
      if StreamExists(groups, group, stream) {
        return Err(ResourceAlreadyExists);
      }
      groups := groups + [GroupRow(group, Some(stream), None, nowMs)];
      return Ok(());
    }

    method HandlePutRetentionPolicy(group: Bytes, days: Option<Number>) returns (reply: Reply)
      modifies this`groups
      ensures (Tables(), reply) == PutRetentionPolicy(old(Tables()), group, days)
      ensures old(StoreOk(Tables(), eventCounter)) ==> StoreOk(Tables(), eventCounter)
    {
      if StoreOk(Tables(), eventCounter) {
        LockedKeepsStore(Tables(), eventCounter, autoCreateGroups, Retain(group, days));
      }
      hide StoreOk;
      if group == [] || days.None? {
        return Err(InvalidParameter);
      }
      if !GroupExists(groups, group) {
        return Err(ResourceNotFound);
      }
      groups := WithRetention(groups, group, GetNumber(days.value));
      return Ok(());
    }

    method NextEventId() returns (id: Bytes)
      modifies this`eventCounter
      ensures eventCounter == (old(eventCounter) + 1) % UINT64
      ensures id == EventId(eventCounter)
    {
      eventCounter := (eventCounter + 1) % UINT64;
      id := EventId(eventCounter);
    }

    /** The row loop of PutLogEvents; it stops at the first malformed element. */
    method BuildRows(put: PutRequest, elements: seq<RawEvent>, nowMs: int) returns (rows: seq<EventRow>)
      requires eventCounter < UINT64
      modifies this`eventCounter
      ensures var good := LeadingWellFormed(elements);
              && eventCounter == (old(eventCounter) + good) % UINT64
              && rows == RowsOf(put, elements[..good], nowMs, old(eventCounter))
    {
      hide RowsOf, EventId;
      ghost var good := LeadingWellFormed(elements);
      rows := [];
      assert elements[..0] == [] && RowsOf(put, [], nowMs, eventCounter) == [] by { RowsOfLength(put, [], nowMs, eventCounter); }
      var index := 0;
      while index < |elements| && WellFormed(elements[index])
        invariant index <= good
        invariant eventCounter == (old(eventCounter) + index) % UINT64
        invariant rows == RowsOf(put, elements[..index], nowMs, old(eventCounter))
      {
        var element := elements[index];
        RowsOfNext(put, elements, nowMs, old(eventCounter), index + 1);
        var id := NextEventId();
        rows := rows + [EventRow(put.logGroup, put.logStream, GetNumber(element.timestamp.value), nowMs, id, CStr(element.message.value))];
        index := index + 1;
      }
    }

    method HandlePutLogEvents(put: PutRequest, nowMs: int) returns (reply: Reply)
      requires eventCounter < UINT64
      modifies this
      ensures (Tables(), eventCounter, reply) == PutLogEvents(old(Tables()), old(eventCounter), autoCreateGroups, put, nowMs)
      ensures totalRequests == old(totalRequests) + (if reply.Ok? then 1 else 0)
      ensures totalRows == old(totalRows) + (if reply.Ok? then |events| - |old(events)| else 0)
      ensures old(StoreOk(Tables(), eventCounter)) && (put.logEvents.Some? ==> old(eventCounter) + |put.logEvents.value| < UINT64) ==>
                StoreOk(Tables(), eventCounter)
    {
      if StoreOk(Tables(), eventCounter) && (put.logEvents.Some? ==> eventCounter + |put.logEvents.value| < UINT64) {
        PutKeepsStore(Tables(), eventCounter, autoCreateGroups, put, nowMs);
      }
      hide StoreOk;
      hide RowsOf, HasRow;
      if !Addressed(put) {
        return Err(InvalidParameter);
      }
      var elements := put.logEvents.value;
      var rows := BuildRows(put, elements, nowMs);
      if LeadingWellFormed(elements) < |elements| {
        return Err(InvalidParameter);
      }
      assert elements[..|elements|] == elements;
      if !GroupExists(groups, put.logGroup) {
        if !autoCreateGroups {
          return Err(ResourceNotFound);
        }
        groups := groups + [GroupRow(put.logGroup, None, None, nowMs)];
      }
      if !StreamExists(groups, put.logGroup, put.logStream) {
        if !autoCreateGroups {
          return Err(ResourceNotFound);
        }
        groups := groups + [GroupRow(put.logGroup, Some(put.logStream), None, nowMs)];
      }
      events := events + rows;
      totalRequests := totalRequests + 1;
      totalRows := totalRows + |rows|;
      return Ok(());
    }

    method HandleFilterLogEvents(req: FilterRequest) returns (r: Result<Page, QueryError>)
      ensures r == FilterLogEvents(Tables(), req)
    {
      hide Select, OrderBy, FilterPatternSubstring, ParseOffset, Slice, IntOr, Ascending, ToString;
      if req.logGroup == [] {
        return Err(InvalidParameterException);
      }
      var limit := Clamp(IntOr(req.limit, 10000));
      var substring := FilterPatternSubstring(req.filterPattern);
      if substring.Err? {
        return Err(substring.error);
      }
      var offset := ParseOffset(req.nextToken);
      if offset.Err? {
        return Err(offset.error);
      }
      var matching := OrderBy(Select(events, req, substring.value), Ascending(req));
      var rows := Slice(LogEventsOf(matching), offset.value, limit + 1);
      var returned := if |rows| < limit then |rows| else limit;
      return Ok(Page(rows[..returned], if |rows| > returned then ToString(offset.value + returned) else []));
    }
  }
}
