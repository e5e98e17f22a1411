/**
 * The log pipeline end to end: what send_cloudwatch_logs plans and the listener stores is what
 * read_cloudwatch_logs scans back, in the planned order.
 */
module WriteThenRead {
  import opened Strings
  import opened Doubles
  import opened PutPlanner
  import opened Listener
  import opened EventIds
  import opened LogQuery
  import opened LogsScan
  import opened CloudwatchServerObject

  /** The elements of one request body (BuildCloudwatchPutEventsRequest), as the listener reads them. */
  function RawEvents(events: seq<PutEvent>): (r: seq<RawEvent>)
    ensures |r| == |events|
    ensures forall i | 0 <= i < |r| :: r[i] == RawEvent(Some(Whole(events[i].timestampMs)), Some(events[i].message))
  {
    seq(|events|, i requires 0 <= i < |events| => RawEvent(Some(Whole(events[i].timestampMs)), Some(events[i].message)))
  }

  function RequestOf(group: Bytes, stream: Bytes, events: seq<PutEvent>): PutRequest {
    PutRequest(CStr(group), CStr(stream), Some(RawEvents(events)))
  }

  /** The row stored for a planned event that got the given id. */
  predicate Stores(row: EventRow, e: PutEvent, group: Bytes, stream: Bytes, id: nat) {
    && row.logGroup == CStr(group)
    && row.logStream == CStr(stream)
    && row.timestampMs == GetInt(e.timestampMs)
    && row.eventId == EventId(id)
    && row.message == CStr(e.message)
  }

  predicate StoresAll(rows: seq<EventRow>, events: seq<PutEvent>, group: Bytes, stream: Bytes, counter: nat) {
    |rows| == |events| && forall j | 0 <= j < |rows| :: Stores(rows[j], events[j], group, stream, counter + j + 1)
  }

  lemma {:induction false} AllWellFormed(events: seq<RawEvent>)
    requires forall i | 0 <= i < |events| :: WellFormed(events[i])
    ensures LeadingWellFormed(events) == |events|
  {
  }

  lemma RowsAreStored(group: Bytes, stream: Bytes, events: seq<PutEvent>, nowMs: int, counter: nat)
    requires counter + |events| < UINT64
    ensures StoresAll(RowsOf(RequestOf(group, stream, events), RawEvents(events), nowMs, counter), events, group, stream, counter)
  {
    hide EventId, GetInt, CStr;
    var rows := RowsOf(RequestOf(group, stream, events), RawEvents(events), nowMs, counter);
    forall j | 0 <= j < |rows| ensures Stores(rows[j], events[j], group, stream, counter + j + 1) {
      assert (counter + j + 1) % UINT64 == counter + j + 1;
    }
  }

  /** One batch into an existing stream: accepted, its rows appended, the counter moved on by its length. */
  lemma PutBatch(store: Store, counter: nat, autoCreate: bool, group: Bytes, stream: Bytes, events: seq<PutEvent>, nowMs: int)
    returns (rows: seq<EventRow>)
    requires CStr(group) != [] && CStr(stream) != []
    requires GroupExists(store.groups, CStr(group)) && StreamExists(store.groups, CStr(group), CStr(stream))
    requires counter + |events| < UINT64
    ensures StoresAll(rows, events, group, stream, counter)
    ensures PutLogEvents(store, counter, autoCreate, RequestOf(group, stream, events), nowMs) ==
            (store.(events := store.events + rows), counter + |events|, Ok(()))
  {
    hide HasRow, EventId, GetInt, CStr, StoresAll, RowsOf;
    rows := RowsOf(RequestOf(group, stream, events), RawEvents(events), nowMs, counter);
    RowsAreStored(group, stream, events, nowMs, counter);
    AllWellFormed(RawEvents(events));
  }

  /** Tables, counter and whether every reply was a success, after the first n batches are sent in order. */
  function AfterBatches(store: Store, counter: nat, autoCreate: bool, group: Bytes, stream: Bytes,
                        planned: seq<PutEvent>, batches: seq<Batch>, nows: seq<int>, n: nat): (Store, nat, bool)
    requires n <= |batches| <= |nows| && forall i | 0 <= i < |batches| :: batches[i].End() <= |planned|
  {
    if n == 0 then (store, counter, true)
    else
      var (before, at, ok) := AfterBatches(store, counter, autoCreate, group, stream, planned, batches, nows, n - 1);
      var batch := batches[n - 1];
      var put := RequestOf(group, stream, planned[batch.offset..batch.End()]);
      var (after, next, reply) := PutLogEvents(before, at, autoCreate, put, nows[n - 1]);
      (after, next, ok && reply.Ok?)
  }

  lemma NothingStored(planned: seq<PutEvent>, group: Bytes, stream: Bytes, counter: nat)
    ensures StoresAll([], planned[..0], group, stream, counter)
  {
  }

  lemma JoinStores(earlier: seq<EventRow>, later: seq<EventRow>, planned: seq<PutEvent>, from: nat, upto: nat,
                   group: Bytes, stream: Bytes, counter: nat)
    requires from <= upto <= |planned|
    requires StoresAll(earlier, planned[..from], group, stream, counter)
    requires StoresAll(later, planned[from..upto], group, stream, counter + from)
    ensures StoresAll(earlier + later, planned[..upto], group, stream, counter)
  {
    hide Stores;
    var rows := earlier + later;
    forall j | 0 <= j < |rows| ensures Stores(rows[j], planned[..upto][j], group, stream, counter + j + 1) {
      if j < from {
        assert rows[j] == earlier[j] && planned[..from][j] == planned[j];
      } else {
        assert rows[j] == later[j - from] && planned[from..upto][j - from] == planned[j];
        assert Stores(later[j - from], planned[from..upto][j - from], group, stream, counter + from + (j - from) + 1);
      }
    }
  }

  lemma {:induction false} SendingStoresAll(
    store: Store, counter: nat, autoCreate: bool, group: Bytes, stream: Bytes,
    planned: seq<PutEvent>, batches: seq<Batch>, nows: seq<int>, n: nat)
    returns (rows: seq<EventRow>)
    requires n <= |batches| <= |nows| && Tiles(batches, |planned|)
    requires CStr(group) != [] && CStr(stream) != []
    requires GroupExists(store.groups, CStr(group)) && StreamExists(store.groups, CStr(group), CStr(stream))
    requires counter + |planned| < UINT64
    ensures Start(batches, n) <= |planned|
    ensures StoresAll(rows, planned[..Start(batches, n)], group, stream, counter)
    ensures AfterBatches(store, counter, autoCreate, group, stream, planned, batches, nows, n) ==
            (store.(events := store.events + rows), counter + Start(batches, n), true)
  {
    hide Start, StoresAll, CStr, GroupExists, StreamExists, PutLogEvents;
    StartZero(batches);
    if n == 0 {
      rows := [];
      NothingStored(planned, group, stream, counter);
      assert store.events + [] == store.events;
    } else {
      StartNext(batches, n - 1);
      var earlier := SendingStoresAll(store, counter, autoCreate, group, stream, planned, batches, nows, n - 1);
      var from, upto := Start(batches, n - 1), Start(batches, n);
      var before := store.(events := store.events + earlier);
      var later := PutBatch(before, counter + from, autoCreate, group, stream, planned[from..upto], nows[n - 1]);
      rows := earlier + later;
      assert store.events + earlier + later == store.events + rows;
      JoinStores(earlier, later, planned, from, upto, group, stream, counter);
    }
  }

  // ---------- reading back ----------

  lemma {:induction false} SelectEvery(rows: seq<EventRow>, req: FilterRequest, substring: Bytes)
    requires forall i | 0 <= i < |rows| :: Matches(req, substring, rows[i])
    ensures Select(rows, req, substring) == rows
  {
    hide Matches;
    if rows == [] {
    } else {
      SelectEvery(rows[..|rows| - 1], req, substring);
      assert rows == rows[..|rows| - 1] + [rows[|rows| - 1]];
    }
  }

  lemma {:induction false} SelectNone(rows: seq<EventRow>, req: FilterRequest, substring: Bytes)
    requires forall i | 0 <= i < |rows| :: !Matches(req, substring, rows[i])
    ensures Select(rows, req, substring) == []
  {
    hide Matches;
    if rows == [] {
    } else {
      SelectNone(rows[..|rows| - 1], req, substring);
    }
  }

  /** Planned order is key order: timestamps stay sorted through the double, ids break the ties. */
  lemma PlannedOrderIsKeyOrder(rows: seq<EventRow>, planned: seq<PutEvent>, group: Bytes, stream: Bytes, counter: nat)
    requires Sorted(planned) && StoresAll(rows, planned, group, stream, counter)
    requires counter + |planned| < TEN19
    ensures forall i, j | 0 <= i < j < |rows| :: Before(true, rows[i], rows[j])
  {
    hide EventId, LexLess, GetInt, CStr;
    forall i, j | 0 <= i < j < |rows| ensures Before(true, rows[i], rows[j]) {
      GetIntMonotone(planned[i].timestampMs, planned[j].timestampMs);
      EventIdOrder(counter + i + 1, counter + j + 1);
      assert Stores(rows[i], planned[i], group, stream, counter + i + 1);
      assert Stores(rows[j], planned[j], group, stream, counter + j + 1);
    }
  }

  /** The scan of one stream, oldest first, without a filter pattern. */
  function StreamScan(group: Bytes, stream: Bytes, startMs: int, endMs: int, pageSize: nat, maxRows: nat): LogsBind {
    LogsBind(group, [], [], [stream], true, pageSize, maxRows, startMs, endMs)
  }

  /** The event a planned event comes back as. */
  predicate ReadsBack(event: LogEvent, e: PutEvent, stream: Bytes, id: nat) {
    && event.timestampMs == GetInt(e.timestampMs)
    && event.message == CStr(e.message)
    && event.logStreamName == CStr(stream)
    && event.eventId == EventId(id)
  }

  /** One event per planned event, in planned order, with the ids from counter + 1 on. */
  predicate ReadsBackAll(read: seq<LogEvent>, planned: seq<PutEvent>, stream: Bytes, counter: nat) {
    |read| == |planned| && forall j | 0 <= j < |read| :: ReadsBack(read[j], planned[j], stream, counter + j + 1)
  }

  lemma EventReadsBack(row: EventRow, e: PutEvent, group: Bytes, stream: Bytes, id: nat)
    requires Stores(row, e, group, stream, id)
    ensures ReadsBack(LogEventOf(row), e, stream, id)
  {
    hide EventId, GetInt;
    CStrIdempotent(stream);
    CStrIdempotent(e.message);
    EventIdValue(id);
    assert '\0' !in EventId(id);
  }

  /** The scan's request takes exactly the rows of its stream in its window. */
  lemma ScanMatches(bind: LogsBind, stream: Bytes, row: EventRow)
    requires bind == StreamScan(bind.logGroup, stream, bind.startMs, bind.endMs, bind.pageSize, bind.maxRows)
    ensures Matches(RequestFor(bind, 1, []), [], row) <==>
            && row.logGroup == CStr(bind.logGroup) && row.logStream == CStr(stream)
            && InWindow(row.timestampMs, GetInt(bind.startMs), GetInt(bind.endMs))
  {
    assert CStr([]) == [];
    hide CStr, GetInt;
    assert RequestFor(bind, 1, []).streams == [CStr(stream)];
  }

  lemma ScanFindsRows(store: Store, rows: seq<EventRow>, planned: seq<PutEvent>, bind: LogsBind, stream: Bytes, counter: nat)
    requires bind == StreamScan(bind.logGroup, stream, bind.startMs, bind.endMs, bind.pageSize, bind.maxRows)
    requires CStr(bind.logGroup) != []
    requires Sorted(planned) && StoresAll(rows, planned, bind.logGroup, stream, counter) && counter + |planned| < TEN19
    requires forall row | row in store.events :: !(row.logGroup == CStr(bind.logGroup) && row.logStream == CStr(stream))
    requires forall e | e in planned :: InWindow(GetInt(e.timestampMs), GetInt(bind.startMs), GetInt(bind.endMs))
    ensures WholeQuery(store.(events := store.events + rows), bind) == Ok(LogEventsOf(rows))
  {
    var req := RequestFor(bind, 1, []);
    assert FilterPatternSubstring(CStr([])) == Ok([]);
    hide CStr, GetInt, InWindow, Matches, Select, OrderBy, Before, EventId, FilterPatternSubstring;
    forall i | 0 <= i < |store.events| ensures !Matches(req, [], store.events[i]) {
      ScanMatches(bind, stream, store.events[i]);
      assert store.events[i] in store.events;
    }
    SelectNone(store.events, req, []);
    forall j | 0 <= j < |rows| ensures Matches(req, [], rows[j]) {
      ScanMatches(bind, stream, rows[j]);
      assert planned[j] in planned;
      assert Stores(rows[j], planned[j], bind.logGroup, stream, counter + j + 1);
    }
    SelectEvery(rows, req, []);
    SelectAppend(store.events, rows, req, []);
    assert [] + rows == rows;
    PlannedOrderIsKeyOrder(rows, planned, bind.logGroup, stream, counter);
    OrderByIdentity(rows, true);
  }

  lemma PartitionTiles(planned: seq<PutEvent>, batches: seq<Batch>)
    requires IsPartition(planned, batches)
    ensures Tiles(batches, |planned|) && Start(batches, |batches|) == |planned|
  {
  }

  lemma RowsReadBack(rows: seq<EventRow>, planned: seq<PutEvent>, group: Bytes, stream: Bytes, counter: nat)
    requires StoresAll(rows, planned, group, stream, counter)
    ensures ReadsBackAll(LogEventsOf(rows), planned, stream, counter)
  {
    hide Stores, ReadsBack;
    forall j | 0 <= j < |rows| ensures ReadsBack(LogEventOf(rows[j]), planned[j], stream, counter + j + 1) {
      assert Stores(rows[j], planned[j], group, stream, counter + j + 1);
      EventReadsBack(rows[j], planned[j], group, stream, counter + j + 1);
    }
  }

  lemma SortedOf(planned: seq<PutEvent>, events: seq<PutEvent>)
    requires IsStableSortOf(planned, events)
    ensures Sorted(planned)
  {
  }

  lemma SortedPrefix(planned: seq<PutEvent>, m: nat)
    requires Sorted(planned) && m <= |planned|
    ensures Sorted(planned[..m])
  {
  }

  /**
   * One sender plans its events and sends every batch to an existing stream that holds no events;
   * then one covering ascending query of the stream yields exactly the planned events, in the
   * planned order, each with its timestamp as a double holds it and its message up to the first NUL.
   */
  lemma WriteThenRead(
    store: Store, counter: nat, autoCreate: bool, events: seq<PutEvent>, planned: seq<PutEvent>,
    batches: seq<Batch>, nows: seq<int>, bind: LogsBind, stream: Bytes)
    requires IsStableSortOf(planned, events) && IsPartition(planned, batches) && |batches| <= |nows|
    requires bind == StreamScan(bind.logGroup, stream, bind.startMs, bind.endMs, bind.pageSize, bind.maxRows)
    requires CStr(bind.logGroup) != [] && CStr(stream) != []
    requires GroupExists(store.groups, CStr(bind.logGroup)) && StreamExists(store.groups, CStr(bind.logGroup), CStr(stream))
    requires forall row | row in store.events :: !(row.logGroup == CStr(bind.logGroup) && row.logStream == CStr(stream))
    requires counter + |planned| < TEN19
    requires forall e | e in planned :: InWindow(GetInt(e.timestampMs), GetInt(bind.startMs), GetInt(bind.endMs))
    ensures var (after, next, ok) := AfterBatches(store, counter, autoCreate, bind.logGroup, stream, planned, batches, nows, |batches|);
            && ok && next == counter + |planned|
            && WholeQuery(after, bind).Ok?
            && ReadsBackAll(WholeQuery(after, bind).value, planned, stream, counter)
  {
    hide IsPartition, IsStableSortOf, StoresAll, EventId, CStr, GroupExists, StreamExists, GetInt, InWindow, WholeQuery,
         ReadsBackAll, AfterBatches, Start, Tiles;
    assert Tiles(batches, |planned|) && Start(batches, |batches|) == |planned| by { PartitionTiles(planned, batches); }
    var rows := SendingStoresAll(store, counter, autoCreate, bind.logGroup, stream, planned, batches, nows, |batches|);
    assert planned[..|planned|] == planned;
    assert Sorted(planned) by { SortedOf(planned, events); }
    ScanFindsRows(store, rows, planned, bind, stream, counter);
    RowsReadBack(rows, planned, bind.logGroup, stream, counter);
  }

  /** A planned event comes back unchanged exactly when its timestamp is a double and its message has no NUL. */
  lemma ReadsBackUnchanged(event: LogEvent, e: PutEvent, stream: Bytes, id: nat)
    requires ReadsBack(event, e, stream, id)
    ensures event.timestampMs == e.timestampMs && event.message == e.message <==>
            Representable(e.timestampMs) && '\0' !in e.message
  {
    GetIntExact(e.timestampMs);
  }

  // ---------- the whole pipeline, request by request and page by page ----------

  lemma OneMoreBatch(store: Store, counter: nat, autoCreate: bool, group: Bytes, stream: Bytes,
                     planned: seq<PutEvent>, batches: seq<Batch>, nows: seq<int>, n: nat)
    requires n < |batches| <= |nows| && forall i | 0 <= i < |batches| :: batches[i].End() <= |planned|
    ensures var (before, at, ok) := AfterBatches(store, counter, autoCreate, group, stream, planned, batches, nows, n);
            var put := RequestOf(group, stream, planned[batches[n].offset..batches[n].End()]);
            var (after, next, reply) := PutLogEvents(before, at, autoCreate, put, nows[n]);
            AfterBatches(store, counter, autoCreate, group, stream, planned, batches, nows, n + 1) == (after, next, ok && reply.Ok?)
  {
    hide PutLogEvents, RequestOf;
  }

  lemma NoBatchYet(store: Store, counter: nat, autoCreate: bool, group: Bytes, stream: Bytes,
                   planned: seq<PutEvent>, batches: seq<Batch>, nows: seq<int>)
    requires |batches| <= |nows| && forall i | 0 <= i < |batches| :: batches[i].End() <= |planned|
    ensures AfterBatches(store, counter, autoCreate, group, stream, planned, batches, nows, 0) == (store, counter, true)
  {
  }

  /** Every batch goes to the listener as one PutLogEvents request. */
  method SendPlanned(server: CloudwatchServer, group: Bytes, stream: Bytes, planned: seq<PutEvent>, batches: seq<Batch>, nows: seq<int>)
    returns (ok: bool)
    requires |batches| <= |nows| && Tiles(batches, |planned|)
    requires CStr(group) != [] && CStr(stream) != []
    requires GroupExists(server.groups, CStr(group)) && StreamExists(server.groups, CStr(group), CStr(stream))
    requires server.eventCounter + |planned| < UINT64
    modifies server
    ensures (server.Tables(), server.eventCounter, ok) ==
            AfterBatches(old(server.Tables()), old(server.eventCounter), server.autoCreateGroups, group, stream, planned, batches, nows, |batches|)
  {
    hide AfterBatches, PutLogEvents, RequestOf, CStr, GroupExists, StreamExists, Start, StoresAll;
    ghost var store, counter := server.Tables(), server.eventCounter;
    ok := true;
    assert (store, counter, true) == AfterBatches(store, counter, server.autoCreateGroups, group, stream, planned, batches, nows, 0) by {
      NoBatchYet(store, counter, server.autoCreateGroups, group, stream, planned, batches, nows);
    }
    for n := 0 to |batches|
      invariant (server.Tables(), server.eventCounter, ok) ==
                AfterBatches(store, counter, server.autoCreateGroups, group, stream, planned, batches, nows, n)
    {
      OneMoreBatch(store, counter, server.autoCreateGroups, group, stream, planned, batches, nows, n);
      ghost var rows := SendingStoresAll(store, counter, server.autoCreateGroups, group, stream, planned, batches, nows, n);
      var reply := server.HandlePutLogEvents(RequestOf(group, stream, planned[batches[n].offset..batches[n].End()]), nows[n]);
      ok := ok && reply.Ok?;
    }
  }

  /** The bind is an ascending scan of one stream, which exists and is empty, over a window covering the events. */
  ghost predicate Covers(store: Store, bind: LogsBind, stream: Bytes, events: seq<PutEvent>) {
    && ValidBind(bind) && bind == StreamScan(bind.logGroup, stream, bind.startMs, bind.endMs, bind.pageSize, bind.maxRows)
    && CStr(bind.logGroup) != [] && CStr(stream) != []
    && GroupExists(store.groups, CStr(bind.logGroup)) && StreamExists(store.groups, CStr(bind.logGroup), CStr(stream))
    && (forall row | row in store.events :: !(row.logGroup == CStr(bind.logGroup) && row.logStream == CStr(stream)))
    && forall e | e in events :: InWindow(GetInt(e.timestampMs), GetInt(bind.startMs), GetInt(bind.endMs))
  }

  lemma CoversPlanned(store: Store, bind: LogsBind, stream: Bytes, events: seq<PutEvent>, planned: seq<PutEvent>)
    requires Covers(store, bind, stream, events) && IsStableSortOf(planned, events)
    ensures Covers(store, bind, stream, planned) && |planned| == |events|
  {
    hide CStr, GetInt, InWindow, GroupExists, StreamExists;
    assert |multiset(planned)| == |planned| && |multiset(events)| == |events|;
    forall e | e in planned ensures e in events {
      assert e in multiset(planned);
    }
  }

  lemma PlannedReadsBack(store: Store, counter: nat, autoCreate: bool, events: seq<PutEvent>, planned: seq<PutEvent>,
                         batches: seq<Batch>, nows: seq<int>, bind: LogsBind, stream: Bytes)
    requires IsStableSortOf(planned, events) && IsPartition(planned, batches) && |batches| <= |nows|
    requires Covers(store, bind, stream, planned) && counter + |planned| < TEN19
    ensures var (after, next, ok) := AfterBatches(store, counter, autoCreate, bind.logGroup, stream, planned, batches, nows, |batches|);
            ok && WholeQuery(after, bind).Ok? && ReadsBackAll(WholeQuery(after, bind).value, planned, stream, counter)
  {
    hide IsPartition, IsStableSortOf, CStr, GroupExists, StreamExists, GetInt, InWindow, WholeQuery, ReadsBackAll, AfterBatches;
    WriteThenRead(store, counter, autoCreate, events, planned, batches, nows, bind, stream);
  }

  lemma FewBatches(planned: seq<PutEvent>, batches: seq<Batch>)
    requires Tiles(batches, |planned|)
    ensures |batches| <= |planned|
  {
    FewerBatches(batches, |planned|, |batches|);
  }

  lemma ReadsBackLength(read: seq<LogEvent>, planned: seq<PutEvent>, stream: Bytes, counter: nat)
    requires ReadsBackAll(read, planned, stream, counter)
    ensures |read| == |planned|
  {
  }

  lemma ReadsBackPrefix(read: seq<LogEvent>, planned: seq<PutEvent>, stream: Bytes, counter: nat, n: nat)
    requires ReadsBackAll(read, planned, stream, counter) && n <= |read|
    ensures ReadsBackAll(read[..n], planned[..n], stream, counter)
  {
    hide ReadsBack;
  }

  /**
   * Write then read: the planner sorts and splits the events, every batch goes to the listener as
   * a request, and then the stream is scanned page by page. For every page size the chunks are
   * exactly the stable sort of the events, or its first max_rows.
   */
  method WriteThenScan(server: CloudwatchServer, events: array<PutEvent>, nows: seq<int>, bind: LogsBind, stream: Bytes)
    returns (r: Result<seq<seq<LogEvent>>, QueryError>)
    requires AllValid(events[..]) && events.Length <= |nows| && events.Length <= INT64_MAX
    requires Covers(server.Tables(), bind, stream, events[..])
    requires server.eventCounter + events.Length < TEN19
    modifies server, events
    ensures events[..] == StableSort(old(events[..])) && IsStableSortOf(events[..], old(events[..]))
    ensures r.Ok?
    ensures ReadsBackAll(Concat(r.value), events[..Target(events.Length, bind.maxRows)], stream, old(server.eventCounter))
    ensures forall i | 0 <= i < |r.value| :: 0 < |r.value[i]| <= STANDARD_VECTOR_SIZE
  {
    hide StableSort, IsStableSortOf, IsPartition, IsMaximal, AfterBatches, WholeQuery, ReadsBackAll, CStr, GetInt, InWindow,
         GroupExists, StreamExists, AllValid, Concat;
    ghost var store, counter, input := server.Tables(), server.eventCounter, events[..];
    var plan := SortAndPlanCloudwatchPutEvents(events);
    var planned, batches := events[..], plan.value;
    CoversPlanned(store, bind, stream, input, planned);
    PartitionTiles(planned, batches);
    FewBatches(planned, batches);
    PlannedReadsBack(store, counter, server.autoCreateGroups, input, planned, batches, nows, bind, stream);
    var ok := SendPlanned(server, bind.logGroup, stream, planned, batches, nows);
    ghost var all := WholeQuery(server.Tables(), bind).value;
    assert |all| == |planned| by { ReadsBackLength(all, planned, stream, counter); }
    r := ScanAll(bind, server);
    ReadsBackPrefix(all, planned, stream, counter, Target(|all|, bind.maxRows));
  }
}
