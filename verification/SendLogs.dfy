/**
 * send_cloudwatch_logs over one data chunk (src/send_logs.cpp): rows become events, the
 * planner cuts them into batches, and every batch is one non-idempotent PutLogEvents call.
 */
module SendLogs {
  import opened Strings
  import opened PutPlanner
  import opened Transport

  // ---------- rows to events ----------

  /** A timestamp column's value as ReadTimestampMs tells values apart. */
  datatype Field = Null | Integral(raw: Int64) | Nanoseconds(value: Int64) | Uncastable

  /** One input struct; a column the struct lacks is None. */
  datatype LogRow = LogRow(message: Option<Bytes>, timestamp: Option<Field>, observed: Option<Field>)

  function ReadTimestampMs(field: Option<Field>, isNanos: bool): Option<Int64> {
    match field
    case Some(Integral(raw)) => Some(if isNanos then TruncDiv(raw, 1000000) else raw)
    case Some(Nanoseconds(value)) => Some(TruncDiv(value, 1000000))
    case _ => None
  }

  function EventOf(row: LogRow, index: nat, isNanos: bool, nowMs: Int64): PutEvent {
    var primary := ReadTimestampMs(row.timestamp, isNanos);
    var fallback := ReadTimestampMs(row.observed, true);
    PutEvent(
      if primary.Some? then primary.value else if fallback.Some? then fallback.value else nowMs,
      if row.message.Some? then row.message.value else [],
      index)
  }

  /** The events of the non-NULL rows, in row order. */
  function EventsOf(rows: seq<Option<LogRow>>, isNanos: bool, nowMs: Int64): seq<PutEvent> {
    if rows == [] then []
    else
      var n := |rows| - 1;
      EventsOf(rows[..n], isNanos, nowMs) + (if rows[n].Some? then [EventOf(rows[n].value, n, isNanos, nowMs)] else [])
  }

  /** ms is a time in nanoseconds, cut toward zero to whole milliseconds. */
  predicate CutToMs(nanos: int, ms: int) {
    if nanos >= 0 then ms * 1000000 <= nanos < (ms + 1) * 1000000 else (ms - 1) * 1000000 < nanos <= ms * 1000000
  }

  /** The column holds a time: it is there, not NULL, and an integer or castable to a timestamp. */
  predicate HoldsTime(field: Option<Field>) {
    field.Some? && (field.value.Integral? || field.value.Nanoseconds?)
  }

  /** That time in milliseconds; an integer is in nanoseconds or in milliseconds, a timestamp always in nanoseconds. */
  predicate ShowsTime(field: Field, isNanos: bool, ms: int)
    requires HoldsTime(Some(field))
  {
    if field.Nanoseconds? then CutToMs(field.value, ms)
    else if isNanos then CutToMs(field.raw, ms)
    else ms == field.raw
  }

  /** An event carries its row's own time, or else the time it was observed, or else the time of the call; and its row's message. */
  predicate CarriesRow(e: PutEvent, row: LogRow, isNanos: bool, nowMs: Int64) {
    && (HoldsTime(row.timestamp) ==> ShowsTime(row.timestamp.value, isNanos, e.timestampMs))
    && (!HoldsTime(row.timestamp) && HoldsTime(row.observed) ==> ShowsTime(row.observed.value, true, e.timestampMs))
    && (!HoldsTime(row.timestamp) && !HoldsTime(row.observed) ==> e.timestampMs == nowMs)
    && (if row.message.Some? then e.message == row.message.value else e.message == [])
  }

  lemma EventCarriesRow(row: LogRow, index: nat, isNanos: bool, nowMs: Int64)
    ensures CarriesRow(EventOf(row, index, isNanos, nowMs), row, isNanos, nowMs) && EventOf(row, index, isNanos, nowMs).sourceRow == index
  {
  }

  /** The events carry the non-NULL rows, one each, in row order. */
  ghost predicate TracksRows(events: seq<PutEvent>, rows: seq<Option<LogRow>>, isNanos: bool, nowMs: Int64) {
    && (forall e | e in events :: e.sourceRow < |rows| && rows[e.sourceRow].Some? && CarriesRow(e, rows[e.sourceRow].value, isNanos, nowMs))
    && (forall r | 0 <= r < |rows| && rows[r].Some? :: exists e :: e in events && e.sourceRow == r)
    && (forall i, j | 0 <= i < j < |events| :: events[i].sourceRow < events[j].sourceRow)
    && |events| <= |rows|
  }

  lemma TracksOneMore(events: seq<PutEvent>, rows: seq<Option<LogRow>>, isNanos: bool, nowMs: Int64, row: Option<LogRow>)
    requires TracksRows(events, rows, isNanos, nowMs)
    ensures TracksRows(events + (if row.Some? then [EventOf(row.value, |rows|, isNanos, nowMs)] else []), rows + [row], isNanos, nowMs)
  {
    hide EventOf, CarriesRow;
    var n := |rows|;
    if row.Some? {
      var event := EventOf(row.value, n, isNanos, nowMs);
      EventCarriesRow(row.value, n, isNanos, nowMs);
      var longer := events + [event];
      assert longer[|events|] == event;
      forall e | e in events ensures e in longer {
      }
      forall r | 0 <= r < n && rows[r].Some? ensures exists e :: e in longer && e.sourceRow == r {
        var e :| e in events && e.sourceRow == r;
        assert e in longer;
      }
      forall i | 0 <= i < |events| ensures longer[i].sourceRow < n {
        assert events[i] in events;
      }
    } else {
      assert events + [] == events;
    }
  }

  /** Rising source rows: a row has one event. */
  lemma OneEventPerRow(events: seq<PutEvent>, rows: seq<Option<LogRow>>, isNanos: bool, nowMs: Int64, a: PutEvent, b: PutEvent)
    requires TracksRows(events, rows, isNanos, nowMs) && a in events && b in events && a.sourceRow == b.sourceRow
    ensures a == b
  {
    var i :| 0 <= i < |events| && events[i] == a;
    var j :| 0 <= j < |events| && events[j] == b;
  }

  lemma {:induction false} EventsOfRows(rows: seq<Option<LogRow>>, isNanos: bool, nowMs: Int64)
    ensures TracksRows(EventsOf(rows, isNanos, nowMs), rows, isNanos, nowMs)
  {
    hide EventOf;
    if rows == [] {
    } else {
      var n := |rows| - 1;
      hide TracksRows;
      EventsOfRows(rows[..n], isNanos, nowMs);
      TracksOneMore(EventsOf(rows[..n], isNanos, nowMs), rows[..n], isNanos, nowMs, rows[n]);
      assert rows[..n] + [rows[n]] == rows;
    }
  }

  // ---------- one batch ----------

  datatype PutResponse = PutResponse(expired: bool, tooOld: bool, tooNew: bool, rejectedEntity: bool) {
    predicate HasRejections() { expired || tooOld || tooNew || rejectedEntity }
  }

  /** What batch number b meets: an interrupt before it, its call's script, and how its 2xx body parses. */
  datatype BatchWorld = BatchWorld(interrupted: bool, script: Script, response: Option<PutResponse>)

  datatype SendError =
    | NotPlanned(error: PlanError)
    | SendInterrupted
    | PostFailed(result: PostResult)
    | MalformedResponse
    | PartiallyAccepted(response: PutResponse)

  /** None when the batch is acknowledged in full, otherwise the exception it ends with. */
  function BatchError(world: BatchWorld, retries: nat): Option<SendError>
    requires retries + 2 <= |world.script|
  {
    if world.interrupted then Some(SendInterrupted)
    else
      var run := Post(WRITE_POLICY, retries, false, world.script);
      if !run.result.Delivered? then Some(PostFailed(run.result))
      else match world.response
        case None => Some(MalformedResponse)
        case Some(response) => if response.HasRejections() then Some(PartiallyAccepted(response)) else None
  }

  /** A batch counts as sent exactly when its call delivered a 2xx that reports no rejection of any kind. */
  lemma SentExactly(world: BatchWorld, retries: nat)
    requires retries + 2 <= |world.script|
    ensures BatchError(world, retries).None? <==>
            && !world.interrupted && Post(WRITE_POLICY, retries, false, world.script).result.Delivered?
            && world.response == Some(PutResponse(false, false, false, false))
    ensures !world.interrupted && Post(WRITE_POLICY, retries, false, world.script).result.Delivered? && world.response.Some? ==>
            var response := world.response.value;
            (response.expired || response.tooOld || response.tooNew || response.rejectedEntity <==>
             BatchError(world, retries) == Some(PartiallyAccepted(response)))
  {
    hide Post;
  }

  function SendsOf(world: BatchWorld, retries: nat): (n: nat)
    requires retries + 2 <= |world.script|
    ensures n <= |world.script|
  {
    if world.interrupted then 0 else Post(WRITE_POLICY, retries, false, world.script).sends
  }

  ghost predicate WorldsFor(worlds: seq<BatchWorld>, n: nat, retries: nat) {
    n <= |worlds| && forall b | 0 <= b < |worlds| :: retries + 2 <= |worlds[b].script|
  }

  /** The number of leading batches acknowledged in full: the send stops at the first that is not. */
  function Acknowledged(worlds: seq<BatchWorld>, n: nat, retries: nat): (k: nat)
    requires WorldsFor(worlds, n, retries)
    ensures k <= n
    ensures forall b | 0 <= b < k :: BatchError(worlds[b], retries).None?
    ensures k < n ==> BatchError(worlds[k], retries).Some?
  {
    if n == 0 then 0
    else
      var k := Acknowledged(worlds, n - 1, retries);
      if k == n - 1 && BatchError(worlds[k], retries).None? then n else k
  }

  // ---------- what the remote stores ----------

  /** How often the first n batches' sends stored event i of the sorted list. */
  function Deliveries(batches: seq<Batch>, worlds: seq<BatchWorld>, n: nat, retries: nat, i: nat): nat
    requires n <= |batches| && WorldsFor(worlds, |batches|, retries)
  {
    if n == 0 then 0
    else
      var batch := batches[n - 1];
      Deliveries(batches, worlds, n - 1, retries, i) +
      (if batch.offset <= i < batch.End()
       then TimesStored(worlds[n - 1].script, SendsOf(worlds[n - 1], retries), i - batch.offset)
       else 0)
  }

  /**
   * The remote keeps its side: a rejected request stores nothing, and a 2xx whose body
   * reports no rejections stored the whole batch.
   */
  ghost predicate Honest(world: BatchWorld, count: nat) {
    && RejectionsStoreNothing(world.script)
    && forall k | 0 <= k < |world.script| ::
         var turn := world.script[k];
         turn.outcome.Response? && IsSuccess(turn.outcome.status) && world.response.Some? && !world.response.value.HasRejections()
         ==> forall i | 0 <= i < count :: i in turn.stored
  }

  lemma BatchDeliveries(world: BatchWorld, count: nat, retries: nat, i: nat)
    requires retries + 2 <= |world.script| && Honest(world, count) && i < count
    ensures TimesStored(world.script, SendsOf(world, retries), i) <= 1
    ensures BatchError(world, retries).None? ==> TimesStored(world.script, SendsOf(world, retries), i) == 1
  {
    PostStoresAtMostOnce(WRITE_POLICY, retries, false, world.script, i);
    RunRetriesOnlyRejected(WRITE_POLICY, retries, false, world.script, 0, false);
    var run := Post(WRITE_POLICY, retries, false, world.script);
    if run.result.Delivered? {
      assert Acknowledges(world.script[run.sends - 1].outcome, run.result.body);
    }
  }

  lemma {:induction false} DeliveriesBefore(batches: seq<Batch>, worlds: seq<BatchWorld>, n: nat, retries: nat, i: nat)
    requires n <= |batches| && WorldsFor(worlds, |batches|, retries)
    requires forall b | 0 <= b < n :: !(batches[b].offset <= i < batches[b].End())
    ensures Deliveries(batches, worlds, n, retries, i) == 0
  {
    if n == 0 {
    } else {
      DeliveriesBefore(batches, worlds, n - 1, retries, i);
    }
  }

  /** Event i of batch b is stored only by batch b's sends. */
  lemma {:induction false} DeliveriesOfBatch(batches: seq<Batch>, worlds: seq<BatchWorld>, n: nat, retries: nat, b: nat, i: nat)
    requires b < n <= |batches| && WorldsFor(worlds, |batches|, retries)
    requires batches[b].offset <= i < batches[b].End()
    requires forall c | 0 <= c < n && c != b :: !(batches[c].offset <= i < batches[c].End())
    ensures Deliveries(batches, worlds, n, retries, i) ==
            TimesStored(worlds[b].script, SendsOf(worlds[b], retries), i - batches[b].offset)
  {
    hide SendsOf, TimesStored;
    if b < n - 1 {
      DeliveriesOfBatch(batches, worlds, n - 1, retries, b, i);
    } else {
      DeliveriesBefore(batches, worlds, b, retries, i);
    }
  }

  lemma {:induction false} TilesOrdered(batches: seq<Batch>, n: nat, b: nat, c: nat)
    requires Tiles(batches, n) && b < c < |batches|
    ensures batches[b].End() <= batches[c].offset
  {
    hide Start;
    StartNext(batches, c - 1);
    if b == c - 1 {
    } else {
      TilesOrdered(batches, n, b, c - 1);
    }
  }

  /** The batch holding event i. */
  lemma {:induction false} BatchOf(batches: seq<Batch>, n: nat, i: nat, upto: nat) returns (b: nat)
    requires Tiles(batches, n) && upto <= |batches| && i < Start(batches, upto)
    ensures b < upto && batches[b].offset <= i < batches[b].End()
  {
    hide Start;
    StartZero(batches);
    StartNext(batches, upto - 1);
    if batches[upto - 1].offset <= i {
      b := upto - 1;
    } else {
      b := BatchOf(batches, n, i, upto - 1);
    }
  }

  /**
   * At-most-once delivery over every script of outcomes. With k batches acknowledged and at
   * most one more attempted: no event is stored twice, every event of the first k batches is
   * stored exactly once, and no event behind the batch in flight is stored at all.
   */
  lemma AtMostOnceDelivery(s: seq<PutEvent>, batches: seq<Batch>, worlds: seq<BatchWorld>, retries: nat, i: nat)
    requires IsPartition(s, batches) && i < |s|
    requires WorldsFor(worlds, |batches|, retries)
    requires forall b | 0 <= b < |batches| :: Honest(worlds[b], batches[b].count)
    ensures var k := Acknowledged(worlds, |batches|, retries);
            var attempted := Min(k + 1, |batches|);
            var stored := Deliveries(batches, worlds, attempted, retries, i);
            && stored <= 1
            && (i < Start(batches, k) ==> stored == 1)
            && (i >= Start(batches, attempted) ==> stored == 0)
            && (k == |batches| ==> stored == 1)
  {
    hide BatchError, SendsOf, TimesStored, Honest, Start, Fits;
    var k := Acknowledged(worlds, |batches|, retries);
    var attempted := Min(k + 1, |batches|);
    StartZero(batches);
    var b := BatchOf(batches, |s|, i, |batches|);
    forall c | 0 <= c < |batches| && c != b
      ensures !(batches[c].offset <= i < batches[c].End())
    {
      TilesOrdered(batches, |s|, if b < c then b else c, if b < c then c else b);
    }
    forall m | 0 <= m <= |batches|
      ensures b < m ==> i < Start(batches, m)
      ensures m <= b ==> Start(batches, m) <= i
    {
      if m > 0 {
        StartNext(batches, m - 1);
        if b < m - 1 {
          TilesOrdered(batches, |s|, b, m - 1);
        } else if m - 1 < b {
          TilesOrdered(batches, |s|, m - 1, b);
        }
      }
    }
    if b < attempted {
      DeliveriesOfBatch(batches, worlds, attempted, retries, b, i);
      BatchDeliveries(worlds[b], batches[b].count, retries, i - batches[b].offset);
    } else {
      DeliveriesBefore(batches, worlds, attempted, retries, i);
    }
  }

  // ---------- the scalar function ----------

  datatype Cell = Unset | Invalid | Okay

  /** What the result vector holds once the first sent planned events are acknowledged. */
  predicate CellsAre(cells: seq<Cell>, rows: seq<Option<LogRow>>, planned: seq<PutEvent>, sent: nat)
    requires |cells| == |rows| && sent <= |planned|
  {
    forall r | 0 <= r < |rows| ::
      cells[r] == if rows[r].None? then Invalid else if exists j | 0 <= j < sent :: planned[j].sourceRow == r then Okay else Unset
  }

  /** The row loop: NULL rows become NULL results, every other row one event. */
  method CollectEvents(rows: seq<Option<LogRow>>, isNanos: bool, nowMs: Int64, result: array<Cell>) returns (events: seq<PutEvent>)
    requires result.Length == |rows| && forall r | 0 <= r < result.Length :: result[r] == Unset
    modifies result
    ensures events == EventsOf(rows, isNanos, nowMs) && TracksRows(events, rows, isNanos, nowMs)
    ensures forall r | 0 <= r < |rows| :: result[r] == if rows[r].None? then Invalid else Unset
  {
    hide TracksRows;
    events := [];
    for row := 0 to |rows|
      invariant events == EventsOf(rows[..row], isNanos, nowMs)
      invariant forall r | 0 <= r < row :: result[r] == if rows[r].None? then Invalid else Unset
      invariant forall r | row <= r < |rows| :: result[r] == Unset
    {
      assert rows[..row + 1][..row] == rows[..row];
      if rows[row].None? {
        result[row] := Invalid;
      } else {
        var time := ReadTimestampMs(rows[row].value.timestamp, isNanos);
        if time.None? {
          time := ReadTimestampMs(rows[row].value.observed, true);
          if time.None? {
            time := Some(nowMs);
          }
        }
        var message := if rows[row].value.message.Some? then rows[row].value.message.value else [];
        events := events + [PutEvent(time.value, message, row)];
      }
    }
    assert rows[..|rows|] == rows;
    EventsOfRows(rows, isNanos, nowMs);
  }

  /** Marks the rows of one acknowledged batch. */
  method MarkBatch(rows: seq<Option<LogRow>>, events: array<PutEvent>, batch: Batch, result: array<Cell>)
    requires result.Length == |rows| && batch.End() <= events.Length
    requires forall e | e in events[..] :: e.sourceRow < |rows| && rows[e.sourceRow].Some?
    requires CellsAre(result[..], rows, events[..], batch.offset)
    modifies result
    ensures CellsAre(result[..], rows, events[..], batch.End())
  {
    for index := batch.offset to batch.End()
      invariant CellsAre(result[..], rows, events[..], index)
    {
      assert events[..][index] in events[..];
      result[events[index].sourceRow] := Okay;
    }
  }

  /** One PutLogEvents call and the reading of its answer. */
  method SendBatch(client: CloudwatchClient, world: BatchWorld) returns (error: Option<SendError>)
    requires client.retries + 2 <= |world.script|
    modifies client
    ensures error == BatchError(world, client.retries)
  {
    if world.interrupted {
      return Some(SendInterrupted);
    }
    var run := client.PostInternal(WRITE_POLICY, false, world.script);
    if !run.result.Delivered? {
      return Some(PostFailed(run.result));
    }
    if world.response.None? {
      return Some(MalformedResponse);
    }
    if world.response.value.HasRejections() {
      return Some(PartiallyAccepted(world.response.value));
    }
    return None;
  }

  /** The batch loop; it ends with the first error. */
  method SendBatches(client: CloudwatchClient, rows: seq<Option<LogRow>>, worlds: seq<BatchWorld>,
                     events: array<PutEvent>, batches: seq<Batch>, result: array<Cell>)
    returns (error: Option<SendError>)
    requires result.Length == |rows| && Tiles(batches, events.Length)
    requires WorldsFor(worlds, |batches|, client.retries)
    requires forall e | e in events[..] :: e.sourceRow < |rows| && rows[e.sourceRow].Some?
    requires CellsAre(result[..], rows, events[..], 0)
    modifies client, result
    ensures events[..] == old(events[..])
    ensures var k := Acknowledged(worlds, |batches|, client.retries);
            && error == (if k == |batches| then None else BatchError(worlds[k], client.retries))
            && Start(batches, k) <= events.Length
            && CellsAre(result[..], rows, events[..], Start(batches, k))
  {
    hide BatchError, CellsAre, Start;
    var b := 0;
    error := None;
    StartZero(batches);
    while b < |batches| && error.None?
      invariant b <= |batches| && Start(batches, b) <= events.Length
      invariant forall c | 0 <= c < b :: BatchError(worlds[c], client.retries).None?
      invariant error.Some? ==> b < |batches| && error == BatchError(worlds[b], client.retries)
      invariant events[..] == old(events[..])
      invariant CellsAre(result[..], rows, events[..], Start(batches, b))
      decreases |batches| - b, error.None?
    {
      error := SendBatch(client, worlds[b]);
      if error.None? {
        MarkBatch(rows, events, batches[b], result);
        StartNext(batches, b);
        b := b + 1;
      }
    }
  }

  lemma NothingSent(cells: seq<Cell>, rows: seq<Option<LogRow>>, planned: seq<PutEvent>)
    requires |cells| == |rows| && forall r | 0 <= r < |rows| :: cells[r] == if rows[r].None? then Invalid else Unset
    ensures CellsAre(cells, rows, planned, 0)
  {
  }

  /** Sorting keeps the events, hence their source rows. */
  lemma PlannedRows(events: seq<PutEvent>, planned: seq<PutEvent>)
    requires IsStableSortOf(planned, events)
    ensures |planned| == |events| && forall e :: e in planned <==> e in events
  {
    assert |multiset(planned)| == |multiset(events)|;
    forall e ensures e in planned <==> e in events {
      assert e in multiset(planned) <==> e in multiset(events);
    }
  }

  /** When every planned event is sent, every row is settled. */
  lemma AllSettled(cells: seq<Cell>, rows: seq<Option<LogRow>>, isNanos: bool, nowMs: Int64, events: seq<PutEvent>, planned: seq<PutEvent>)
    requires |cells| == |rows| && TracksRows(events, rows, isNanos, nowMs) && forall e :: e in planned <==> e in events
    requires CellsAre(cells, rows, planned, |planned|)
    ensures forall r | 0 <= r < |rows| :: cells[r] == if rows[r].None? then Invalid else Okay
  {
    forall r | 0 <= r < |rows| && rows[r].Some? ensures cells[r] == Okay {
      var e :| e in events && e.sourceRow == r;
      assert e in planned;
      var j :| 0 <= j < |planned| && planned[j] == e;
    }
  }

  /** Planned events come from rows that are not NULL. */
  lemma RowsOfPlanned(rows: seq<Option<LogRow>>, isNanos: bool, nowMs: Int64, events: seq<PutEvent>, planned: seq<PutEvent>)
    requires TracksRows(events, rows, isNanos, nowMs) && forall e :: e in planned <==> e in events
    ensures |events| <= |rows| && forall e | e in planned :: e.sourceRow < |rows| && rows[e.sourceRow].Some?
  {
  }

  /** What the batches of a plan meet: the remote may answer differently to different plans. */
  type Remote = (seq<PutEvent>, seq<Batch>) -> seq<BatchWorld>

  /** The remote has a script for every batch of every plan of up to n batches. */
  ghost predicate Answers(remote: Remote, n: nat, retries: nat) {
    forall planned, batches | |batches| <= n :: WorldsFor(remote(planned, batches), |batches|, retries)
  }

  /**
   * The whole call. planned and batches are the sorted events and their plan; the call
   * returns normally exactly when every batch is acknowledged, otherwise with the error of the
   * first batch that is not.
   */
  method CloudwatchSendLogs(client: CloudwatchClient, rows: seq<Option<LogRow>>, isNanos: bool, nowMs: Int64,
                            remote: Remote, result: array<Cell>)
    returns (error: Option<SendError>, planned: seq<PutEvent>, batches: seq<Batch>)
    requires result.Length == |rows| && forall r | 0 <= r < result.Length :: result[r] == Unset
    requires Answers(remote, |rows|, client.retries)
    modifies client, result
    ensures var events := EventsOf(rows, isNanos, nowMs);
            match FirstError(events)
            case Some(e) => error == Some(NotPlanned(e)) && batches == [] && planned == []
            case None => TracksRows(events, rows, isNanos, nowMs) && IsStableSortOf(planned, events) && IsPartition(planned, batches) && IsMaximal(planned, batches)
    ensures FirstError(EventsOf(rows, isNanos, nowMs)).None? ==>
              && |batches| <= |rows|
              && var worlds := remote(planned, batches);
                 var k := Acknowledged(worlds, |batches|, client.retries);
                 && (error.None? <==> k == |batches|)
                 && (k < |batches| ==> error == BatchError(worlds[k], client.retries))
                 && CellsAre(result[..], rows, planned, Start(batches, k))
    ensures error.None? ==> forall r | 0 <= r < |rows| :: result[r] == if rows[r].None? then Invalid else Okay
  {
    hide IsStableSortOf, IsMaximal, FirstError, EventsOf, TracksRows, CellsAre, BatchError, Start, Fits, AllValid, StableSort;
    var collected := CollectEvents(rows, isNanos, nowMs, result);
    var events := new PutEvent[|collected|](i requires 0 <= i < |collected| => collected[i]);
    assert events[..] == collected;
    var plan := SortAndPlanCloudwatchPutEvents(events);
    if plan.Err? {
      return Some(NotPlanned(plan.error)), [], [];
    }
    batches := plan.value;
    planned := events[..];
    EventsOfRows(rows, isNanos, nowMs);
    PlannedRows(collected, planned);
    RowsOfPlanned(rows, isNanos, nowMs, collected, planned);
    FewerBatches(batches, |planned|, |batches|);
    NothingSent(result[..], rows, planned);
    error := SendBatches(client, rows, remote(planned, batches), events, batches, result);
    StartZero(batches);
    if error.None? {
      AllSettled(result[..], rows, isNanos, nowMs, collected, planned);
    }
  }
}
