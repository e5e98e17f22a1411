/**
 * send_cloudwatch_logs against the listener over a network that loses requests and answers, and
 * read_cloudwatch_logs afterwards: rows in, rows back.
 */
module SendThenScan {
  import opened Strings
  import opened PutPlanner
  import opened Transport
  import opened SendLogs
  import opened Doubles
  import opened Listener
  import opened ListenerRuns
  import opened EventIds
  import opened LogQuery
  import opened LogsScan
  import opened CloudwatchServerObject
  import opened WriteThenRead

  // ---------- one send ----------

  /**
   * What one send meets: without a fault the listener handles the request at nowMs and its answer
   * arrives; with one the client sees the fault, whether or not the request reached the listener.
   */
  datatype Hop = Hop(
    interrupted: bool,
    fault: Option<Outcome>,
    reached: bool,
    nowMs: int,
    refresh: Option<Credentials>,
    sleepInterrupted: bool)

  predicate Reaches(hop: Hop) {
    hop.fault.None? || hop.reached
  }

  predicate SuccessSeen(outcome: Outcome) {
    outcome.Response? && IsSuccess(outcome.status)
  }

  /** No fault looks like a success, and one that proves a rejection kept the request from the listener. */
  predicate Plausible(hop: Hop) {
    hop.fault.Some? ==> !SuccessSeen(hop.fault.value) && (DefinitelyRejected(hop.fault.value) ==> !hop.reached)
  }

  /** The listener's tables and its event counter. */
  type Remembered = (Store, nat)

  function Handled(state: Remembered, autoCreate: bool, put: PutRequest, hop: Hop): Remembered {
    if !Reaches(hop) then state
    else
      var (store, counter, _) := PutLogEvents(state.0, state.1, autoCreate, put, hop.nowMs);
      (store, counter)
  }

  function AfterSends(state: Remembered, autoCreate: bool, put: PutRequest, hops: seq<Hop>, n: nat): Remembered
    requires n <= |hops|
  {
    if n == 0 then state else Handled(AfterSends(state, autoCreate, put, hops, n - 1), autoCreate, put, hops[n - 1])
  }

  /** How the listener answers; the text of an error body is left out. */
  function Answer(reply: Reply): Outcome {
    if reply.Ok? then Response(200, "{}") else Response(400, [])
  }

  function ElementsOf(put: PutRequest): nat {
    if put.logEvents.Some? then |put.logEvents.value| else 0
  }

  function UpTo(n: nat): set<nat> {
    if n == 0 then {} else UpTo(n - 1) + {n - 1}
  }

  /** The turn of the client's loop that one send becomes, the listener being in the given state. */
  function TurnOf(state: Remembered, autoCreate: bool, put: PutRequest, hop: Hop): Turn {
    var reply := PutLogEvents(state.0, state.1, autoCreate, put, hop.nowMs).2;
    Turn(hop.interrupted, if hop.fault.Some? then hop.fault.value else Answer(reply), hop.refresh, hop.sleepInterrupted,
         if Reaches(hop) && reply.Ok? then UpTo(ElementsOf(put)) else {})
  }

  function ScriptOf(state: Remembered, autoCreate: bool, put: PutRequest, hops: seq<Hop>): (r: Script)
    ensures |r| == |hops|
    ensures forall k | 0 <= k < |r| :: r[k] == TurnOf(AfterSends(state, autoCreate, put, hops, k), autoCreate, put, hops[k])
  {
    seq(|hops|, k requires 0 <= k < |hops| => TurnOf(AfterSends(state, autoCreate, put, hops, k), autoCreate, put, hops[k]))
  }

  // ---------- one batch, and a whole run ----------

  /** What the sends of one batch meet, and an interrupt before the first. */
  datatype Net = Net(interrupted: bool, hops: seq<Hop>)

  /** The listener's setting, the stream addressed, the sender's retries, and the network under each batch. */
  datatype Link = Link(autoCreate: bool, group: Bytes, stream: Bytes, retries: nat, nets: seq<Net>)

  ghost predicate LinkOk(link: Link) {
    forall b | 0 <= b < |link.nets| ::
      link.retries + 2 <= |link.nets[b].hops| && forall k | 0 <= k < |link.nets[b].hops| :: Plausible(link.nets[b].hops[k])
  }

  predicate LongEnough(link: Link) {
    forall b | 0 <= b < |link.nets| :: link.retries + 2 <= |link.nets[b].hops|
  }

  /** An answered 2xx of the listener reports no rejected events. */
  const NO_REJECTIONS := PutResponse(false, false, false, false)

  function WorldOf(link: Link, state: Remembered, put: PutRequest, net: Net): (r: BatchWorld)
    ensures |r.script| == |net.hops|
  {
    BatchWorld(net.interrupted, ScriptOf(state, link.autoCreate, put, net.hops), Some(NO_REJECTIONS))
  }

  function AfterBatch(link: Link, state: Remembered, put: PutRequest, net: Net): Remembered
    requires link.retries + 2 <= |net.hops|
  {
    AfterSends(state, link.autoCreate, put, net.hops, SendsOf(WorldOf(link, state, put, net), link.retries))
  }

  /** The request that carries a batch. */
  function BatchRequest(link: Link, planned: seq<PutEvent>, batch: Batch): PutRequest {
    RequestOf(link.group, link.stream, if batch.End() <= |planned| then planned[batch.offset..batch.End()] else [])
  }

  /** The listener after the sends of the first n batches. */
  function AfterRun(link: Link, start: Remembered, planned: seq<PutEvent>, batches: seq<Batch>, n: nat): Remembered
    requires LongEnough(link) && n <= |batches| && n <= |link.nets|
  {
    if n == 0 then start
    else
      AfterBatch(link, AfterRun(link, start, planned, batches, n - 1), BatchRequest(link, planned, batches[n - 1]), link.nets[n - 1])
  }

  /** What each batch of a plan meets when the listener is at the other end. */
  function WorldsBy(link: Link, start: Remembered, planned: seq<PutEvent>, batches: seq<Batch>): (r: seq<BatchWorld>)
    requires LongEnough(link)
    ensures |r| == Min(|batches|, |link.nets|)
  {
    seq(Min(|batches|, |link.nets|), b requires 0 <= b < Min(|batches|, |link.nets|) =>
      WorldOf(link, AfterRun(link, start, planned, batches, b), BatchRequest(link, planned, batches[b]), link.nets[b]))
  }

  lemma WorldAt(link: Link, start: Remembered, planned: seq<PutEvent>, batches: seq<Batch>, b: nat)
    requires LongEnough(link) && b < |batches| && b < |link.nets|
    ensures WorldsBy(link, start, planned, batches)[b] ==
            WorldOf(link, AfterRun(link, start, planned, batches, b), BatchRequest(link, planned, batches[b]), link.nets[b])
  {
  }

  function RemoteOf(link: Link, start: Remembered): Remote
    requires LongEnough(link)
  {
    (planned, batches) => WorldsBy(link, start, planned, batches)
  }

  // ---------- what a batch leaves behind ----------

  lemma AnswerNotRejected(reply: Reply)
    ensures !DefinitelyRejected(Answer(reply))
  {
    assert !Contains([], "Throttling") && !Contains([], "ExpiredToken") && !Contains([], "RequestExpired");
  }

  lemma {:induction false} NothingReached(state: Remembered, autoCreate: bool, put: PutRequest, hops: seq<Hop>, n: nat)
    requires n <= |hops| && forall k | 0 <= k < n :: !Reaches(hops[k])
    ensures AfterSends(state, autoCreate, put, hops, n) == state
  {
    if n == 0 {
    } else {
      NothingReached(state, autoCreate, put, hops, n - 1);
    }
  }

  /** Sends that were definitely rejected did not reach the listener. */
  lemma RejectedStayOut(state: Remembered, autoCreate: bool, put: PutRequest, hops: seq<Hop>, n: nat)
    requires n <= |hops| && forall k | 0 <= k < |hops| :: Plausible(hops[k])
    requires forall k | 0 <= k < n :: DefinitelyRejected(ScriptOf(state, autoCreate, put, hops)[k].outcome)
    ensures AfterSends(state, autoCreate, put, hops, n) == state
  {
    hide DefinitelyRejected, PutLogEvents, AfterSends, Answer;
    var script := ScriptOf(state, autoCreate, put, hops);
    forall k | 0 <= k < n ensures !Reaches(hops[k]) {
      assert DefinitelyRejected(script[k].outcome);
      var before := AfterSends(state, autoCreate, put, hops, k);
      AnswerNotRejected(PutLogEvents(before.0, before.1, autoCreate, put, hops[k].nowMs).2);
      assert script[k] == TurnOf(before, autoCreate, put, hops[k]);
    }
    NothingReached(state, autoCreate, put, hops, n);
  }

  /** The stream exists and n more ids are to be had. */
  predicate Ready(link: Link, state: Remembered, n: nat) {
    && CStr(link.group) != [] && CStr(link.stream) != []
    && GroupExists(state.0.groups, CStr(link.group)) && StreamExists(state.0.groups, CStr(link.group), CStr(link.stream))
    && state.1 + n < UINT64
  }

  /** The listener holds what it held and rows besides, their ids used up. */
  predicate Holds(after: Remembered, before: Remembered, rows: seq<EventRow>) {
    after == (before.0.(events := before.0.events + rows), before.1 + |rows|)
  }

  lemma StoresLength(rows: seq<EventRow>, events: seq<PutEvent>, group: Bytes, stream: Bytes, counter: nat)
    requires StoresAll(rows, events, group, stream, counter)
    ensures |rows| == |events|
  {
  }

  /** The last send of the call stores the batch whole or not at all; a 2xx means it did. */
  lemma LastSend(link: Link, state: Remembered, events: seq<PutEvent>, hop: Hop) returns (rows: seq<EventRow>)
    requires Ready(link, state, |events|) && Plausible(hop)
    ensures var put := RequestOf(link.group, link.stream, events);
            && Holds(Handled(state, link.autoCreate, put, hop), state, rows)
            && (if Reaches(hop) then StoresAll(rows, events, link.group, link.stream, state.1) else rows == [])
            && (SuccessSeen(TurnOf(state, link.autoCreate, put, hop).outcome) ==> Reaches(hop))
  {
    hide CStr, GroupExists, StreamExists, StoresAll, RequestOf, PutLogEvents;
    rows := [];
    if Reaches(hop) {
      rows := PutBatch(state.0, state.1, link.autoCreate, link.group, link.stream, events, hop.nowMs);
      StoresLength(rows, events, link.group, link.stream, state.1);
    } else {
      assert state.0.events + [] == state.0.events;
    }
  }

  lemma NothingHeld(state: Remembered)
    ensures Holds(state, state, [])
  {
    assert state.0.events + [] == state.0.events;
  }

  lemma NoSendNoSuccess(world: BatchWorld, retries: nat)
    requires retries + 2 <= |world.script| && SendsOf(world, retries) == 0
    ensures BatchError(world, retries).Some?
  {
    hide Run;
    if !world.interrupted {
      RunRetriesOnlyRejected(WRITE_POLICY, retries, false, world.script, 0, false);
    }
  }

  /** All sends of a batch but the last were rejected; an acknowledged batch ends with a 2xx. */
  lemma EarlierRejected(world: BatchWorld, retries: nat)
    requires retries + 2 <= |world.script| && SendsOf(world, retries) > 0
    ensures var sends := SendsOf(world, retries);
            && (forall k | 0 <= k < sends - 1 :: DefinitelyRejected(world.script[k].outcome))
            && (BatchError(world, retries).None? ==> SuccessSeen(world.script[sends - 1].outcome))
  {
    hide Run, DefinitelyRejected;
    RunRetriesOnlyRejected(WRITE_POLICY, retries, false, world.script, 0, false);
  }

  /** A whole batch: stored once or not at all, and stored if the sender counts it as acknowledged. */
  lemma BatchStored(link: Link, state: Remembered, events: seq<PutEvent>, net: Net) returns (stored: bool, rows: seq<EventRow>)
    requires Ready(link, state, |events|) && link.retries + 2 <= |net.hops|
    requires forall k | 0 <= k < |net.hops| :: Plausible(net.hops[k])
    ensures var put := RequestOf(link.group, link.stream, events);
            && Holds(AfterBatch(link, state, put, net), state, rows)
            && (if stored then StoresAll(rows, events, link.group, link.stream, state.1) else rows == [])
            && (BatchError(WorldOf(link, state, put, net), link.retries).None? ==> stored)
  {
    hide DefinitelyRejected, TurnOf, Ready, StoresAll, RequestOf, Holds, Handled, Plausible, SendsOf, BatchError, SuccessSeen, Reaches, ScriptOf;
    var put := RequestOf(link.group, link.stream, events);
    var world := WorldOf(link, state, put, net);
    var sends := SendsOf(world, link.retries);
    stored, rows := false, [];
    if sends == 0 {
      assert AfterSends(state, link.autoCreate, put, net.hops, 0) == state;
      NothingHeld(state);
      NoSendNoSuccess(world, link.retries);
    } else {
      EarlierRejected(world, link.retries);
      RejectedStayOut(state, link.autoCreate, put, net.hops, sends - 1);
      rows := LastSend(link, state, events, net.hops[sends - 1]);
      stored := Reaches(net.hops[sends - 1]);
    }
  }

  // ---------- what a run leaves behind ----------

  lemma StillReady(link: Link, start: Remembered, planned: seq<PutEvent>, rows: seq<EventRow>, after: Remembered, from: nat, upto: nat)
    requires Ready(link, start, |planned|) && Holds(after, start, rows) && |rows| == from <= upto <= |planned|
    ensures Ready(link, after, upto - from)
  {
    hide CStr, GroupExists, StreamExists;
  }

  lemma HoldsBoth(a: Remembered, b: Remembered, c: Remembered, earlier: seq<EventRow>, later: seq<EventRow>)
    requires Holds(b, a, earlier) && Holds(c, b, later)
    ensures Holds(c, a, earlier + later)
  {
    assert a.0.events + earlier + later == a.0.events + (earlier + later);
  }

  lemma CounterAt(after: Remembered, before: Remembered, rows: seq<EventRow>)
    requires Holds(after, before, rows)
    ensures after.1 == before.1 + |rows|
  {
  }

  /** The next batch on top of batches that are all stored. */
  lemma OneBatchMore(link: Link, start: Remembered, planned: seq<PutEvent>, batches: seq<Batch>, b: nat, earlier: seq<EventRow>)
    returns (stored: bool, rows: seq<EventRow>)
    requires LinkOk(link) && LongEnough(link) && b < |batches| <= |link.nets| && Tiles(batches, |planned|)
    requires Ready(link, start, |planned|)
    requires Start(batches, b) <= |planned| && StoresAll(earlier, planned[..Start(batches, b)], link.group, link.stream, start.1)
    requires Holds(AfterRun(link, start, planned, batches, b), start, earlier)
    ensures Start(batches, b + 1) <= |planned|
    ensures StoresAll(rows, planned[..Start(batches, if stored then b + 1 else b)], link.group, link.stream, start.1)
    ensures Holds(AfterRun(link, start, planned, batches, b + 1), start, rows)
    ensures BatchError(WorldsBy(link, start, planned, batches)[b], link.retries).None? ==> stored
  {
    hide Ready, Holds, StoresAll, BatchError, AfterBatch, RequestOf, WorldOf, Start, WorldsBy;
    WorldAt(link, start, planned, batches, b);
    StartNext(batches, b);
    var from, upto := Start(batches, b), Start(batches, b + 1);
    var before := AfterRun(link, start, planned, batches, b);
    StoresLength(earlier, planned[..from], link.group, link.stream, start.1);
    StillReady(link, start, planned, earlier, before, from, upto);
    var more: seq<EventRow>;
    stored, more := BatchStored(link, before, planned[from..upto], link.nets[b]);
    rows := earlier + more;
    HoldsBoth(start, before, AfterRun(link, start, planned, batches, b + 1), earlier, more);
    if stored {
      CounterAt(before, start, earlier);
      JoinStores(earlier, more, planned, from, upto, link.group, link.stream, start.1);
    } else {
      assert rows == earlier;
    }
  }

  /** The first n batches are acknowledged. */
  ghost predicate AllAcknowledged(worlds: seq<BatchWorld>, n: nat, retries: nat)
    requires WorldsFor(worlds, n, retries)
  {
    forall b | 0 <= b < n :: BatchError(worlds[b], retries).None?
  }

  lemma AcknowledgedFront(worlds: seq<BatchWorld>, n: nat, retries: nat)
    requires WorldsFor(worlds, n, retries) && n > 0 && AllAcknowledged(worlds, n, retries)
    ensures AllAcknowledged(worlds, n - 1, retries) && BatchError(worlds[n - 1], retries).None?
  {
    hide BatchError;
  }

  lemma AcknowledgedAre(worlds: seq<BatchWorld>, n: nat, retries: nat)
    requires WorldsFor(worlds, n, retries)
    ensures var k := Acknowledged(worlds, n, retries);
            k <= n && AllAcknowledged(worlds, k, retries) && (k < n ==> BatchError(worlds[k], retries).Some?)
  {
    hide BatchError;
  }

  /** Acknowledged batches are stored, each once and in planned order. */
  lemma {:induction false} AcknowledgedStored(link: Link, start: Remembered, planned: seq<PutEvent>, batches: seq<Batch>, b: nat)
    returns (rows: seq<EventRow>)
    requires LinkOk(link) && LongEnough(link) && |batches| <= |link.nets| && Tiles(batches, |planned|)
    requires Ready(link, start, |planned|) && b <= |batches|
    requires WorldsFor(WorldsBy(link, start, planned, batches), b, link.retries)
    requires AllAcknowledged(WorldsBy(link, start, planned, batches), b, link.retries)
    ensures Start(batches, b) <= |planned|
    ensures StoresAll(rows, planned[..Start(batches, b)], link.group, link.stream, start.1)
    ensures Holds(AfterRun(link, start, planned, batches, b), start, rows)
  {
    hide Ready, Holds, StoresAll, BatchError, AfterBatch, Start, LinkOk, LongEnough, Tiles, WorldsBy, AllAcknowledged;
    if b == 0 {
      StartZero(batches);
      NothingStored(planned, link.group, link.stream, start.1);
      NothingHeld(start);
      rows := [];
    } else {
      AcknowledgedFront(WorldsBy(link, start, planned, batches), b, link.retries);
      var earlier := AcknowledgedStored(link, start, planned, batches, b - 1);
      var _, all := OneBatchMore(link, start, planned, batches, b - 1, earlier);
      rows := all;
    }
  }

  /** The batches a run attempts: the acknowledged ones and, short of all, the one that failed. */
  function Attempted(worlds: seq<BatchWorld>, n: nat, retries: nat): (r: nat)
    requires WorldsFor(worlds, n, retries)
    ensures r <= n
  {
    Min(Acknowledged(worlds, n, retries) + 1, n)
  }

  lemma WorldsReach(link: Link, start: Remembered, planned: seq<PutEvent>, batches: seq<Batch>)
    requires LongEnough(link) && |batches| <= |link.nets|
    ensures WorldsFor(WorldsBy(link, start, planned, batches), |batches|, link.retries)
  {
    hide AfterRun, ScriptOf, WorldsBy;
    var worlds := WorldsBy(link, start, planned, batches);
    forall b | 0 <= b < |worlds| ensures link.retries + 2 <= |worlds[b].script| {
      WorldAt(link, start, planned, batches, b);
    }
  }

  /** The acknowledged batches, and the one behind them if there is one. */
  lemma PrefixStored(link: Link, start: Remembered, planned: seq<PutEvent>, batches: seq<Batch>, k: nat)
    returns (m: nat, rows: seq<EventRow>)
    requires LinkOk(link) && LongEnough(link) && |batches| <= |link.nets| && Tiles(batches, |planned|)
    requires Ready(link, start, |planned|) && k <= |batches|
    requires WorldsFor(WorldsBy(link, start, planned, batches), k, link.retries)
    requires AllAcknowledged(WorldsBy(link, start, planned, batches), k, link.retries)
    ensures m == Start(batches, k) || (k < |batches| && m == Start(batches, k + 1))
    ensures m <= |planned| && StoresAll(rows, planned[..m], link.group, link.stream, start.1)
    ensures Holds(AfterRun(link, start, planned, batches, Min(k + 1, |batches|)), start, rows)
  {
    hide Ready, Holds, StoresAll, BatchError, AllAcknowledged, Start, LinkOk, LongEnough, Tiles, WorldsBy, AfterRun, WorldsFor;
    rows := AcknowledgedStored(link, start, planned, batches, k);
    m := Start(batches, k);
    if k < |batches| {
      var stored, all := OneBatchMore(link, start, planned, batches, k, rows);
      rows := all;
      if stored {
        m := Start(batches, k + 1);
      }
    }
  }

  /**
   * Whatever the network does, the listener ends with the events of the acknowledged batches and of
   * at most the one batch behind them, whole: each event once, in planned order.
   */
  lemma RunStoresPrefix(link: Link, start: Remembered, planned: seq<PutEvent>, batches: seq<Batch>)
    returns (m: nat, rows: seq<EventRow>)
    requires LinkOk(link) && LongEnough(link) && |batches| <= |link.nets| && Tiles(batches, |planned|)
    requires Ready(link, start, |planned|)
    ensures WorldsFor(WorldsBy(link, start, planned, batches), |batches|, link.retries)
    ensures var worlds := WorldsBy(link, start, planned, batches);
            var k := Acknowledged(worlds, |batches|, link.retries);
            var attempted := Attempted(worlds, |batches|, link.retries);
            && (m == Start(batches, k) || m == Start(batches, attempted)) && m <= |planned|
            && StoresAll(rows, planned[..m], link.group, link.stream, start.1)
            && Holds(AfterRun(link, start, planned, batches, attempted), start, rows)
  {
    hide Ready, Holds, StoresAll, BatchError, AllAcknowledged, Acknowledged, Start, LinkOk, LongEnough, Tiles, WorldsBy, AfterRun;
    WorldsReach(link, start, planned, batches);
    var worlds := WorldsBy(link, start, planned, batches);
    AcknowledgedAre(worlds, |batches|, link.retries);
    var k := Acknowledged(worlds, |batches|, link.retries);
    m, rows := PrefixStored(link, start, planned, batches, k);
  }

  // ---------- rows in, rows back ----------

  /** Sorting leaves one event per non-NULL row, with the row's message and its time. */
  ghost predicate OncePerRow(planned: seq<PutEvent>, rows: seq<Option<LogRow>>, isNanos: bool, nowMs: Int64) {
    && (forall r | 0 <= r < |rows| && rows[r].Some? :: exists e :: e in planned && e.sourceRow == r)
    && (forall e | e in planned :: e.sourceRow < |rows| && rows[e.sourceRow].Some? && CarriesRow(e, rows[e.sourceRow].value, isNanos, nowMs))
    && (forall i, j | 0 <= i < j < |planned| :: planned[i].sourceRow != planned[j].sourceRow)
  }

  lemma TwiceInMultiset(s: seq<PutEvent>, i: nat, j: nat)
    requires i < j < |s| && s[i] == s[j]
    ensures multiset(s)[s[i]] >= 2
  {
    assert s == s[..i] + [s[i]] + s[i + 1..j] + [s[j]] + s[j + 1..];
  }

  lemma {:induction false} OnceInMultiset(s: seq<PutEvent>, e: PutEvent)
    requires forall i, j | 0 <= i < j < |s| :: s[i].sourceRow != s[j].sourceRow
    ensures multiset(s)[e] <= 1
  {
    if s == [] {
    } else {
      var n := |s| - 1;
      OnceInMultiset(s[..n], e);
      assert s == s[..n] + [s[n]];
      if s[n] == e {
        assert e !in s[..n];
        assert e !in multiset(s[..n]);
      }
    }
  }

  lemma PlannedOncePerRow(rows: seq<Option<LogRow>>, isNanos: bool, nowMs: Int64, planned: seq<PutEvent>)
    requires IsStableSortOf(planned, EventsOf(rows, isNanos, nowMs))
    ensures OncePerRow(planned, rows, isNanos, nowMs)
  {
    hide CarriesRow, EventsOf, Sorted;
    var events := EventsOf(rows, isNanos, nowMs);
    EventsOfRows(rows, isNanos, nowMs);
    PlannedRows(events, planned);
    forall r | 0 <= r < |rows| && rows[r].Some? ensures exists e :: e in planned && e.sourceRow == r {
      var e :| e in events && e.sourceRow == r;
      assert e in planned;
    }
    forall i, j | 0 <= i < j < |planned| ensures planned[i].sourceRow != planned[j].sourceRow {
      assert planned[i] in planned && planned[j] in planned;
      if planned[i].sourceRow == planned[j].sourceRow {
        OneEventPerRow(events, rows, isNanos, nowMs, planned[i], planned[j]);
        TwiceInMultiset(planned, i, j);
        OnceInMultiset(events, planned[i]);
      }
    }
  }

  /** A row's event is read back with the row's own message and time, as the listener holds them. */
  lemma RowReadsBack(planned: seq<PutEvent>, rows: seq<Option<LogRow>>, isNanos: bool, nowMs: Int64, read: seq<LogEvent>, stream: Bytes, counter: nat, r: nat)
    returns (j: nat)
    requires OncePerRow(planned, rows, isNanos, nowMs) && ReadsBackAll(read, planned, stream, counter) && r < |rows| && rows[r].Some?
    ensures j < |read| && CarriesRow(planned[j], rows[r].value, isNanos, nowMs)
    ensures read[j].timestampMs == GetInt(planned[j].timestampMs)
    ensures rows[r].value.message.Some? ==> read[j].message == CStr(rows[r].value.message.value)
    ensures rows[r].value.timestamp.Some? && rows[r].value.timestamp.value.Integral? && !isNanos ==>
              read[j].timestampMs == GetInt(rows[r].value.timestamp.value.raw)
  {
    hide GetInt, CStr;
    var e :| e in planned && e.sourceRow == r;
    j :| 0 <= j < |planned| && planned[j] == e;
    assert ReadsBack(read[j], planned[j], stream, counter + j + 1);
  }

  /** After any run, the covering query finds a prefix of the plan: what was acknowledged, and perhaps the batch behind it. */
  lemma PrefixReadsBack(link: Link, start: Remembered, planned: seq<PutEvent>, batches: seq<Batch>, bind: LogsBind)
    returns (m: nat)
    requires LinkOk(link) && LongEnough(link) && |batches| <= |link.nets| && IsPartition(planned, batches) && Sorted(planned)
    requires Covers(start.0, bind, link.stream, planned) && bind.logGroup == link.group && start.1 + |planned| < TEN19
    ensures WorldsFor(WorldsBy(link, start, planned, batches), |batches|, link.retries)
    ensures var worlds := WorldsBy(link, start, planned, batches);
            var k := Acknowledged(worlds, |batches|, link.retries);
            var attempted := Attempted(worlds, |batches|, link.retries);
            var after := AfterRun(link, start, planned, batches, attempted);
            && (m == Start(batches, k) || m == Start(batches, attempted)) && m <= |planned|
            && WholeQuery(after.0, bind).Ok?
            && ReadsBackAll(WholeQuery(after.0, bind).value, planned[..m], link.stream, start.1)
  {
    hide StoresAll, Start, AfterRun, WorldsBy, LinkOk, LongEnough, IsPartition, Acknowledged, WholeQuery, ReadsBackAll, CStr, GetInt, InWindow,
         GroupExists, StreamExists;
    PartitionTiles(planned, batches);
    var rows: seq<EventRow>;
    m, rows := RunStoresPrefix(link, start, planned, batches);
    SortedPrefix(planned, m);
    assert forall e | e in planned[..m] :: e in planned;
    ScanFindsRows(start.0, rows, planned[..m], bind, link.stream, start.1);
    RowsReadBack(rows, planned[..m], link.group, link.stream, start.1);
  }

  // ---------- the listener's object on the other end ----------

  lemma NoSendYet(state: Remembered, autoCreate: bool, put: PutRequest, hops: seq<Hop>)
    ensures AfterSends(state, autoCreate, put, hops, 0) == state
  {
  }

  lemma SendStep(state: Remembered, autoCreate: bool, put: PutRequest, hops: seq<Hop>, n: nat)
    requires n < |hops|
    ensures AfterSends(state, autoCreate, put, hops, n + 1) == Handled(AfterSends(state, autoCreate, put, hops, n), autoCreate, put, hops[n])
  {
    hide PutLogEvents;
  }

  lemma CounterStays(state: Remembered, autoCreate: bool, put: PutRequest, nowMs: int)
    requires state.1 < UINT64
    ensures PutLogEvents(state.0, state.1, autoCreate, put, nowMs).1 < UINT64
  {
    hide CommitEvents, RowsOf, LeadingWellFormed;
  }

  method ListenOnce(server: CloudwatchServer, autoCreate: bool, put: PutRequest, hop: Hop)
    requires server.autoCreateGroups == autoCreate && server.eventCounter < UINT64
    modifies server
    ensures server.eventCounter < UINT64
    ensures (server.Tables(), server.eventCounter) == Handled(old((server.Tables(), server.eventCounter)), autoCreate, put, hop)
  {
    hide PutLogEvents, StoreOk;
    if Reaches(hop) {
      CounterStays((server.Tables(), server.eventCounter), autoCreate, put, hop.nowMs);
      var reply := server.HandlePutLogEvents(put, hop.nowMs);
    }
  }

  /** The first sends of one batch, as the listener handles them. */
  method ListenToSends(server: CloudwatchServer, autoCreate: bool, put: PutRequest, hops: seq<Hop>, sends: nat)
    requires server.autoCreateGroups == autoCreate && server.eventCounter < UINT64 && sends <= |hops|
    modifies server
    ensures server.eventCounter < UINT64
    ensures (server.Tables(), server.eventCounter) == AfterSends(old((server.Tables(), server.eventCounter)), autoCreate, put, hops, sends)
  {
    hide Handled, AfterSends;
    ghost var state := (server.Tables(), server.eventCounter);
    NoSendYet(state, autoCreate, put, hops);
    for n := 0 to sends
      invariant server.eventCounter < UINT64
      invariant (server.Tables(), server.eventCounter) == AfterSends(state, autoCreate, put, hops, n)
    {
      SendStep(state, autoCreate, put, hops, n);
      ListenOnce(server, autoCreate, put, hops[n]);
    }
  }

  lemma SendsWithin(link: Link, state: Remembered, put: PutRequest, net: Net)
    requires link.retries + 2 <= |net.hops|
    ensures var sends := SendsOf(WorldOf(link, state, put, net), link.retries);
            sends <= |net.hops| && AfterBatch(link, state, put, net) == AfterSends(state, link.autoCreate, put, net.hops, sends)
  {
    hide SendsOf, AfterSends;
  }

  /** The first n batches, one after the other. */
  method Listen(server: CloudwatchServer, link: Link, planned: seq<PutEvent>, batches: seq<Batch>, n: nat)
    requires server.autoCreateGroups == link.autoCreate && server.eventCounter < UINT64
    requires LongEnough(link) && n <= |batches| && n <= |link.nets|
    modifies server
    ensures (server.Tables(), server.eventCounter) == AfterRun(link, old((server.Tables(), server.eventCounter)), planned, batches, n)
  {
    hide AfterBatch, AfterSends, BatchRequest, SendsOf, WorldOf;
    ghost var start := (server.Tables(), server.eventCounter);
    for b := 0 to n
      invariant server.eventCounter < UINT64
      invariant (server.Tables(), server.eventCounter) == AfterRun(link, start, planned, batches, b)
    {
      var put, net := BatchRequest(link, planned, batches[b]), link.nets[b];
      var state := (Store(server.groups, server.events), server.eventCounter);
      SendsWithin(link, state, put, net);
      ListenToSends(server, link.autoCreate, put, net.hops, SendsOf(WorldOf(link, state, put, net), link.retries));
    }
  }

  lemma RemoteAnswers(link: Link, start: Remembered, n: nat)
    requires LongEnough(link) && n <= |link.nets|
    ensures Answers(RemoteOf(link, start), n, link.retries)
    ensures forall planned, batches :: RemoteOf(link, start)(planned, batches) == WorldsBy(link, start, planned, batches)
  {
    hide WorldsBy, WorldsFor, LongEnough;
    forall planned, batches | |batches| <= n
      ensures WorldsFor(RemoteOf(link, start)(planned, batches), |batches|, link.retries)
    {
      WorldsReach(link, start, planned, batches);
    }
  }

  /** What the scan needs of a plan, whether the events were planned or refused. */
  lemma PlanHolds(store: Store, bind: LogsBind, stream: Bytes, rows: seq<Option<LogRow>>, isNanos: bool, nowMs: Int64,
                  events: seq<PutEvent>, planned: seq<PutEvent>, batches: seq<Batch>)
    requires Covers(store, bind, stream, events) && events == EventsOf(rows, isNanos, nowMs)
    requires (planned == [] && batches == []) || (IsStableSortOf(planned, events) && IsPartition(planned, batches))
    ensures Covers(store, bind, stream, planned) && Sorted(planned) && IsPartition(planned, batches) && |planned| <= |rows| && |batches| <= |planned|
    ensures IsStableSortOf(planned, events) ==> OncePerRow(planned, rows, isNanos, nowMs)
    ensures Tiles(batches, |planned|) && Start(batches, |batches|) == |planned| && ValidBind(bind)
  {
    EventsOfRows(rows, isNanos, nowMs);
    assert |events| <= |rows|;
    if IsStableSortOf(planned, events) {
      PlannedOncePerRow(rows, isNanos, nowMs, planned);
      hide OncePerRow, EventsOf, TracksRows;
      SortedOf(planned, events);
      CoversPlanned(store, bind, stream, events, planned);
    }
    hide OncePerRow, EventsOf, TracksRows, Covers, IsStableSortOf;
    PartitionTiles(planned, batches);
    FewBatches(planned, batches);
  }

  /** Later batches start later. */
  lemma StartsRise(batches: seq<Batch>, n: nat, k: nat, m: nat)
    requires Tiles(batches, n) && k <= m <= |batches| && m <= k + 1
    ensures Start(batches, k) <= Start(batches, m) <= n
  {
    hide Start;
    if k < |batches| {
      StartNext(batches, k);
    }
  }

  /**
   * Rows in, rows back: send_cloudwatch_logs sends the rows, the listener handles what reaches it,
   * and the stream is scanned page by page. The scan returns the first stored events of the plan: all of
   * them after a normal return, one per row that is not NULL; after an error those of the rows marked ok
   * at least, and no event twice.
   */
  method SendThenScan(client: CloudwatchClient, server: CloudwatchServer, rows: seq<Option<LogRow>>, isNanos: bool, nowMs: Int64,
                      link: Link, bind: LogsBind, result: array<Cell>)
    returns (error: Option<SendError>, planned: seq<PutEvent>, r: Result<seq<seq<LogEvent>>, QueryError>, ghost sent: nat, ghost stored: nat)
    requires client.retries == link.retries && server.autoCreateGroups == link.autoCreate
    requires LinkOk(link) && LongEnough(link) && |rows| <= |link.nets| && |rows| <= INT64_MAX
    requires result.Length == |rows| && forall i | 0 <= i < result.Length :: result[i] == Unset
    requires Covers(server.Tables(), bind, link.stream, EventsOf(rows, isNanos, nowMs)) && bind.logGroup == link.group
    requires server.eventCounter + |rows| < TEN19
    modifies client, server, result
    ensures sent <= stored <= |planned|
    ensures var events := EventsOf(rows, isNanos, nowMs);
            if FirstError(events).Some? then error == Some(NotPlanned(FirstError(events).value)) && planned == []
            else IsStableSortOf(planned, events) && OncePerRow(planned, rows, isNanos, nowMs) && CellsAre(result[..], rows, planned, sent)
    ensures error.None? ==> sent == |planned| && forall i | 0 <= i < |rows| :: result[i] == if rows[i].None? then Invalid else Okay
    ensures r.Ok? && ReadsBackAll(Concat(r.value), planned[..Target(stored, bind.maxRows)], link.stream, old(server.eventCounter))
  {
    hide EventsOf, Answers, StableSort, IsStableSortOf, IsPartition, IsMaximal, AfterRun, WorldsBy, WholeQuery, ReadsBackAll, CStr, GetInt, InWindow,
         GroupExists, StreamExists, AllValid, FirstError, Concat, Acknowledged, CellsAre, OncePerRow, Start, Covers, LinkOk, LongEnough, BatchError;
    ghost var start, events := (server.Tables(), server.eventCounter), EventsOf(rows, isNanos, nowMs);
    var remote := RemoteOf(link, (Store(server.groups, server.events), server.eventCounter));
    RemoteAnswers(link, start, |rows|);
    var batches: seq<Batch>;
    error, planned, batches := CloudwatchSendLogs(client, rows, isNanos, nowMs, remote, result);
    PlanHolds(start.0, bind, link.stream, rows, isNanos, nowMs, events, planned, batches);
    stored := PrefixReadsBack(link, start, planned, batches, bind);
    var worlds := remote(planned, batches);
    var k := Acknowledged(worlds, |batches|, link.retries);
    sent := Start(batches, k);
    StartsRise(batches, |planned|, k, Attempted(worlds, |batches|, link.retries));
    Listen(server, link, planned, batches, Attempted(worlds, |batches|, link.retries));
    assert server.Tables() == AfterRun(link, start, planned, batches, Attempted(worlds, |batches|, link.retries)).0;
    ghost var all := WholeQuery(server.Tables(), bind).value;
    ReadsBackLength(all, planned[..stored], link.stream, start.1);
    r := ScanAll(bind, server);
    ReadsBackPrefix(all, planned[..stored], link.stream, start.1, Target(stored, bind.maxRows));
    assert planned[..stored][..Target(stored, bind.maxRows)] == planned[..Target(stored, bind.maxRows)];
  }
}
