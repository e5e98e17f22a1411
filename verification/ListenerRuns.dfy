/**
 * Requests running side by side in the listener (src/cloudwatch_server.cpp): id allocation is
 * one atomic increment per event, outside writer_mutex; every table access is one step inside it.
 */
module ListenerRuns {
  import opened Doubles
  import opened Strings
  import opened Listener

  /** A PutLogEvents request between its arrival and its commit: done elements have their row and id. */
  datatype Pending = Pending(put: PutRequest, nowMs: int, rows: seq<EventRow>)

  datatype System = System(store: Store, counter: nat, pending: map<nat, Pending>)

  datatype Step =
    | Arrive(thread: nat, put: PutRequest, nowMs: int)
    | Allocate(thread: nat)
    | Commit(thread: nat)
    | Create(group: Bytes, nowMs: int)
    | Delete(group: Bytes)
    | CreateStream(group: Bytes, stream: Bytes, nowMs: int)
    | Retain(group: Bytes, days: Option<Number>)

  const EMPTY := System(Store([], []), 0, map[])

  function Remaining(p: Pending): int
    requires p.put.logEvents.Some?
  {
    |p.put.logEvents.value| - |p.rows|
  }

  /** Whether thread t can take its next Allocate, or its Commit when none is left. */
  predicate Running(sys: System, t: nat) {
    t in sys.pending && Addressed(sys.pending[t].put) && Remaining(sys.pending[t]) >= 0
  }

  function Locked(sys: System, outcome: (Store, Reply)): (System, Option<Reply>) {
    (sys.(store := outcome.0), Some(outcome.1))
  }

  /** One atomic step; a step that is not enabled changes nothing. The reply is what a finished request answers. */
  function Apply(sys: System, autoCreate: bool, step: Step): (System, Option<Reply>) {
    match step
    case Arrive(t, put, nowMs) =>
      if t in sys.pending then (sys, None)
      else if !Addressed(put) then (sys, Some(Err(InvalidParameter)))
      else (sys.(pending := sys.pending[t := Pending(put, nowMs, [])]), None)
    case Allocate(t) =>
      if !Running(sys, t) || Remaining(sys.pending[t]) == 0 then (sys, None)
      else
        var p := sys.pending[t];
        var e := p.put.logEvents.value[|p.rows|];
        if !WellFormed(e) then (sys.(pending := sys.pending - {t}), Some(Err(InvalidParameter)))
        else
          var id := (sys.counter + 1) % UINT64;
          (sys.(counter := id, pending := sys.pending[t := p.(rows := p.rows + [RowOf(p.put, e, p.nowMs, id)])]), None)
    case Commit(t) =>
      if !Running(sys, t) || Remaining(sys.pending[t]) > 0 then (sys, None)
      else
        var p := sys.pending[t];
        var (store, reply) := CommitEvents(sys.store, autoCreate, p.put.logGroup, p.put.logStream, p.nowMs, p.rows);
        (sys.(store := store, pending := sys.pending - {t}), Some(reply))
    case Create(group, nowMs) => Locked(sys, CreateLogGroup(sys.store, group, nowMs))
    case Delete(group) => Locked(sys, DeleteLogGroup(sys.store, group))
    case CreateStream(group, stream, nowMs) => Locked(sys, CreateLogStream(sys.store, group, stream, nowMs))
    case Retain(group, days) => Locked(sys, PutRetentionPolicy(sys.store, group, days))
  }

  function RunSteps(sys: System, autoCreate: bool, steps: seq<Step>): System {
    if steps == [] then sys else Apply(RunSteps(sys, autoCreate, steps[..|steps| - 1]), autoCreate, steps[|steps| - 1]).0
  }

  // ---------- table invariants ----------

  predicate OneRowPerKey(groups: seq<GroupRow>) {
    forall i, j | 0 <= i < j < |groups| :: groups[i].logGroup != groups[j].logGroup || groups[i].logStream != groups[j].logStream
  }

  predicate StreamsHaveGroups(groups: seq<GroupRow>) {
    forall i | 0 <= i < |groups| :: GroupExists(groups, groups[i].logGroup)
  }

  predicate EventsHaveStreams(store: Store) {
    forall i | 0 <= i < |store.events| :: StreamExists(store.groups, store.events[i].logGroup, store.events[i].logStream)
  }

  predicate TablesOk(store: Store) {
    OneRowPerKey(store.groups) && StreamsHaveGroups(store.groups) && EventsHaveStreams(store)
  }

  lemma HasRowMember(groups: seq<GroupRow>, group: Bytes, stream: Option<Bytes>)
    ensures HasRow(groups, group, stream) <==> exists row :: row in groups && row.logGroup == group && row.logStream == stream
  {
    if row :| row in groups && row.logGroup == group && row.logStream == stream {
      var i :| 0 <= i < |groups| && groups[i] == row;
    }
  }

  lemma HasRowAppend(groups: seq<GroupRow>, row: GroupRow, group: Bytes, stream: Option<Bytes>)
    ensures HasRow(groups + [row], group, stream) <==>
            HasRow(groups, group, stream) || (row.logGroup == group && row.logStream == stream)
  {
    if HasRow(groups, group, stream) {
      var i :| 0 <= i < |groups| && groups[i].logGroup == group && groups[i].logStream == stream;
      assert (groups + [row])[i] == groups[i];
    }
    assert (groups + [row])[|groups|] == row;
  }

  /** Adding a row whose key is new, and whose group has its row, keeps the tables. */
  lemma AddRow(store: Store, row: GroupRow)
    requires TablesOk(store) && !HasRow(store.groups, row.logGroup, row.logStream)
    requires row.logStream.None? || GroupExists(store.groups, row.logGroup)
    ensures TablesOk(store.(groups := store.groups + [row]))
  {
    var groups := store.groups + [row];
    forall i | 0 <= i < |groups| ensures GroupExists(groups, groups[i].logGroup) {
      HasRowAppend(store.groups, row, groups[i].logGroup, None);
    }
    forall i | 0 <= i < |store.events|
      ensures StreamExists(groups, store.events[i].logGroup, store.events[i].logStream)
    {
      HasRowAppend(store.groups, row, store.events[i].logGroup, Some(store.events[i].logStream));
    }
  }

  lemma {:induction false} KeysOutside(groups: seq<GroupRow>, group: Bytes)
    requires OneRowPerKey(groups)
    ensures OneRowPerKey(GroupsOutside(groups, group))
  {
    if groups == [] {
    } else {
      KeysOutside(groups[1..], group);
      var rest := GroupsOutside(groups[1..], group);
      forall j | 0 <= j < |rest|
        ensures rest[j].logGroup != groups[0].logGroup || rest[j].logStream != groups[0].logStream
      {
        assert rest[j] in groups[1..];
      }
    }
  }

  /** Deleting a group deletes its streams and their events: no row is left hanging. */
  lemma DeleteKeepsTables(store: Store, group: Bytes)
    requires TablesOk(store)
    ensures TablesOk(Store(GroupsOutside(store.groups, group), EventsOutside(store.events, group)))
  {
    var groups, events := GroupsOutside(store.groups, group), EventsOutside(store.events, group);
    KeysOutside(store.groups, group);
    forall i | 0 <= i < |groups| ensures GroupExists(groups, groups[i].logGroup) {
      assert groups[i] in store.groups;
      HasRowMember(store.groups, groups[i].logGroup, None);
      HasRowMember(groups, groups[i].logGroup, None);
    }
    forall i | 0 <= i < |events| ensures StreamExists(groups, events[i].logGroup, events[i].logStream) {
      assert events[i] in store.events;
      HasRowMember(store.groups, events[i].logGroup, Some(events[i].logStream));
      HasRowMember(groups, events[i].logGroup, Some(events[i].logStream));
    }
  }

  lemma RetentionKeepsTables(store: Store, group: Bytes, days: int)
    requires TablesOk(store)
    ensures TablesOk(store.(groups := WithRetention(store.groups, group, days)))
  {
    var groups := WithRetention(store.groups, group, days);
    forall g, s ensures HasRow(store.groups, g, s) ==> HasRow(groups, g, s) {
      if HasRow(store.groups, g, s) {
        var i :| 0 <= i < |store.groups| && store.groups[i].logGroup == g && store.groups[i].logStream == s;
        assert groups[i].logGroup == g && groups[i].logStream == s;
      }
    }
    forall i | 0 <= i < |groups| ensures GroupExists(groups, groups[i].logGroup) {
      assert GroupExists(store.groups, store.groups[i].logGroup);
    }
  }

  /** A commit keeps the tables, whether or not it has to create the group and the stream. */
  lemma CommitKeepsTables(store: Store, autoCreate: bool, group: Bytes, stream: Bytes, nowMs: int, rows: seq<EventRow>)
    requires TablesOk(store)
    requires forall i | 0 <= i < |rows| :: rows[i].logGroup == group && rows[i].logStream == stream
    ensures TablesOk(CommitEvents(store, autoCreate, group, stream, nowMs, rows).0)
  {
    var (next, reply) := CommitEvents(store, autoCreate, group, stream, nowMs, rows);
    if reply.Ok? {
      var withGroup := store;
      if !GroupExists(store.groups, group) {
        AddRow(store, GroupRow(group, None, None, nowMs));
        HasRowAppend(store.groups, GroupRow(group, None, None, nowMs), group, None);
        withGroup := store.(groups := store.groups + [GroupRow(group, None, None, nowMs)]);
      }
      var withStream := withGroup;
      if !StreamExists(withGroup.groups, group, stream) {
        AddRow(withGroup, GroupRow(group, Some(stream), None, nowMs));
        HasRowAppend(withGroup.groups, GroupRow(group, Some(stream), None, nowMs), group, Some(stream));
        withStream := withGroup.(groups := withGroup.groups + [GroupRow(group, Some(stream), None, nowMs)]);
      }
      assert next == withStream.(events := store.events + rows);
    }
  }

  // ---------- id invariants ----------

  /** The id was handed out: it is the decimal text of a number in 1..counter. */
  predicate Issued(row: EventRow, counter: nat) {
    AllDigits(row.eventId) && 1 <= DecimalValue(row.eventId) <= counter
  }

  predicate AllIssued(rows: seq<EventRow>, counter: nat) {
    forall i | 0 <= i < |rows| :: Issued(rows[i], counter)
  }

  predicate DistinctIds(rows: seq<EventRow>) {
    forall i, j | 0 <= i < j < |rows| :: rows[i].eventId != rows[j].eventId
  }

  predicate ApartIds(a: seq<EventRow>, b: seq<EventRow>) {
    forall i, j | 0 <= i < |a| && 0 <= j < |b| :: a[i].eventId != b[j].eventId
  }

  predicate PendingOk(p: Pending) {
    && Addressed(p.put)
    && Remaining(p) >= 0
    && forall i | 0 <= i < |p.rows| :: p.rows[i].logGroup == p.put.logGroup && p.rows[i].logStream == p.put.logStream
  }

  predicate IdsOk(sys: System) {
    && AllIssued(sys.store.events, sys.counter)
    && DistinctIds(sys.store.events)
    && (forall t | t in sys.pending :: AllIssued(sys.pending[t].rows, sys.counter) && DistinctIds(sys.pending[t].rows))
    && (forall t | t in sys.pending :: ApartIds(sys.store.events, sys.pending[t].rows))
    && (forall t, u | t in sys.pending && u in sys.pending && t != u :: ApartIds(sys.pending[t].rows, sys.pending[u].rows))
  }

  /** What every reachable listener state satisfies. */
  predicate Inv(sys: System) {
    TablesOk(sys.store) && IdsOk(sys) && forall t | t in sys.pending :: PendingOk(sys.pending[t])
  }

  lemma {:induction false} IdsOutside(events: seq<EventRow>, group: Bytes)
    requires DistinctIds(events)
    ensures DistinctIds(EventsOutside(events, group))
  {
    if events == [] {
    } else {
      IdsOutside(events[1..], group);
      var rest := EventsOutside(events[1..], group);
      forall j | 0 <= j < |rest| ensures rest[j].eventId != events[0].eventId {
        assert rest[j] in events[1..];
      }
    }
  }

  lemma DeleteKeepsIds(sys: System, group: Bytes)
    requires IdsOk(sys)
    ensures IdsOk(sys.(store := Store(GroupsOutside(sys.store.groups, group), EventsOutside(sys.store.events, group))))
  {
    var events := EventsOutside(sys.store.events, group);
    IdsOutside(sys.store.events, group);
    forall i | 0 <= i < |events| ensures Issued(events[i], sys.counter) {
      assert events[i] in sys.store.events;
    }
    forall t | t in sys.pending ensures ApartIds(events, sys.pending[t].rows) {
      forall i, j | 0 <= i < |events| && 0 <= j < |sys.pending[t].rows|
        ensures events[i].eventId != sys.pending[t].rows[j].eventId
      {
        assert events[i] in sys.store.events;
        assert ApartIds(sys.store.events, sys.pending[t].rows);
      }
    }
  }

  /** A fresh id exceeds every issued one, so it collides with nothing stored or pending. */
  lemma FreshId(sys: System, t: nat, row: EventRow)
    requires IdsOk(sys) && t in sys.pending && row.eventId == EventId(sys.counter + 1)
    ensures var p := sys.pending[t];
            IdsOk(sys.(counter := sys.counter + 1, pending := sys.pending[t := p.(rows := p.rows + [row])]))
  {
    hide DecimalValue, AllDigits, EventId;
    EventIdValue(sys.counter + 1);
  }

  lemma CommitKeepsIds(sys: System, store: Store, t: nat)
    requires IdsOk(sys) && t in sys.pending
    requires store.events == sys.store.events || store.events == sys.store.events + sys.pending[t].rows
    ensures IdsOk(sys.(store := store, pending := sys.pending - {t}))
  {
    hide DecimalValue, AllDigits;
  }

  lemma ArriveKeepsIds(sys: System, t: nat, put: PutRequest, nowMs: int)
    requires IdsOk(sys) && t !in sys.pending
    ensures IdsOk(sys.(pending := sys.pending[t := Pending(put, nowMs, [])]))
  {
    hide Issued;
  }

  lemma AbandonKeepsIds(sys: System, t: nat)
    requires IdsOk(sys)
    ensures IdsOk(sys.(pending := sys.pending - {t}))
  {
    hide Issued;
  }

  lemma SameEventsKeepIds(sys: System, store: Store)
    requires IdsOk(sys) && store.events == sys.store.events
    ensures IdsOk(sys.(store := store))
  {
    hide Issued;
  }

  lemma StepKeepsIds(sys: System, autoCreate: bool, step: Step)
    requires IdsOk(sys) && (step.Allocate? ==> sys.counter + 1 < UINT64)
    ensures IdsOk(Apply(sys, autoCreate, step).0)
  {
    hide IdsOk, EventId, GroupExists, StreamExists, WellFormed;
    var next := Apply(sys, autoCreate, step).0;
    match step
    case Arrive(t, put, nowMs) =>
      if t !in sys.pending && Addressed(put) {
        ArriveKeepsIds(sys, t, put, nowMs);
      }
    case Allocate(t) =>
      if Running(sys, t) && Remaining(sys.pending[t]) > 0 {
        var p := sys.pending[t];
        var e := p.put.logEvents.value[|p.rows|];
        if WellFormed(e) {
          FreshId(sys, t, RowOf(p.put, e, p.nowMs, sys.counter + 1));
        } else {
          AbandonKeepsIds(sys, t);
        }
      }
    case Commit(t) =>
      if Running(sys, t) && Remaining(sys.pending[t]) == 0 {
        CommitKeepsIds(sys, next.store, t);
      }
    case Delete(group) =>
      DeleteKeepsIds(sys, group);
    case _ =>
      SameEventsKeepIds(sys, next.store);
  }

  lemma StepKeepsPending(sys: System, autoCreate: bool, step: Step)
    requires forall t | t in sys.pending :: PendingOk(sys.pending[t])
    ensures var next := Apply(sys, autoCreate, step).0; forall t | t in next.pending :: PendingOk(next.pending[t])
  {
    hide GroupExists, StreamExists, CommitEvents, EventId, WellFormed;
  }

  lemma StepKeepsTables(sys: System, autoCreate: bool, step: Step)
    requires TablesOk(sys.store) && forall t | t in sys.pending :: PendingOk(sys.pending[t])
    ensures TablesOk(Apply(sys, autoCreate, step).0.store)
  {
    hide TablesOk, HasRow;
    match step
    case Arrive(t, put, nowMs) =>
    case Allocate(t) =>
    case Commit(t) =>
      if Running(sys, t) && Remaining(sys.pending[t]) == 0 {
        var p := sys.pending[t];
        CommitKeepsTables(sys.store, autoCreate, p.put.logGroup, p.put.logStream, p.nowMs, p.rows);
      }
    case Create(group, nowMs) =>
      if !GroupExists(sys.store.groups, group) {
        AddRow(sys.store, GroupRow(group, None, None, nowMs));
      }
    case Delete(group) => DeleteKeepsTables(sys.store, group);
    case CreateStream(group, stream, nowMs) =>
      if GroupExists(sys.store.groups, group) && !StreamExists(sys.store.groups, group, stream) {
        AddRow(sys.store, GroupRow(group, Some(stream), None, nowMs));
      }
    case Retain(group, days) =>
      if days.Some? {
        RetentionKeepsTables(sys.store, group, GetNumber(days.value));
      }
  }

  /** Every step of every request keeps the listener invariant. */
  lemma StepKeepsInv(sys: System, autoCreate: bool, step: Step)
    requires Inv(sys) && (step.Allocate? ==> sys.counter + 1 < UINT64)
    ensures Inv(Apply(sys, autoCreate, step).0)
  {
    hide IdsOk, TablesOk, Apply, PendingOk;
    StepKeepsIds(sys, autoCreate, step);
    StepKeepsTables(sys, autoCreate, step);
    StepKeepsPending(sys, autoCreate, step);
  }

  lemma CounterStep(sys: System, autoCreate: bool, step: Step)
    ensures Apply(sys, autoCreate, step).0.counter <= sys.counter + if step.Allocate? then 1 else 0
  {
    hide GroupExists, StreamExists, CommitEvents, RowOf, WellFormed, GroupsOutside, EventsOutside, WithRetention;
  }

  /** How many ids the steps can hand out. */
  function AllocateCount(steps: seq<Step>): nat {
    if steps == [] then 0 else AllocateCount(steps[..|steps| - 1]) + if steps[|steps| - 1].Allocate? then 1 else 0
  }

  lemma {:induction false} AllocateCountBound(steps: seq<Step>)
    ensures AllocateCount(steps) <= |steps|
  {
    if steps == [] {
    } else {
      AllocateCountBound(steps[..|steps| - 1]);
    }
  }

  /** From any state that satisfies it, every interleaving with ids to spare keeps the invariant. */
  lemma {:induction false} RunsKeepInvFrom(sys: System, autoCreate: bool, steps: seq<Step>)
    requires Inv(sys) && sys.counter + AllocateCount(steps) < UINT64
    ensures Inv(RunSteps(sys, autoCreate, steps)) && RunSteps(sys, autoCreate, steps).counter <= sys.counter + AllocateCount(steps)
  {
    hide Inv, Apply;
    if steps == [] {
    } else {
      var before, step := steps[..|steps| - 1], steps[|steps| - 1];
      RunsKeepInvFrom(sys, autoCreate, before);
      StepKeepsInv(RunSteps(sys, autoCreate, before), autoCreate, step);
      CounterStep(RunSteps(sys, autoCreate, before), autoCreate, step);
    }
  }

  /** From empty tables, every interleaving that hands out fewer than 2^64 ids keeps the invariant. */
  lemma RunsKeepInv(autoCreate: bool, steps: seq<Step>)
    requires AllocateCount(steps) < UINT64
    ensures Inv(RunSteps(EMPTY, autoCreate, steps)) && RunSteps(EMPTY, autoCreate, steps).counter <= |steps|
  {
    hide RunSteps;
    RunsKeepInvFrom(EMPTY, autoCreate, steps);
    AllocateCountBound(steps);
  }

  /** A request answered with an AwsError has left both tables as they were. */
  lemma ErrorsChangeNothing(sys: System, autoCreate: bool, step: Step)
    ensures var (next, reply) := Apply(sys, autoCreate, step);
            reply.Some? && reply.value.Err? ==> next.store == sys.store
  {
  }

  // ---------- the sequential handler is one of the interleavings ----------

  function Allocations(t: nat, put: PutRequest, nowMs: int, n: nat): seq<Step> {
    if n == 0 then [Arrive(t, put, nowMs)] else Allocations(t, put, nowMs, n - 1) + [Allocate(t)]
  }

  /** The state once the first n elements of the request have their rows. */
  function Prepared(sys: System, t: nat, put: PutRequest, nowMs: int, n: nat): System
    requires Addressed(put) && n <= LeadingWellFormed(put.logEvents.value)
  {
    sys.(counter := (sys.counter + n) % UINT64,
         pending := sys.pending[t := Pending(put, nowMs, RowsOf(put, put.logEvents.value[..n], nowMs, sys.counter))])
  }

  lemma AllocateOne(sys: System, autoCreate: bool, t: nat, p: Pending)
    requires t in sys.pending && sys.pending[t] == p
    requires Addressed(p.put) && |p.rows| < LeadingWellFormed(p.put.logEvents.value)
    ensures var id := (sys.counter + 1) % UINT64;
            Apply(sys, autoCreate, Allocate(t)).0 ==
            sys.(counter := id, pending := sys.pending[t := p.(rows := p.rows + [RowOf(p.put, p.put.logEvents.value[|p.rows|], p.nowMs, id)])])
  {
    hide RowOf, CommitEvents, HasRow;
    assert WellFormed(p.put.logEvents.value[|p.rows|]);
  }

  lemma AllocateNext(sys: System, autoCreate: bool, t: nat, put: PutRequest, nowMs: int, n: nat)
    requires t !in sys.pending && sys.counter < UINT64
    requires Addressed(put) && 0 < n <= LeadingWellFormed(put.logEvents.value)
    ensures Apply(Prepared(sys, t, put, nowMs, n - 1), autoCreate, Allocate(t)).0 == Prepared(sys, t, put, nowMs, n)
  {
    var events := put.logEvents.value;
    var p := Pending(put, nowMs, RowsOf(put, events[..n - 1], nowMs, sys.counter));
    RowsOfLength(put, events[..n - 1], nowMs, sys.counter);
    AllocateOne(Prepared(sys, t, put, nowMs, n - 1), autoCreate, t, p);
    RowsOfNext(put, events, nowMs, sys.counter, n);
    hide Apply, RowsOf, RowOf, LeadingWellFormed;
    var id := (sys.counter + n) % UINT64;
    assert sys.pending[t := p][t := Pending(put, nowMs, p.rows + [RowOf(put, events[n - 1], nowMs, id)])] ==
           sys.pending[t := Pending(put, nowMs, p.rows + [RowOf(put, events[n - 1], nowMs, id)])];
  }

  lemma ArriveRuns(sys: System, autoCreate: bool, t: nat, put: PutRequest, nowMs: int)
    requires t !in sys.pending && sys.counter < UINT64 && Addressed(put)
    ensures RunSteps(sys, autoCreate, [Arrive(t, put, nowMs)]) == Prepared(sys, t, put, nowMs, 0)
  {
    var steps := [Arrive(t, put, nowMs)];
    assert steps[..0] == [];
    assert RunSteps(sys, autoCreate, steps) == Apply(RunSteps(sys, autoCreate, []), autoCreate, steps[0]).0;
    assert RowsOf(put, put.logEvents.value[..0], nowMs, sys.counter) == [];
  }

  lemma {:induction false} AllocationsRun(sys: System, autoCreate: bool, t: nat, put: PutRequest, nowMs: int, n: nat)
    requires t !in sys.pending && sys.counter < UINT64
    requires Addressed(put) && n <= LeadingWellFormed(put.logEvents.value)
    ensures RunSteps(sys, autoCreate, Allocations(t, put, nowMs, n)) == Prepared(sys, t, put, nowMs, n)
  {
    var steps := Allocations(t, put, nowMs, n);
    hide Prepared, Apply;
    if n == 0 {
      ArriveRuns(sys, autoCreate, t, put, nowMs);
    } else {
      AllocationsRun(sys, autoCreate, t, put, nowMs, n - 1);
      assert steps[..|steps| - 1] == Allocations(t, put, nowMs, n - 1);
      AllocateNext(sys, autoCreate, t, put, nowMs, n);
    }
  }

  /** The last step of a request whose rows are ready. */
  lemma FinishPrepared(sys: System, autoCreate: bool, t: nat, put: PutRequest, nowMs: int, rows: seq<EventRow>)
    requires t !in sys.pending && Addressed(put) && |rows| == LeadingWellFormed(put.logEvents.value)
    ensures var events := put.logEvents.value;
            var ready := sys.(pending := sys.pending[t := Pending(put, nowMs, rows)]);
            var done := |rows| == |events|;
            var (next, reply) := Apply(ready, autoCreate, if done then Commit(t) else Allocate(t));
            && next.pending == sys.pending && next.counter == sys.counter
            && var committed := CommitEvents(sys.store, autoCreate, put.logGroup, put.logStream, nowMs, rows);
               (next.store, reply) == if done then (committed.0, Some(committed.1)) else (sys.store, Some(Err(InvalidParameter)))
  {
    hide CommitEvents;
    assert (sys.pending[t := Pending(put, nowMs, rows)] - {t}) == sys.pending;
  }

  /** With nothing in between, arrival, allocations and commit give the tables, counter and reply of PutLogEvents. */
  lemma SequentialPut(sys: System, autoCreate: bool, t: nat, put: PutRequest, nowMs: int)
    requires t !in sys.pending && sys.counter < UINT64 && Addressed(put)
    ensures var events := put.logEvents.value;
            var good := LeadingWellFormed(events);
            var ready := RunSteps(sys, autoCreate, Allocations(t, put, nowMs, good));
            var (next, reply) := Apply(ready, autoCreate, if good == |events| then Commit(t) else Allocate(t));
            var (store, counter, answer) := PutLogEvents(sys.store, sys.counter, autoCreate, put, nowMs);
            next == sys.(store := store, counter := counter) && reply == Some(answer)
  {
    hide Apply, CommitEvents, RunSteps, Allocations, RowsOf, LeadingWellFormed;
    var events := put.logEvents.value;
    var good := LeadingWellFormed(events);
    var mid := sys.(counter := (sys.counter + good) % UINT64);
    var rows := RowsOf(put, events[..good], nowMs, sys.counter);
    assert RunSteps(sys, autoCreate, Allocations(t, put, nowMs, good)) == mid.(pending := mid.pending[t := Pending(put, nowMs, rows)]) by {
      AllocationsRun(sys, autoCreate, t, put, nowMs, good);
    }
    assert |rows| == good by {
      RowsOfLength(put, events[..good], nowMs, sys.counter);
    }
    FinishPrepared(mid, autoCreate, t, put, nowMs, rows);
    assert good == |events| ==> events[..good] == events;
  }

  // ---------- what one handler keeps ----------

  /** The tables are consistent and their ids distinct and handed out. */
  predicate StoreOk(store: Store, counter: nat) {
    TablesOk(store) && AllIssued(store.events, counter) && DistinctIds(store.events)
  }

  function Idle(store: Store, counter: nat): System {
    System(store, counter, map[])
  }

  lemma IdleInv(store: Store, counter: nat)
    ensures Inv(Idle(store, counter)) <==> StoreOk(store, counter)
  {
    hide TablesOk, AllIssued, DistinctIds;
  }

  /** A request that hands out no ids keeps the tables in order. */
  lemma LockedKeepsStore(store: Store, counter: nat, autoCreate: bool, step: Step)
    requires StoreOk(store, counter) && (step.Create? || step.Delete? || step.CreateStream? || step.Retain?)
    ensures StoreOk(Apply(Idle(store, counter), autoCreate, step).0.store, counter)
  {
    hide Inv, StoreOk;
    var next := Apply(Idle(store, counter), autoCreate, step).0;
    IdleInv(store, counter);
    StepKeepsInv(Idle(store, counter), autoCreate, step);
    assert next == Idle(next.store, counter);
    IdleInv(next.store, counter);
  }

  lemma {:induction false} AllocationsCount(t: nat, put: PutRequest, nowMs: int, n: nat)
    ensures AllocateCount(Allocations(t, put, nowMs, n)) == n
  {
    if n == 0 {
      assert [Arrive(t, put, nowMs)][..0] == [];
    } else {
      AllocationsCount(t, put, nowMs, n - 1);
      var steps := Allocations(t, put, nowMs, n);
      assert steps[..|steps| - 1] == Allocations(t, put, nowMs, n - 1);
    }
  }

  /** So does a PutLogEvents request with an id to spare for each of its elements. */
  lemma PutKeepsStore(store: Store, counter: nat, autoCreate: bool, put: PutRequest, nowMs: int)
    requires StoreOk(store, counter)
    requires counter < UINT64 && (put.logEvents.Some? ==> counter + |put.logEvents.value| < UINT64)
    ensures var (after, next, _) := PutLogEvents(store, counter, autoCreate, put, nowMs); StoreOk(after, next)
  {
    hide Inv, StoreOk, Apply, RunSteps, Allocations, CommitEvents, RowsOf;
    if Addressed(put) {
      var sys := Idle(store, counter);
      var events := put.logEvents.value;
      var good := LeadingWellFormed(events);
      var steps := Allocations(0, put, nowMs, good);
      var last := if good == |events| then Commit(0) else Allocate(0);
      AllocationsCount(0, put, nowMs, good);
      IdleInv(store, counter);
      RunsKeepInvFrom(sys, autoCreate, steps);
      StepKeepsInv(RunSteps(sys, autoCreate, steps), autoCreate, last);
      SequentialPut(sys, autoCreate, 0, put, nowMs);
      var (after, next, _) := PutLogEvents(store, counter, autoCreate, put, nowMs);
      assert sys.(store := after, counter := next) == Idle(after, next);
      IdleInv(after, next);
    }
  }
}
