/**
 * Writing and reading while other requests run: one sender's batches go through the listener step by
 * step among arbitrary steps of others, and a query of its stream finds its events in planned order.
 */
module InterleavedWrites {
  import opened Strings
  import opened Doubles
  import opened PutPlanner
  import opened Listener
  import opened ListenerRuns
  import opened EventIds
  import opened LogQuery
  import opened LogsScan
  import opened WriteThenRead

  // ---------- the sender among others ----------

  /** A thread sending the batches of its plan, one request at a time. */
  datatype Sender = Sender(thread: nat, group: Bytes, stream: Bytes, planned: seq<PutEvent>, batches: seq<Batch>, nows: seq<int>)

  predicate SenderOk(w: Sender) {
    |w.batches| <= |w.nows| && Tiles(w.batches, |w.planned|) && CStr(w.group) != [] && CStr(w.stream) != []
  }

  function PutOf(w: Sender, b: nat): PutRequest
    requires SenderOk(w) && b < |w.batches|
  {
    RequestOf(w.group, w.stream, w.planned[w.batches[b].offset..w.batches[b].End()])
  }

  /** Batches committed so far; and of the next one 0 before its arrival, then 1 and a step for each id it has. */
  datatype Position = Position(batch: nat, taken: nat)

  function NextStep(w: Sender, at: Position): Step
    requires SenderOk(w) && at.batch < |w.batches|
  {
    if at.taken == 0 then Arrive(w.thread, PutOf(w, at.batch), w.nows[at.batch])
    else if at.taken <= w.batches[at.batch].count then Allocate(w.thread)
    else Commit(w.thread)
  }

  function Advance(w: Sender, at: Position): Position
    requires at.batch < |w.batches|
  {
    if at.taken <= w.batches[at.batch].count then Position(at.batch, at.taken + 1) else Position(at.batch + 1, 0)
  }

  predicate Own(w: Sender, step: Step) {
    match step
    case Arrive(t, _, _) => t == w.thread
    case Allocate(t) => t == w.thread
    case Commit(t) => t == w.thread
    case _ => false
  }

  /** Where the sender is after the steps; None if its steps among them are not those of its plan. */
  function PositionAfter(w: Sender, steps: seq<Step>): Option<Position>
    requires SenderOk(w)
  {
    if steps == [] then Some(Position(0, 0))
    else
      var before, step := PositionAfter(w, steps[..|steps| - 1]), steps[|steps| - 1];
      if before.None? || !Own(w, step) then before
      else if before.value.batch < |w.batches| && step == NextStep(w, before.value) then Some(Advance(w, before.value))
      else None
  }

  predicate Addresses(w: Sender, put: PutRequest) {
    put.logGroup == CStr(w.group) && put.logStream == CStr(w.stream)
  }

  /** Steps of others neither write to the stream nor delete its group. */
  predicate Harmless(w: Sender, step: Step) {
    match step
    case Arrive(_, put, _) => !Addresses(w, put)
    case Delete(group) => group != CStr(w.group)
    case _ => true
  }

  predicate OthersHarmless(w: Sender, steps: seq<Step>) {
    forall i | 0 <= i < |steps| :: Own(w, steps[i]) || Harmless(w, steps[i])
  }

  // ---------- the rows of one stream ----------

  predicate InStream(w: Sender, row: EventRow) {
    row.logGroup == CStr(w.group) && row.logStream == CStr(w.stream)
  }

  function StreamRows(w: Sender, rows: seq<EventRow>): seq<EventRow> {
    if rows == [] then [] else (if InStream(w, rows[0]) then [rows[0]] else []) + StreamRows(w, rows[1..])
  }

  lemma StreamRowsCons(w: Sender, row: EventRow, rest: seq<EventRow>)
    ensures StreamRows(w, [row] + rest) == if InStream(w, row) then [row] + StreamRows(w, rest) else StreamRows(w, rest)
  {
    hide InStream;
    assert ([row] + rest)[1..] == rest;
  }

  lemma {:induction false} StreamRowsNone(w: Sender, rows: seq<EventRow>)
    requires forall i | 0 <= i < |rows| :: !InStream(w, rows[i])
    ensures StreamRows(w, rows) == []
  {
    hide InStream;
    if rows == [] {
    } else {
      StreamRowsNone(w, rows[1..]);
    }
  }

  lemma {:induction false} StreamRowsAppend(w: Sender, a: seq<EventRow>, b: seq<EventRow>)
    ensures StreamRows(w, a + b) == StreamRows(w, a) + StreamRows(w, b)
  {
    hide InStream, StreamRows;
    if a == [] {
      StreamRowsNone(w, a);
      assert a + b == b;
    } else {
      var first, rest := a[0], a[1..];
      StreamRowsAppend(w, rest, b);
      StreamRowsCons(w, first, rest);
      StreamRowsCons(w, first, rest + b);
      assert [first] + rest == a && [first] + (rest + b) == a + b;
    }
  }

  lemma {:induction false} StreamRowsAll(w: Sender, rows: seq<EventRow>)
    requires forall i | 0 <= i < |rows| :: InStream(w, rows[i])
    ensures StreamRows(w, rows) == rows
  {
    hide InStream;
    if rows == [] {
    } else {
      StreamRowsAll(w, rows[1..]);
    }
  }

  lemma {:induction false} StreamRowsOutside(w: Sender, rows: seq<EventRow>, group: Bytes)
    requires group != CStr(w.group)
    ensures StreamRows(w, EventsOutside(rows, group)) == StreamRows(w, rows)
  {
    hide CStr;
    if rows == [] {
    } else {
      StreamRowsOutside(w, rows[1..], group);
      StreamRowsCons(w, rows[0], EventsOutside(rows[1..], group));
      hide StreamRows;
      StreamRowsCons(w, rows[0], rows[1..]);
      assert [rows[0]] + rows[1..] == rows;
      assert [] + EventsOutside(rows[1..], group) == EventsOutside(rows[1..], group);
    }
  }

  // ---------- what every step keeps ----------

  /** Ids between the two counters, in rising order. */
  predicate Rising(ids: seq<nat>, low: nat, high: nat) {
    && (forall j | 0 <= j < |ids| :: low < ids[j] <= high)
    && forall i, j | 0 <= i < j < |ids| :: ids[i] < ids[j]
  }

  /** One row per event, in order, with these ids. */
  predicate StoresWith(rows: seq<EventRow>, events: seq<PutEvent>, group: Bytes, stream: Bytes, ids: seq<nat>) {
    |rows| == |events| == |ids| && forall j | 0 <= j < |rows| :: Stores(rows[j], events[j], group, stream, ids[j])
  }

  predicate OthersElsewhere(w: Sender, sys: System) {
    forall u | u in sys.pending && u != w.thread :: !Addresses(w, sys.pending[u].put)
  }

  predicate StreamThere(w: Sender, store: Store) {
    GroupExists(store.groups, CStr(w.group)) && StreamExists(store.groups, CStr(w.group), CStr(w.stream))
  }

  /** The sender's request is in the state its position says. */
  predicate Waits(w: Sender, sys: System, at: Position)
    requires SenderOk(w)
  {
    if at.taken == 0 then at.batch <= |w.batches| && w.thread !in sys.pending
    else
      && at.batch < |w.batches| && at.taken <= w.batches[at.batch].count + 1
      && w.thread in sys.pending
      && sys.pending[w.thread].put == PutOf(w, at.batch)
      && |sys.pending[w.thread].rows| == at.taken - 1
  }

  /** The rows of the stream, and those the sender's request has ready. */
  function Mine(w: Sender, sys: System): seq<EventRow> {
    StreamRows(w, sys.store.events) + if w.thread in sys.pending then sys.pending[w.thread].rows else []
  }

  /** How many events have a row by then. */
  function Done(w: Sender, at: Position): nat
    requires SenderOk(w) && at.batch <= |w.batches|
  {
    Start(w.batches, at.batch) + if at.taken == 0 then 0 else at.taken - 1
  }

  ghost predicate Kept(w: Sender, sys: System, at: Position, low: nat, ids: seq<nat>)
    requires SenderOk(w)
  {
    && StreamThere(w, sys.store) && OthersElsewhere(w, sys) && Waits(w, sys, at)
    && Done(w, at) <= |w.planned|
    && StoresWith(Mine(w, sys), w.planned[..Done(w, at)], w.group, w.stream, ids)
    && Rising(ids, low, sys.counter)
  }

  lemma RisesOn(ids: seq<nat>, low: nat, high: nat, higher: nat)
    requires Rising(ids, low, high) && high <= higher
    ensures Rising(ids, low, higher)
    ensures low <= high < higher ==> Rising(ids + [higher], low, higher)
  {
  }

  /** A commit into another stream adds nothing to this one. */
  lemma CommitElsewhere(w: Sender, store: Store, autoCreate: bool, p: Pending)
    requires PendingOk(p) && !Addresses(w, p.put)
    ensures StreamRows(w, CommitEvents(store, autoCreate, p.put.logGroup, p.put.logStream, p.nowMs, p.rows).0.events) == StreamRows(w, store.events)
  {
    hide HasRow, CStr;
    StreamRowsAppend(w, store.events, p.rows);
    StreamRowsNone(w, p.rows);
    assert StreamRows(w, store.events) + [] == StreamRows(w, store.events);
  }

  lemma OthersKeepRows(w: Sender, sys: System, autoCreate: bool, step: Step)
    requires !Own(w, step) && Harmless(w, step) && OthersElsewhere(w, sys)
    requires forall t | t in sys.pending :: PendingOk(sys.pending[t])
    ensures StreamRows(w, Apply(sys, autoCreate, step).0.store.events) == StreamRows(w, sys.store.events)
  {
    hide CommitEvents, StreamRows, HasRow, PendingOk, CStr;
    match step
    case Commit(u) =>
      if u in sys.pending {
        CommitElsewhere(w, sys.store, autoCreate, sys.pending[u]);
      }
    case Delete(group) =>
      StreamRowsOutside(w, sys.store.events, group);
    case _ =>
  }

  lemma OthersKeepPending(w: Sender, sys: System, autoCreate: bool, step: Step)
    requires !Own(w, step) && Harmless(w, step) && OthersElsewhere(w, sys)
    ensures var next := Apply(sys, autoCreate, step).0;
            && OthersElsewhere(w, next)
            && (w.thread in next.pending <==> w.thread in sys.pending)
            && (w.thread in sys.pending ==> next.pending[w.thread] == sys.pending[w.thread])
  {
    hide CommitEvents, HasRow, CStr, WellFormed, EventId;
  }

  /** Rows of the groups table stay unless their group is deleted. */
  lemma RowStays(sys: System, autoCreate: bool, step: Step, group: Bytes, stream: Option<Bytes>)
    requires HasRow(sys.store.groups, group, stream) && !(step.Delete? && step.group == group)
    ensures HasRow(Apply(sys, autoCreate, step).0.store.groups, group, stream)
  {
    var groups, next := sys.store.groups, Apply(sys, autoCreate, step).0.store.groups;
    var i :| 0 <= i < |groups| && groups[i].logGroup == group && groups[i].logStream == stream;
    if step.Delete? {
      HasRowMember(GroupsOutside(groups, step.group), group, stream);
      assert groups[i] in groups;
    } else {
      hide HasRow, GroupsOutside, EventId;
      assert i < |next| && next[i].logGroup == group && next[i].logStream == stream;
    }
  }

  lemma StreamStays(w: Sender, sys: System, autoCreate: bool, step: Step)
    requires StreamThere(w, sys.store) && (Own(w, step) || Harmless(w, step))
    ensures StreamThere(w, Apply(sys, autoCreate, step).0.store)
  {
    hide Apply, HasRow, CStr;
    RowStays(sys, autoCreate, step, CStr(w.group), None);
    RowStays(sys, autoCreate, step, CStr(w.group), Some(CStr(w.stream)));
  }

  lemma CounterRises(sys: System, autoCreate: bool, step: Step)
    requires step.Allocate? ==> sys.counter + 1 < UINT64
    ensures sys.counter <= Apply(sys, autoCreate, step).0.counter
  {
    hide CommitEvents, HasRow, EventId;
  }

  lemma OtherStepKeeps(w: Sender, sys: System, autoCreate: bool, step: Step, at: Position, low: nat, ids: seq<nat>)
    requires SenderOk(w) && Inv(sys) && Kept(w, sys, at, low, ids)
    requires !Own(w, step) && Harmless(w, step) && (step.Allocate? ==> sys.counter + 1 < UINT64)
    ensures Kept(w, Apply(sys, autoCreate, step).0, at, low, ids)
  {
    hide Apply, PendingOk, TablesOk, IdsOk, StreamRows, StreamThere, OthersElsewhere, StoresWith, Rising, Own, Harmless, SenderOk, PutOf;
    OthersKeepRows(w, sys, autoCreate, step);
    OthersKeepPending(w, sys, autoCreate, step);
    StreamStays(w, sys, autoCreate, step);
    CounterRises(sys, autoCreate, step);
    RisesOn(ids, low, sys.counter, Apply(sys, autoCreate, step).0.counter);
  }

  // ---------- the sender's own steps ----------

  lemma PutOfWellFormed(w: Sender, b: nat)
    requires SenderOk(w) && b < |w.batches|
    ensures Addressed(PutOf(w, b)) && Addresses(w, PutOf(w, b)) && |PutOf(w, b).logEvents.value| == w.batches[b].count
    ensures w.batches[b].offset == Start(w.batches, b) && w.batches[b].End() <= |w.planned|
  {
    hide CStr, Start;
  }

  lemma PutOfElement(w: Sender, b: nat, n: nat)
    requires SenderOk(w) && b < |w.batches| && n < w.batches[b].count
    ensures Start(w.batches, b) + n < |w.planned|
    ensures var put := PutOf(w, b);
            && put.logEvents.Some? && n < |put.logEvents.value|
            && put.logEvents.value[n] ==
               RawEvent(Some(Whole(w.planned[Start(w.batches, b) + n].timestampMs)), Some(w.planned[Start(w.batches, b) + n].message))
  {
    hide CStr, Start;
  }

  lemma PutOfLeading(w: Sender, b: nat)
    requires SenderOk(w) && b < |w.batches|
    ensures var put := PutOf(w, b); put.logEvents.Some? && LeadingWellFormed(put.logEvents.value) == |put.logEvents.value| == w.batches[b].count
  {
    hide LeadingWellFormed, CStr, Start;
    AllWellFormed(PutOf(w, b).logEvents.value);
  }

  lemma ArriveKeeps(w: Sender, sys: System, autoCreate: bool, at: Position, low: nat, ids: seq<nat>)
    requires SenderOk(w) && Kept(w, sys, at, low, ids) && at.batch < |w.batches| && at.taken == 0
    ensures Kept(w, Apply(sys, autoCreate, NextStep(w, at)).0, Advance(w, at), low, ids)
  {
    PutOfWellFormed(w, at.batch);
    hide Addressed, StreamRows, StreamThere, StoresWith, Rising, SenderOk, PutOf, Start, Stores;
    var next := Apply(sys, autoCreate, NextStep(w, at)).0;
    assert Mine(w, next) == Mine(w, sys);
  }

  /** The row the next id makes of the sender's next event. */
  function NextRow(w: Sender, sys: System, at: Position): EventRow
    requires SenderOk(w) && Waits(w, sys, at) && 0 < at.taken <= w.batches[at.batch].count
  {
    var p := sys.pending[w.thread];
    PutOfElement(w, at.batch, at.taken - 1);
    RowOf(p.put, p.put.logEvents.value[at.taken - 1], p.nowMs, sys.counter + 1)
  }

  lemma AllocateResult(w: Sender, sys: System, autoCreate: bool, at: Position)
    requires SenderOk(w) && Waits(w, sys, at) && 0 < at.taken <= w.batches[at.batch].count && sys.counter + 1 < UINT64
    ensures var p := sys.pending[w.thread];
            Apply(sys, autoCreate, NextStep(w, at)).0 ==
            sys.(counter := sys.counter + 1, pending := sys.pending[w.thread := p.(rows := p.rows + [NextRow(w, sys, at)])])
  {
    hide Apply, Addressed, RowOf, SenderOk, PutOf, LeadingWellFormed;
    PutOfWellFormed(w, at.batch);
    PutOfLeading(w, at.batch);
    var p := sys.pending[w.thread];
    assert (sys.counter + 1) % UINT64 == sys.counter + 1;
    AllocateOne(sys, autoCreate, w.thread, p);
  }

  lemma OneRowReady(w: Sender, sys: System, next: System, row: EventRow, at: Position)
    requires SenderOk(w) && Waits(w, sys, at) && OthersElsewhere(w, sys) && 0 < at.taken <= w.batches[at.batch].count
    requires var p := sys.pending[w.thread];
             next == sys.(counter := sys.counter + 1, pending := sys.pending[w.thread := p.(rows := p.rows + [row])])
    ensures Waits(w, next, Advance(w, at)) && OthersElsewhere(w, next) && Mine(w, next) == Mine(w, sys) + [row]
  {
    hide StreamRows, SenderOk, PutOf, Addresses;
    assert StreamRows(w, sys.store.events) + (sys.pending[w.thread].rows + [row]) ==
           StreamRows(w, sys.store.events) + sys.pending[w.thread].rows + [row];
  }

  lemma RowStores(w: Sender, sys: System, at: Position)
    requires SenderOk(w) && Waits(w, sys, at) && 0 < at.taken <= w.batches[at.batch].count
    ensures Done(w, at) < |w.planned|
    ensures Stores(NextRow(w, sys, at), w.planned[Done(w, at)], w.group, w.stream, sys.counter + 1)
  {
    hide Start, EventId, GetInt, CStr, PutOf, SenderOk;
    PutOfWellFormed(w, at.batch);
    PutOfElement(w, at.batch, at.taken - 1);
  }

  lemma StoresMore(rows: seq<EventRow>, row: EventRow, planned: seq<PutEvent>, n: nat, group: Bytes, stream: Bytes, ids: seq<nat>, id: nat)
    requires n < |planned| && StoresWith(rows, planned[..n], group, stream, ids) && Stores(row, planned[n], group, stream, id)
    ensures StoresWith(rows + [row], planned[..n + 1], group, stream, ids + [id])
  {
    hide Stores;
    forall j | 0 <= j < |rows| + 1 ensures Stores((rows + [row])[j], planned[..n + 1][j], group, stream, (ids + [id])[j]) {
      if j < n {
        assert Stores(rows[j], planned[..n][j], group, stream, ids[j]);
      }
    }
  }

  lemma AllocateKeeps(w: Sender, sys: System, autoCreate: bool, at: Position, low: nat, ids: seq<nat>)
    requires SenderOk(w) && Kept(w, sys, at, low, ids) && at.batch < |w.batches| && 0 < at.taken <= w.batches[at.batch].count
    requires low <= sys.counter && sys.counter + 1 < UINT64
    ensures Kept(w, Apply(sys, autoCreate, NextStep(w, at)).0, Advance(w, at), low, ids + [sys.counter + 1])
  {
    hide Apply, Waits, StreamThere, OthersElsewhere, Mine, Rising, SenderOk, Start, Stores, StoresWith, NextStep, NextRow, RowOf;
    var next, row := Apply(sys, autoCreate, NextStep(w, at)).0, NextRow(w, sys, at);
    AllocateResult(w, sys, autoCreate, at);
    OneRowReady(w, sys, next, row, at);
    RowStores(w, sys, at);
    StoresMore(Mine(w, sys), row, w.planned, Done(w, at), w.group, w.stream, ids, sys.counter + 1);
    RisesOn(ids, low, sys.counter, sys.counter + 1);
  }

  lemma CommitStored(w: Sender, sys: System, autoCreate: bool, p: Pending)
    requires w.thread in sys.pending && sys.pending[w.thread] == p && Addressed(p.put) && Remaining(p) == 0
    requires Addresses(w, p.put) && StreamThere(w, sys.store)
    ensures Apply(sys, autoCreate, Commit(w.thread)).0 ==
            sys.(store := sys.store.(events := sys.store.events + p.rows), pending := sys.pending - {w.thread})
  {
    hide CStr, HasRow;
  }

  lemma RowsCommitted(w: Sender, sys: System, next: System, at: Position)
    requires SenderOk(w) && Waits(w, sys, at) && 0 < at.taken == w.batches[at.batch].count + 1
    requires OthersElsewhere(w, sys) && PendingOk(sys.pending[w.thread])
    requires next == sys.(store := sys.store.(events := sys.store.events + sys.pending[w.thread].rows), pending := sys.pending - {w.thread})
    ensures Waits(w, next, Advance(w, at)) && OthersElsewhere(w, next) && Mine(w, next) == Mine(w, sys)
  {
    PutOfWellFormed(w, at.batch);
    hide StreamRows, SenderOk, PutOf, CStr;
    var p := sys.pending[w.thread];
    StreamRowsAppend(w, sys.store.events, p.rows);
    StreamRowsAll(w, p.rows);
    assert StreamRows(w, next.store.events) + [] == StreamRows(w, sys.store.events) + p.rows;
  }

  lemma CommitKeeps(w: Sender, sys: System, autoCreate: bool, at: Position, low: nat, ids: seq<nat>)
    requires SenderOk(w) && Inv(sys) && Kept(w, sys, at, low, ids) && at.batch < |w.batches| && at.taken == w.batches[at.batch].count + 1
    ensures Kept(w, Apply(sys, autoCreate, NextStep(w, at)).0, Advance(w, at), low, ids)
  {
    hide Apply, TablesOk, IdsOk, PendingOk, StreamThere, OthersElsewhere, Mine, Rising, SenderOk, Start, StoresWith, PutOf;
    var next, p := Apply(sys, autoCreate, NextStep(w, at)).0, sys.pending[w.thread];
    PutOfWellFormed(w, at.batch);
    StartNext(w.batches, at.batch);
    CommitStored(w, sys, autoCreate, p);
    StreamStays(w, sys, autoCreate, NextStep(w, at));
    RowsCommitted(w, sys, next, at);
  }

  lemma StepKeeps(w: Sender, sys: System, autoCreate: bool, step: Step, at: Position, low: nat, ids: seq<nat>) returns (more: seq<nat>)
    requires SenderOk(w) && Inv(sys) && Kept(w, sys, at, low, ids) && low <= sys.counter
    requires step.Allocate? ==> sys.counter + 1 < UINT64
    requires if Own(w, step) then at.batch < |w.batches| && step == NextStep(w, at) else Harmless(w, step)
    ensures Kept(w, Apply(sys, autoCreate, step).0, if Own(w, step) then Advance(w, at) else at, low, more)
  {
    more := ids;
    hide Inv, Apply, SenderOk, Mine, StoresWith, Rising, StreamThere, OthersElsewhere, PutOf;
    if !Own(w, step) {
      OtherStepKeeps(w, sys, autoCreate, step, at, low, ids);
    } else if at.taken == 0 {
      ArriveKeeps(w, sys, autoCreate, at, low, ids);
    } else if at.taken <= w.batches[at.batch].count {
      AllocateKeeps(w, sys, autoCreate, at, low, ids);
      more := ids + [sys.counter + 1];
    } else {
      CommitKeeps(w, sys, autoCreate, at, low, ids);
    }
  }

  /** Before the sender starts: its stream exists and is empty, and no other request under way is for it. */
  ghost predicate Fresh(w: Sender, sys: System) {
    && Inv(sys) && StreamThere(w, sys.store) && OthersElsewhere(w, sys)
    && w.thread !in sys.pending && StreamRows(w, sys.store.events) == []
  }

  lemma FreshKept(w: Sender, sys: System)
    requires SenderOk(w) && Fresh(w, sys)
    ensures Kept(w, sys, Position(0, 0), sys.counter, [])
  {
    hide Inv, SenderOk, Start;
    StartZero(w.batches);
  }

  /** Every run in which the sender takes the steps of its plan, whatever the others do meanwhile. */
  lemma {:induction false} RunKeeps(w: Sender, sys: System, autoCreate: bool, steps: seq<Step>) returns (ids: seq<nat>)
    requires SenderOk(w) && Fresh(w, sys) && OthersHarmless(w, steps) && PositionAfter(w, steps).Some?
    requires sys.counter + AllocateCount(steps) < UINT64
    ensures var run := RunSteps(sys, autoCreate, steps);
            && Inv(run) && sys.counter <= run.counter <= sys.counter + AllocateCount(steps)
            && Kept(w, run, PositionAfter(w, steps).value, sys.counter, ids)
  {
    assert Inv(sys);
    hide Inv, Apply, SenderOk, Kept, Own, Harmless, NextStep, Advance, Fresh;
    if steps == [] {
      FreshKept(w, sys);
      ids := [];
    } else {
      var n := |steps| - 1;
      var before, step := steps[..n], steps[n];
      assert OthersHarmless(w, before);
      var front := RunSteps(sys, autoCreate, before);
      var earlier := RunKeeps(w, sys, autoCreate, before);
      assert Own(w, steps[n]) || Harmless(w, steps[n]);
      ids := StepKeeps(w, front, autoCreate, step, PositionAfter(w, before).value, sys.counter, earlier);
      StepKeepsInv(front, autoCreate, step);
      CounterStep(front, autoCreate, step);
      CounterRises(front, autoCreate, step);
    }
  }

  // ---------- what a query of the stream finds ----------

  lemma {:induction false} StreamRowsHold(w: Sender, rows: seq<EventRow>, i: nat) returns (j: nat)
    requires i < |rows| && InStream(w, rows[i])
    ensures j < |StreamRows(w, rows)| && StreamRows(w, rows)[j] == rows[i]
  {
    hide InStream;
    if i == 0 {
      j := 0;
    } else {
      var k := StreamRowsHold(w, rows[1..], i - 1);
      j := if InStream(w, rows[0]) then k + 1 else k;
    }
  }

  lemma {:induction false} SelectIsStream(w: Sender, rows: seq<EventRow>, req: FilterRequest)
    requires forall i | 0 <= i < |rows| :: LogQuery.Matches(req, [], rows[i]) <==> InStream(w, rows[i])
    ensures LogQuery.Select(rows, req, []) == StreamRows(w, rows)
  {
    hide LogQuery.Matches, InStream, StreamRows;
    if rows == [] {
      StreamRowsNone(w, rows);
    } else {
      var front, last := rows[..|rows| - 1], rows[|rows| - 1];
      SelectIsStream(w, front, req);
      StreamRowsAppend(w, front, [last]);
      StreamRowsCons(w, last, []);
      StreamRowsNone(w, []);
      assert front + [last] == rows && [last] + [] == [last];
    }
  }

  lemma WithIdsInOrder(rows: seq<EventRow>, events: seq<PutEvent>, group: Bytes, stream: Bytes, ids: seq<nat>, low: nat, high: nat)
    requires Sorted(events) && StoresWith(rows, events, group, stream, ids) && Rising(ids, low, high) && high < TEN19
    ensures forall i, j | 0 <= i < j < |rows| :: Before(true, rows[i], rows[j])
  {
    hide EventId, LexLess, GetInt, CStr;
    forall i, j | 0 <= i < j < |rows| ensures Before(true, rows[i], rows[j]) {
      GetIntMonotone(events[i].timestampMs, events[j].timestampMs);
      EventIdOrder(ids[i], ids[j]);
      assert Stores(rows[i], events[i], group, stream, ids[i]);
      assert Stores(rows[j], events[j], group, stream, ids[j]);
    }
  }

  /** The bind is an ascending scan of the sender's stream over a window that covers its events. */
  ghost predicate Watches(bind: LogsBind, w: Sender) {
    && bind == StreamScan(w.group, w.stream, bind.startMs, bind.endMs, bind.pageSize, bind.maxRows)
    && forall e | e in w.planned :: InWindow(GetInt(e.timestampMs), GetInt(bind.startMs), GetInt(bind.endMs))
  }

  lemma StreamRowMatches(w: Sender, bind: LogsBind, rows: seq<EventRow>, events: seq<PutEvent>, ids: seq<nat>, i: nat)
    requires Watches(bind, w) && StoresWith(StreamRows(w, rows), events, w.group, w.stream, ids) && events <= w.planned && i < |rows|
    ensures LogQuery.Matches(RequestFor(bind, 1, []), [], rows[i]) <==> InStream(w, rows[i])
  {
    hide CStr, GetInt, EventId, StreamRows, LogQuery.Matches, InWindow;
    ScanMatches(bind, w.stream, rows[i]);
    if InStream(w, rows[i]) {
      var j := StreamRowsHold(w, rows, i);
      assert Stores(StreamRows(w, rows)[j], events[j], w.group, w.stream, ids[j]);
      assert events[j] == w.planned[j] && w.planned[j] in w.planned;
    }
  }

  lemma QueryFindsStream(w: Sender, store: Store, bind: LogsBind, events: seq<PutEvent>, ids: seq<nat>, low: nat, high: nat)
    requires CStr(w.group) != [] && Watches(bind, w) && Sorted(events) && events <= w.planned
    requires StoresWith(StreamRows(w, store.events), events, w.group, w.stream, ids) && Rising(ids, low, high) && high < TEN19
    ensures WholeQuery(store, bind) == Ok(LogEventsOf(StreamRows(w, store.events)))
  {
    var req := RequestFor(bind, 1, []);
    assert FilterPatternSubstring(CStr([])) == Ok([]);
    hide CStr, GetInt, StreamRows, StoresWith, Rising, LogQuery.Matches, InStream, OrderBy, LogQuery.Select, Before;
    forall i | 0 <= i < |store.events| ensures LogQuery.Matches(req, [], store.events[i]) <==> InStream(w, store.events[i]) {
      StreamRowMatches(w, bind, store.events, events, ids, i);
    }
    SelectIsStream(w, store.events, req);
    WithIdsInOrder(StreamRows(w, store.events), events, w.group, w.stream, ids, low, high);
    OrderByIdentity(StreamRows(w, store.events), true);
  }

  /** One event per planned event, in planned order, with these ids. */
  predicate ReadsBackWith(read: seq<LogEvent>, planned: seq<PutEvent>, stream: Bytes, ids: seq<nat>) {
    |read| == |planned| == |ids| && forall j | 0 <= j < |read| :: ReadsBack(read[j], planned[j], stream, ids[j])
  }

  lemma RowsReadBackWith(rows: seq<EventRow>, events: seq<PutEvent>, group: Bytes, stream: Bytes, ids: seq<nat>)
    requires StoresWith(rows, events, group, stream, ids)
    ensures ReadsBackWith(LogEventsOf(rows), events, stream, ids)
  {
    hide Stores, ReadsBack;
    forall j | 0 <= j < |rows| ensures ReadsBack(LogEventOf(rows[j]), events[j], stream, ids[j]) {
      EventReadsBack(rows[j], events[j], group, stream, ids[j]);
    }
  }

  /** The stream itself holds the events of the committed batches. */
  lemma CommittedPart(w: Sender, sys: System, at: Position, low: nat, ids: seq<nat>)
    requires SenderOk(w) && Kept(w, sys, at, low, ids)
    ensures at.batch <= |w.batches|
    ensures var n := Start(w.batches, at.batch);
            && n <= |w.planned| && n <= |ids|
            && StoresWith(StreamRows(w, sys.store.events), w.planned[..n], w.group, w.stream, ids[..n])
            && Rising(ids[..n], low, sys.counter)
  {
    hide StreamRows, SenderOk, PutOf, Start, Stores, StreamThere, OthersElsewhere;
    var n := Start(w.batches, at.batch);
    var rows := StreamRows(w, sys.store.events);
    assert |rows| == n;
    forall j | 0 <= j < n ensures Stores(rows[j], w.planned[..n][j], w.group, w.stream, ids[..n][j]) {
      assert Stores(Mine(w, sys)[j], w.planned[..Done(w, at)][j], w.group, w.stream, ids[j]);
    }
  }

  /**
   * At every moment of every run a covering query of the stream finds exactly the events of the batches
   * committed by then, in planned order and with rising ids: requests of others, which take ids in
   * between, write elsewhere, create and delete groups, make no difference.
   */
  lemma InterleavedWriteThenRead(w: Sender, sys: System, autoCreate: bool, steps: seq<Step>, bind: LogsBind) returns (ids: seq<nat>)
    requires SenderOk(w) && Fresh(w, sys) && OthersHarmless(w, steps) && PositionAfter(w, steps).Some?
    requires Sorted(w.planned) && Watches(bind, w) && sys.counter + AllocateCount(steps) < TEN19
    ensures var run, at := RunSteps(sys, autoCreate, steps), PositionAfter(w, steps).value;
            && at.batch <= |w.batches| && Start(w.batches, at.batch) <= |w.planned|
            && (at.batch == |w.batches| ==> Start(w.batches, at.batch) == |w.planned|)
            && WholeQuery(run.store, bind).Ok?
            && ReadsBackWith(WholeQuery(run.store, bind).value, w.planned[..Start(w.batches, at.batch)], w.stream, ids)
            && Rising(ids, sys.counter, run.counter)
  {
    var run, at := RunSteps(sys, autoCreate, steps), PositionAfter(w, steps).value;
    assert CStr(w.group) != [] && Tiles(w.batches, |w.planned|);
    hide Fresh, OthersHarmless, PositionAfter, RunSteps, Kept, Watches, StreamRows, StoresWith, ReadsBackWith, Rising, CStr, WholeQuery, SenderOk, Start, Sorted;
    var all := RunKeeps(w, sys, autoCreate, steps);
    CommittedPart(w, run, at, sys.counter, all);
    var n := Start(w.batches, at.batch);
    ids := all[..n];
    SortedPrefix(w.planned, n);
    QueryFindsStream(w, run.store, bind, w.planned[..n], ids, sys.counter, run.counter);
    RowsReadBackWith(StreamRows(w, run.store.events), w.planned[..n], w.group, w.stream, ids);
  }
}
