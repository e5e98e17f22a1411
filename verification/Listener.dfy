/**
 * The log store of cloudwatch_serve (src/cloudwatch_server.cpp): the groups and events
 * tables, the critical section of every log operation, and the event ids.
 */
module Listener {
  import opened Doubles
  import opened Strings

  // ---------- tables ----------

  /** A row of the groups table; logStream is None on the row that stands for the group itself. */
  datatype GroupRow = GroupRow(logGroup: Bytes, logStream: Option<Bytes>, retention: Option<int>, createdMs: int)

  datatype EventRow = EventRow(logGroup: Bytes, logStream: Bytes, timestampMs: int, ingestionMs: int, eventId: Bytes, message: Bytes)

  datatype Store = Store(groups: seq<GroupRow>, events: seq<EventRow>)

  datatype AwsError =
    | InvalidParameter
    | ResourceAlreadyExists
    | ResourceNotFound

  type Reply = Result<(), AwsError>

  predicate HasRow(groups: seq<GroupRow>, group: Bytes, stream: Option<Bytes>) {
    exists i | 0 <= i < |groups| :: groups[i].logGroup == group && groups[i].logStream == stream
  }

  predicate GroupExists(groups: seq<GroupRow>, group: Bytes) {
    HasRow(groups, group, None)
  }

  predicate StreamExists(groups: seq<GroupRow>, group: Bytes, stream: Bytes) {
    HasRow(groups, group, Some(stream))
  }

  function GroupsOutside(groups: seq<GroupRow>, group: Bytes): (r: seq<GroupRow>)
    ensures forall row :: row in r <==> row in groups && row.logGroup != group
  {
    if groups == [] then []
    else (if groups[0].logGroup != group then [groups[0]] else []) + GroupsOutside(groups[1..], group)
  }

  function EventsOutside(events: seq<EventRow>, group: Bytes): (r: seq<EventRow>)
    ensures forall row :: row in r <==> row in events && row.logGroup != group
  {
    if events == [] then []
    else (if events[0].logGroup != group then [events[0]] else []) + EventsOutside(events[1..], group)
  }

  function WithRetention(groups: seq<GroupRow>, group: Bytes, days: int): (r: seq<GroupRow>)
    ensures |r| == |groups|
    ensures forall i | 0 <= i < |r| ::
              r[i] == if groups[i].logGroup == group && groups[i].logStream.None? then groups[i].(retention := Some(days)) else groups[i]
  {
    seq(|groups|, i requires 0 <= i < |groups| =>
      if groups[i].logGroup == group && groups[i].logStream.None? then groups[i].(retention := Some(days)) else groups[i])
  }

  // ---------- critical sections ----------

  function CreateLogGroup(store: Store, group: Bytes, nowMs: int): (Store, Reply) {
    if group == [] then (store, Err(InvalidParameter))
    else if GroupExists(store.groups, group) then (store, Err(ResourceAlreadyExists))
    else (store.(groups := store.groups + [GroupRow(group, None, None, nowMs)]), Ok(()))
  }

  function DeleteLogGroup(store: Store, group: Bytes): (Store, Reply) {
    if group == [] then (store, Err(InvalidParameter))
    else if !GroupExists(store.groups, group) then (store, Err(ResourceNotFound))
    else (Store(GroupsOutside(store.groups, group), EventsOutside(store.events, group)), Ok(()))
  }

  function CreateLogStream(store: Store, group: Bytes, stream: Bytes, nowMs: int): (Store, Reply) {
    if group == [] || stream == [] then (store, Err(InvalidParameter))
    else if !GroupExists(store.groups, group) then (store, Err(ResourceNotFound))
    else if StreamExists(store.groups, group, stream) then (store, Err(ResourceAlreadyExists))
    else (store.(groups := store.groups + [GroupRow(group, Some(stream), None, nowMs)]), Ok(()))
  }

  function PutRetentionPolicy(store: Store, group: Bytes, days: Option<Number>): (Store, Reply) {
    if group == [] || days.None? then (store, Err(InvalidParameter))
    else if !GroupExists(store.groups, group) then (store, Err(ResourceNotFound))
    else (store.(groups := WithRetention(store.groups, group, GetNumber(days.value))), Ok(()))
  }

  /** PutLogEvents inside writer_mutex: find or create the group and the stream, then append the rows. */
  function CommitEvents(store: Store, autoCreate: bool, group: Bytes, stream: Bytes, ingestionMs: int, rows: seq<EventRow>): (Store, Reply) {
    if !GroupExists(store.groups, group) && !autoCreate then (store, Err(ResourceNotFound))
    else
      var withGroup :=
        if GroupExists(store.groups, group) then store.groups else store.groups + [GroupRow(group, None, None, ingestionMs)];
      if !StreamExists(withGroup, group, stream) && !autoCreate then (store, Err(ResourceNotFound))
      else
        var withStream :=
          if StreamExists(withGroup, group, stream) then withGroup else withGroup + [GroupRow(group, Some(stream), None, ingestionMs)];
        (Store(withStream, store.events + rows), Ok(()))
  }

  // ---------- event ids ----------

  const UINT64: nat := 0x1_0000_0000_0000_0000

  function Zeros(n: nat): (r: Bytes)
    ensures |r| == n && AllDigits(r)
  {
    if n == 0 then [] else ['0'] + Zeros(n - 1)
  }

  /** printf("%019llu"). */
  function EventId(n: nat): Bytes {
    var digits := ToString(n);
    if |digits| < 19 then Zeros(19 - |digits|) + digits else digits
  }

  lemma {:induction false} ZerosEnd(n: nat)
    requires n > 0
    ensures Zeros(n) == Zeros(n - 1) + ['0']
  {
    if n == 1 {
    } else {
      ZerosEnd(n - 1);
    }
  }

  lemma {:induction false} LeadingZeros(n: nat, s: Bytes)
    requires AllDigits(s)
    ensures AllDigits(Zeros(n) + s) && DecimalValue(Zeros(n) + s) == DecimalValue(s)
    decreases n + |s|
  {
    if s != [] {
      LeadingZeros(n, s[..|s| - 1]);
      assert (Zeros(n) + s)[..n + |s| - 1] == Zeros(n) + s[..|s| - 1];
    } else if n > 0 {
      LeadingZeros(n - 1, []);
      ZerosEnd(n);
      assert Zeros(n) + [] == Zeros(n - 1) + ['0'];
      assert (Zeros(n) + [])[..n - 1] == Zeros(n - 1) + [];
    }
  }

  lemma EventIdValue(n: nat)
    ensures AllDigits(EventId(n)) && DecimalValue(EventId(n)) == n
  {
    DecimalRoundTrip(n);
    LeadingZeros(if |ToString(n)| < 19 then 19 - |ToString(n)| else 0, ToString(n));
  }

  lemma EventIdInjective(m: nat, n: nat)
    requires EventId(m) == EventId(n)
    ensures m == n
  {
    EventIdValue(m);
    EventIdValue(n);
  }

  // ---------- one PutLogEvents request ----------

  /** An element of logEvents: the timestamp and message as the JSON accessors find them. */
  datatype RawEvent = RawEvent(timestamp: Option<Number>, message: Option<Bytes>)

  predicate WellFormed(e: RawEvent) {
    e.timestamp.Some? && e.message.Some?
  }

  datatype PutRequest = PutRequest(logGroup: Bytes, logStream: Bytes, logEvents: Option<seq<RawEvent>>)

  predicate Addressed(put: PutRequest) {
    put.logGroup != [] && put.logStream != [] && put.logEvents.Some?
  }

  /** The row built from a well-formed element; strings read through C pointers end at the first NUL. */
  function RowOf(put: PutRequest, e: RawEvent, ingestionMs: int, id: nat): EventRow
    requires WellFormed(e)
  {
    EventRow(put.logGroup, put.logStream, GetNumber(e.timestamp.value), ingestionMs, EventId(id), CStr(e.message.value))
  }

  /** Ids counter + 1, counter + 2, ... modulo the width of the atomic counter. */
  function RowsOf(put: PutRequest, events: seq<RawEvent>, ingestionMs: int, counter: nat): seq<EventRow>
    requires forall i | 0 <= i < |events| :: WellFormed(events[i])
  {
    seq(|events|, i requires 0 <= i < |events| => RowOf(put, events[i], ingestionMs, (counter + i + 1) % UINT64))
  }

  lemma RowsOfNext(put: PutRequest, events: seq<RawEvent>, nowMs: int, counter: nat, n: nat)
    requires 0 < n <= |events| && counter < UINT64 && forall i | 0 <= i < n :: WellFormed(events[i])
    ensures var id := ((counter + n - 1) % UINT64 + 1) % UINT64;
            && id == (counter + n) % UINT64
            && RowsOf(put, events[..n], nowMs, counter) ==
               RowsOf(put, events[..n - 1], nowMs, counter) + [RowOf(put, events[n - 1], nowMs, id)]
  {
    hide RowOf;
  }

  lemma RowsOfLength(put: PutRequest, events: seq<RawEvent>, nowMs: int, counter: nat)
    requires forall i | 0 <= i < |events| :: WellFormed(events[i])
    ensures |RowsOf(put, events, nowMs, counter)| == |events|
  {
  }

  /** How many elements precede the first malformed one. */
  function LeadingWellFormed(events: seq<RawEvent>): (n: nat)
    ensures n <= |events|
    ensures forall i | 0 <= i < n :: WellFormed(events[i])
    ensures n < |events| ==> !WellFormed(events[n])
  {
    if events == [] || !WellFormed(events[0]) then 0 else 1 + LeadingWellFormed(events[1..])
  }

  /** The whole request when no other request runs beside it: the tables, the id counter and the reply. */
  function PutLogEvents(store: Store, counter: nat, autoCreate: bool, put: PutRequest, nowMs: int): (Store, nat, Reply) {
    if !Addressed(put) then (store, counter, Err(InvalidParameter))
    else
      var events := put.logEvents.value;
      var good := LeadingWellFormed(events);
      if good < |events| then (store, (counter + good) % UINT64, Err(InvalidParameter))
      else
        var (next, reply) := CommitEvents(store, autoCreate, put.logGroup, put.logStream, nowMs, RowsOf(put, events, nowMs, counter));
        (next, (counter + good) % UINT64, reply)
  }
}
