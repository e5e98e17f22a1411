/**
 * What the listener's requests answer and leave behind (src/cloudwatch_server.cpp), said of the
 * groups, streams and events that exist before and after.
 */
module ListenerReplies {
  import opened Strings
  import opened Doubles
  import opened Listener
  import opened ListenerRuns

  /** The rows of the groups table are those there were, and the one new row. */
  ghost predicate GroupsGain(after: seq<GroupRow>, before: seq<GroupRow>, row: GroupRow) {
    forall r :: r in after <==> r in before || r == row
  }

  /** Group and stream keys (None for the group itself) are as before but for one that is new. */
  ghost predicate OneKeyMore(after: Store, before: Store, group: Bytes, stream: Option<Bytes>) {
    forall g, s :: HasRow(after.groups, g, s) <==> HasRow(before.groups, g, s) || (g == group && s == stream)
  }

  lemma KeyAdded(store: Store, row: GroupRow)
    ensures OneKeyMore(store.(groups := store.groups + [row]), store, row.logGroup, row.logStream)
    ensures GroupsGain(store.groups + [row], store.groups, row)
  {
    hide HasRow;
    forall g, s
      ensures HasRow(store.groups + [row], g, s) <==> HasRow(store.groups, g, s) || (g == row.logGroup && s == row.logStream)
    {
      HasRowAppend(store.groups, row, g, s);
    }
  }

  /** CreateLogGroup makes a group that was not there, and refuses an empty name and a second time. */
  lemma CreateGroupMakesIt(store: Store, group: Bytes, nowMs: int, laterMs: int)
    ensures var (after, reply) := CreateLogGroup(store, group, nowMs);
            && (reply.Ok? <==> group != [] && !GroupExists(store.groups, group))
            && (reply == Err(InvalidParameter) <==> group == [])
            && (reply == Err(ResourceAlreadyExists) <==> group != [] && GroupExists(store.groups, group))
            && after.events == store.events
            && (reply.Err? ==> after == store)
            && (reply.Ok? ==>
                  && GroupExists(after.groups, group)
                  && OneKeyMore(after, store, group, None)
                  && GroupsGain(after.groups, store.groups, GroupRow(group, None, None, nowMs)))
            && (group != [] ==> CreateLogGroup(after, group, laterMs) == (after, Err(ResourceAlreadyExists)))
  {
    KeyAdded(store, GroupRow(group, None, None, nowMs));
    HasRowAppend(store.groups, GroupRow(group, None, None, nowMs), group, None);
    hide HasRow, GroupsGain;
  }

  /** CreateLogStream makes a stream that was not there, in a group that is. */
  lemma CreateStreamMakesIt(store: Store, group: Bytes, stream: Bytes, nowMs: int, laterMs: int)
    ensures var (after, reply) := CreateLogStream(store, group, stream, nowMs);
            && (reply.Ok? <==> group != [] && stream != [] && GroupExists(store.groups, group) && !StreamExists(store.groups, group, stream))
            && (reply == Err(InvalidParameter) <==> group == [] || stream == [])
            && (reply == Err(ResourceNotFound) <==> group != [] && stream != [] && !GroupExists(store.groups, group))
            && after.events == store.events
            && (reply.Err? ==> after == store)
            && (reply.Ok? ==>
                  && GroupExists(after.groups, group) && StreamExists(after.groups, group, stream)
                  && OneKeyMore(after, store, group, Some(stream))
                  && GroupsGain(after.groups, store.groups, GroupRow(group, Some(stream), None, nowMs))
                  && CreateLogStream(after, group, stream, laterMs) == (after, Err(ResourceAlreadyExists)))
  {
    KeyAdded(store, GroupRow(group, Some(stream), None, nowMs));
    HasRowAppend(store.groups, GroupRow(group, Some(stream), None, nowMs), group, Some(stream));
    HasRowAppend(store.groups, GroupRow(group, Some(stream), None, nowMs), group, None);
    hide HasRow, GroupsGain;
  }

  lemma KeysOutsideGroup(store: Store, group: Bytes, g: Bytes, s: Option<Bytes>)
    ensures HasRow(GroupsOutside(store.groups, group), g, s) <==> HasRow(store.groups, g, s) && g != group
  {
    HasRowMember(store.groups, g, s);
    HasRowMember(GroupsOutside(store.groups, group), g, s);
  }

  /** DeleteLogGroup takes the group, its streams and its events away, and nothing else. */
  lemma DeleteGroupTakesItAway(store: Store, group: Bytes)
    ensures var (after, reply) := DeleteLogGroup(store, group);
            && (reply.Ok? <==> group != [] && GroupExists(store.groups, group))
            && (reply == Err(InvalidParameter) <==> group == [])
            && (reply.Err? ==> after == store)
            && (reply.Ok? ==>
                  && (forall g, s :: HasRow(after.groups, g, s) <==> HasRow(store.groups, g, s) && g != group)
                  && (forall row :: row in after.groups <==> row in store.groups && row.logGroup != group)
                  && (forall row :: row in after.events <==> row in store.events && row.logGroup != group)
                  && DeleteLogGroup(after, group) == (after, Err(ResourceNotFound)))
  {
    hide HasRow;
    forall g, s ensures HasRow(GroupsOutside(store.groups, group), g, s) <==> HasRow(store.groups, g, s) && g != group {
      KeysOutsideGroup(store, group, g, s);
    }
  }

  /** PutRetentionPolicy sets the group's days, on the row that stands for the group alone. */
  lemma RetentionIsSet(store: Store, group: Bytes, days: Option<Number>)
    ensures var (after, reply) := PutRetentionPolicy(store, group, days);
            && (reply.Ok? <==> group != [] && days.Some? && GroupExists(store.groups, group))
            && (reply == Err(InvalidParameter) <==> group == [] || days.None?)
            && (reply.Err? ==> after == store)
            && after.events == store.events && |after.groups| == |store.groups|
            && (reply.Ok? ==> forall i | 0 <= i < |after.groups| ::
                  var row := store.groups[i];
                  after.groups[i] ==
                  if row.logGroup == group && row.logStream == None then row.(retention := Some(GetNumber(days.value))) else row)
  {
    hide HasRow;
  }

  // ---------- PutLogEvents ----------

  /** Refused exactly when auto_create is off and the group or the stream is missing; otherwise both exist and the rows are appended. */
  lemma CommitMakesAndAppends(store: Store, autoCreate: bool, group: Bytes, stream: Bytes, nowMs: int, rows: seq<EventRow>)
    ensures var (after, reply) := CommitEvents(store, autoCreate, group, stream, nowMs, rows);
            && (reply.Err? <==> !autoCreate && !(GroupExists(store.groups, group) && StreamExists(store.groups, group, stream)))
            && (reply.Err? ==> reply == Err(ResourceNotFound) && after == store)
            && (reply.Ok? ==>
                  && after.events == store.events + rows
                  && GroupExists(after.groups, group) && StreamExists(after.groups, group, stream)
                  && (forall g, s :: HasRow(after.groups, g, s) <==> HasRow(store.groups, g, s) || (g == group && (s == None || s == Some(stream))))
                  && (GroupExists(store.groups, group) && StreamExists(store.groups, group, stream) ==> after.groups == store.groups))
  {
    var own, inner := GroupRow(group, None, None, nowMs), GroupRow(group, Some(stream), None, nowMs);
    var withGroup := if GroupExists(store.groups, group) then store.groups else store.groups + [own];
    HasRowAppend(store.groups, own, group, Some(stream));
    hide HasRow;
    forall g, s
      ensures HasRow(withGroup, g, s) <==> HasRow(store.groups, g, s) || (g == group && s == None)
      ensures HasRow(withGroup + [inner], g, s) <==> HasRow(withGroup, g, s) || (g == group && s == Some(stream))
    {
      HasRowAppend(store.groups, own, g, s);
      HasRowAppend(withGroup, inner, g, s);
    }
  }

  /** The element of a request is stored as this row. */
  predicate StoredAs(row: EventRow, put: PutRequest, e: RawEvent, nowMs: int, id: nat) {
    && row.logGroup == put.logGroup && row.logStream == put.logStream
    && e.timestamp.Some? && row.timestampMs == GetNumber(e.timestamp.value)
    && e.message.Some? && row.message == CStr(e.message.value)
    && row.ingestionMs == nowMs
    && row.eventId == EventId(id)
  }

  /** The first element without a timestamp or a message, or the length of the list. */
  ghost predicate FirstMalformed(events: seq<RawEvent>, n: nat) {
    && n <= |events|
    && (forall i | 0 <= i < n :: events[i].timestamp.Some? && events[i].message.Some?)
    && (n < |events| ==> events[n].timestamp.None? || events[n].message.None?)
  }

  lemma PutRows(put: PutRequest, events: seq<RawEvent>, nowMs: int, counter: nat)
    requires forall i | 0 <= i < |events| :: WellFormed(events[i])
    ensures var rows := RowsOf(put, events, nowMs, counter);
            |rows| == |events| && forall i | 0 <= i < |rows| :: StoredAs(rows[i], put, events[i], nowMs, (counter + i + 1) % UINT64)
  {
    hide GetNumber, CStr, EventId;
  }

  /**
   * PutLogEvents: what it refuses, and that it otherwise stores every element in order, with fresh ids.
   * A malformed element refuses the request, after the ids of those before it were taken.
   */
  lemma PutStoresElements(store: Store, counter: nat, autoCreate: bool, put: PutRequest, nowMs: int, n: nat)
    requires put.logEvents.Some? ==> FirstMalformed(put.logEvents.value, n)
    ensures var (after, next, reply) := PutLogEvents(store, counter, autoCreate, put, nowMs);
            && (put.logGroup == [] || put.logStream == [] || put.logEvents.None? ==>
                  reply == Err(InvalidParameter) && after == store && next == counter)
            && (put.logGroup != [] && put.logStream != [] && put.logEvents.Some? ==>
                  var events := put.logEvents.value;
                  && next == (counter + n) % UINT64
                  && (n < |events| ==> reply == Err(InvalidParameter) && after == store)
                  && (n == |events| ==>
                        var there := GroupExists(store.groups, put.logGroup) && StreamExists(store.groups, put.logGroup, put.logStream);
                        if !there && !autoCreate then reply == Err(ResourceNotFound) && after == store
                        else
                          && reply.Ok? && GroupExists(after.groups, put.logGroup) && StreamExists(after.groups, put.logGroup, put.logStream)
                          && |after.events| == |store.events| + n && after.events[..|store.events|] == store.events
                          && forall i | 0 <= i < n ::
                               StoredAs(after.events[|store.events| + i], put, events[i], nowMs, (counter + i + 1) % UINT64)))
  {
    hide HasRow, GetNumber, CStr, EventId, CommitEvents, RowsOf, StoredAs;
    if Addressed(put) {
      var events := put.logEvents.value;
      if n == |events| {
        PutRows(put, events, nowMs, counter);
        CommitMakesAndAppends(store, autoCreate, put.logGroup, put.logStream, nowMs, RowsOf(put, events, nowMs, counter));
      }
    }
  }

  lemma NothingThere(group: Bytes, stream: Bytes)
    ensures !GroupExists(EMPTY.store.groups, group) && !StreamExists(EMPTY.store.groups, group, stream) && EMPTY.store.events == []
  {
  }

  /** A new group brings no stream with it. */
  lemma OtherKey(after: Store, before: Store, group: Bytes, stream: Bytes)
    requires OneKeyMore(after, before, group, None)
    ensures StreamExists(after.groups, group, stream) <==> StreamExists(before.groups, group, stream)
  {
    hide HasRow;
  }

  /** From an empty listener without auto_create: a group, a stream in it and events for it are all accepted, and the events are there. */
  lemma FirstEvents(group: Bytes, stream: Bytes, events: seq<RawEvent>, t1: int, t2: int, t3: int)
    requires group != [] && stream != [] && FirstMalformed(events, |events|)
    ensures var (made, first) := CreateLogGroup(EMPTY.store, group, t1);
            var (inside, second) := CreateLogStream(made, group, stream, t2);
            var put := PutRequest(group, stream, Some(events));
            var (after, next, third) := PutLogEvents(inside, EMPTY.counter, false, put, t3);
            && first.Ok? && second.Ok? && third.Ok?
            && |after.events| == |events| && next == |events| % UINT64
            && forall i | 0 <= i < |events| :: StoredAs(after.events[i], put, events[i], t3, (i + 1) % UINT64)
  {
    hide HasRow, GroupExists, StreamExists, OneKeyMore, GroupsGain, StoredAs, CreateLogGroup, CreateLogStream, PutLogEvents, FirstMalformed;
    var put := PutRequest(group, stream, Some(events));
    NothingThere(group, stream);
    CreateGroupMakesIt(EMPTY.store, group, t1, t1);
    var made := CreateLogGroup(EMPTY.store, group, t1).0;
    OtherKey(made, EMPTY.store, group, stream);
    CreateStreamMakesIt(made, group, stream, t2, t2);
    var inside := CreateLogStream(made, group, stream, t2).0;
    PutStoresElements(inside, 0, false, put, t3, |events|);
  }
}
