/**
 * What FilterLogEvents answers (src/cloudwatch_server.cpp) and so what a log scan reads: which stored
 * rows, in which order, with the conditions of the request written out.
 */
module LogAnswers {
  import opened Strings
  import opened Doubles
  import opened Listener
  import opened LogQuery
  import opened LogsScan

  // ---------- filter patterns ----------

  lemma {:induction false} TrimLeftOf(lead: Bytes, rest: Bytes)
    requires AllSpace(lead) && (rest == [] || !IsSpace(rest[0]))
    ensures TrimLeft(lead + rest) == rest
  {
    if lead == [] {
      assert lead + rest == rest;
    } else {
      assert (lead + rest)[1..] == lead[1..] + rest;
      TrimLeftOf(lead[1..], rest);
    }
  }

  lemma {:induction false} TrimRightOf(core: Bytes, trail: Bytes)
    requires AllSpace(trail) && (core == [] || !IsSpace(core[|core| - 1]))
    ensures TrimRight(core + trail) == core
  {
    if trail == [] {
      assert core + trail == core;
    } else {
      assert (core + trail)[..|core + trail| - 1] == core + trail[..|trail| - 1];
      TrimRightOf(core, trail[..|trail| - 1]);
    }
  }

  lemma TrimOf(lead: Bytes, core: Bytes, trail: Bytes)
    requires AllSpace(lead) && Trimmed(core) && AllSpace(trail)
    ensures Trim(lead + (core + trail)) == core
  {
    if core == [] {
      assert lead + (core + trail) == (lead + trail) + [];
      TrimLeftOf(lead + trail, []);
    } else {
      assert (core + trail)[0] == core[0];
      TrimLeftOf(lead, core + trail);
      TrimRightOf(core, trail);
    }
  }

  predicate Quoted(core: Bytes) {
    |core| >= 2 && core[0] == '"' && core[|core| - 1] == '"'
  }

  /** The texts the listener has no substring for: JSON and metric patterns, and several terms that are not quoted. */
  predicate Unsupported(core: Bytes) {
    && core != []
    && (core[0] == '{' || core[0] == '[' || (!Quoted(core) && (' ' in core || '?' in core)))
  }

  /** Whatever the whitespace around it: a quoted phrase asks for what it quotes, a bare term for itself, nothing for nothing. */
  lemma PatternAsks(lead: Bytes, core: Bytes, trail: Bytes)
    requires AllSpace(lead) && Trimmed(core) && AllSpace(trail)
    ensures var asked := FilterPatternSubstring(lead + (core + trail));
            && (Unsupported(core) <==> asked == Err(InvalidParameterException))
            && (!Unsupported(core) && Quoted(core) ==> asked.Ok? && core == "\"" + asked.value + "\"")
            && (!Unsupported(core) && !Quoted(core) ==> asked == Ok(core))
  {
    TrimOf(lead, core, trail);
    hide Trim;
    if Quoted(core) {
      assert core == "\"" + core[1..|core| - 1] + "\"";
    }
  }

  // ---------- which rows are in the answer ----------

  function ValueOr(value: Option<Number>, missing: int): int {
    if value.None? then missing else GetNumber(value.value)
  }

  /** The row belongs to the answer: its group, its time, its message and its stream are those asked for. */
  ghost predicate Wanted(row: EventRow, group: Bytes, startMs: int, endMs: int, text: Bytes, prefix: Bytes, streams: seq<Bytes>) {
    && row.logGroup == group
    && (endMs > 0 ==> startMs <= row.timestampMs < endMs)
    && (endMs <= 0 && startMs > 0 ==> startMs <= row.timestampMs)
    && (text == [] || HasText(row.message, text))
    && (prefix == [] || (|prefix| <= |row.logStream| && row.logStream[..|prefix|] == prefix))
    && (streams == [] || exists i :: 0 <= i < |streams| && streams[i] == row.logStream)
  }

  lemma MatchesIsWanted(req: FilterRequest, text: Bytes, row: EventRow)
    ensures LogQuery.Matches(req, text, row) <==>
            Wanted(row, req.logGroup, ValueOr(req.startTime, 0), ValueOr(req.endTime, 0), text, req.streamPrefix, req.streams)
  {
    ContainsIsHasText(row.message, text);
    hide Contains, HasText, GetNumber;
  }

  /** Oldest first, or newest first; rows of one time by their id. */
  predicate InKeyOrder(a: EventRow, b: EventRow, ascending: bool) {
    if ascending then a.timestampMs < b.timestampMs || (a.timestampMs == b.timestampMs && !LexLess(b.eventId, a.eventId))
    else a.timestampMs > b.timestampMs || (a.timestampMs == b.timestampMs && !LexLess(a.eventId, b.eventId))
  }

  /** rows are the wanted ones of the table, each as often as it is stored, in key order. */
  ghost predicate Answers(rows: seq<EventRow>, store: Store, group: Bytes, startMs: int, endMs: int,
                          text: Bytes, prefix: Bytes, streams: seq<Bytes>, ascending: bool) {
    && (forall row :: multiset(rows)[row] ==
                      if Wanted(row, group, startMs, endMs, text, prefix, streams) then multiset(store.events)[row] else 0)
    && (forall i, j | 0 <= i < j < |rows| :: InKeyOrder(rows[i], rows[j], ascending))
  }

  lemma {:induction false} SelectCounts(rows: seq<EventRow>, req: FilterRequest, text: Bytes, row: EventRow)
    ensures multiset(LogQuery.Select(rows, req, text))[row] == if LogQuery.Matches(req, text, row) then multiset(rows)[row] else 0
  {
    hide LogQuery.Matches;
    if rows == [] {
    } else {
      var front, last := rows[..|rows| - 1], rows[|rows| - 1];
      SelectCounts(front, req, text, row);
      assert rows == front + [last];
    }
  }

  /** The unpaged answer, as rows: descending unless startFromHead is true. */
  lemma SelectedAnswers(store: Store, req: FilterRequest, text: Bytes) returns (rows: seq<EventRow>)
    ensures QueryAll(store, req, text) == LogEventsOf(rows)
    ensures Answers(rows, store, req.logGroup, ValueOr(req.startTime, 0), ValueOr(req.endTime, 0), text, req.streamPrefix, req.streams,
                    req.startFromHead.Some? && req.startFromHead.value)
  {
    hide LogQuery.Matches, LogQuery.Select, OrderBy, Wanted, GetNumber, LexLess;
    var selected := LogQuery.Select(store.events, req, text);
    rows := OrderBy(selected, Ascending(req));
    OrderByOrdered(selected, Ascending(req));
    forall row
      ensures multiset(rows)[row] ==
              if Wanted(row, req.logGroup, ValueOr(req.startTime, 0), ValueOr(req.endTime, 0), text, req.streamPrefix, req.streams)
              then multiset(store.events)[row] else 0
    {
      SelectCounts(store.events, req, text, row);
      MatchesIsWanted(req, text, row);
    }
  }

  /** The event an answer shows for a row. */
  predicate Shows(event: LogEvent, row: EventRow) {
    && event.timestampMs == row.timestampMs && event.ingestionMs == row.ingestionMs
    && event.eventId == CStr(row.eventId) && event.logStreamName == CStr(row.logStream) && event.message == CStr(row.message)
  }

  predicate ShowsAll(events: seq<LogEvent>, rows: seq<EventRow>) {
    |events| == |rows| && forall i | 0 <= i < |events| :: Shows(events[i], rows[i])
  }

  lemma EventsShow(rows: seq<EventRow>)
    ensures ShowsAll(LogEventsOf(rows), rows)
  {
    hide CStr;
  }

  // ---------- one request ----------

  /** The page length asked for, held between 1 and 10000; 10000 when none is. */
  predicate PageLength(limit: Option<Number>, length: nat) {
    && 1 <= length <= 10000
    && (limit.None? ==> length == 10000)
    && (limit.Some? && 1 <= GetNumber(limit.value) <= 10000 ==> length == GetNumber(limit.value))
    && (limit.Some? && GetNumber(limit.value) < 1 ==> length == 1)
    && (limit.Some? && GetNumber(limit.value) > 10000 ==> length == 10000)
  }

  /** No token, or the decimal text of an offset. */
  predicate Offset(token: Bytes, offset: nat) {
    if token == [] then offset == 0 else Stoll(token) == Some(offset)
  }

  /**
   * FilterLogEvents refuses a missing group, a pattern without a substring and a token that is no offset. Otherwise it
   * answers the rows of its page, from the offset on, and hands out the next offset exactly when rows remain.
   */
  lemma FilterAnswers(store: Store, req: FilterRequest, length: nat) returns (rows: seq<EventRow>, text: Bytes, offset: nat)
    requires PageLength(req.limit, length)
    ensures var r := FilterLogEvents(store, req);
            && (r.Err? <==>
                  || req.logGroup == [] || FilterPatternSubstring(req.filterPattern).Err?
                  || (req.nextToken != [] && (Stoll(req.nextToken).None? || Stoll(req.nextToken).value < 0)))
            && (r.Ok? ==>
                  && FilterPatternSubstring(req.filterPattern) == Ok(text) && Offset(req.nextToken, offset)
                  && Answers(rows, store, req.logGroup, ValueOr(req.startTime, 0), ValueOr(req.endTime, 0), text,
                             req.streamPrefix, req.streams, req.startFromHead == Some(true))
                  && var from := if offset < |rows| then offset else |rows|;
                     var upto := if from + length < |rows| then from + length else |rows|;
                     && ShowsAll(r.value.events, rows[from..upto])
                     && r.value.nextToken == if upto < |rows| then ToString(offset + length) else [])
  {
    hide QueryAll, FilterPatternSubstring, Answers, Stoll, ToString, GetNumber, Shows, CStr;
    rows, text, offset := [], [], 0;
    if FilterPatternSubstring(req.filterPattern).Ok? && ParseOffset(req.nextToken).Ok? {
      text, offset := FilterPatternSubstring(req.filterPattern).value, ParseOffset(req.nextToken).value;
      rows := SelectedAnswers(store, req, text);
      EventsShow(rows);
      assert Clamp(IntOr(req.limit, 10000)) == length;
    }
  }

  /**
   * The whole scan of a bind: the rows of its group, window, text and streams, in its order.
   * Dates and texts are those the listener reads from the scan's request.
   */
  lemma ScanAnswers(store: Store, bind: LogsBind) returns (rows: seq<EventRow>, text: Bytes)
    ensures var r := WholeQuery(store, bind);
            && (r.Err? <==> CStr(bind.logGroup) == [] || FilterPatternSubstring(CStr(bind.filterPattern)).Err?)
            && (r.Ok? ==>
                  && FilterPatternSubstring(CStr(bind.filterPattern)) == Ok(text)
                  && Answers(rows, store, CStr(bind.logGroup), GetInt(bind.startMs), GetInt(bind.endMs), text,
                             CStr(bind.streamPrefix), CStrs(bind.streams), bind.ascending)
                  && ShowsAll(r.value, rows))
  {
    hide QueryAll, FilterPatternSubstring, Answers, CStr, GetInt, CStrs;
    rows, text := [], [];
    if FilterPatternSubstring(CStr(bind.filterPattern)).Ok? {
      text := FilterPatternSubstring(CStr(bind.filterPattern)).value;
      rows := SelectedAnswers(store, LogsScan.RequestFor(bind, 1, []), text);
      EventsShow(rows);
    }
  }
}
