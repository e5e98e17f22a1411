/**
 * read_cloudwatch_logs against the listener (src/logs_table.cpp): pages are fetched into a
 * buffer and handed out in chunks until the query or the row limit is exhausted.
 */
module LogsScan {
  import opened Doubles
  import opened Strings
  import opened Listener
  import opened LogQuery
  import opened CloudwatchServerObject

  const STANDARD_VECTOR_SIZE: nat := 2048

  /** The bound scan: its filter, order and limits; maxRows 0 means unlimited. */
  datatype LogsBind = LogsBind(
    logGroup: Bytes,
    filterPattern: Bytes,
    streamPrefix: Bytes,
    streams: seq<Bytes>,
    ascending: bool,
    pageSize: nat,
    maxRows: nat,
    startMs: int,
    endMs: int)

  predicate ValidBind(bind: LogsBind) {
    bind.logGroup != [] && 1 <= bind.pageSize <= 10000
  }

  function CStrs(names: seq<Bytes>): (r: seq<Bytes>)
    ensures |r| == |names| && forall i | 0 <= i < |r| :: r[i] == CStr(names[i])
  {
    seq(|names|, i requires 0 <= i < |names| => CStr(names[i]))
  }

  /** The request a page fetch sends, as the listener's accessors read it. */
  function RequestFor(bind: LogsBind, limit: nat, token: Bytes): FilterRequest {
    FilterRequest(CStr(bind.logGroup), Some(Whole(bind.startMs)), Some(Whole(bind.endMs)), Some(Whole(limit)), Some(bind.ascending),
                  CStr(bind.filterPattern), CStr(bind.streamPrefix), CStrs(bind.streams), token)
  }

  /** Every row the bind selects, in its order: what one unpaged query over the tables would return. */
  function WholeQuery(store: Store, bind: LogsBind): Result<seq<LogEvent>, QueryError> {
    if CStr(bind.logGroup) == [] then Err(InvalidParameterException)
    else match FilterPatternSubstring(CStr(bind.filterPattern))
      case Err(e) => Err(e)
      case Ok(substring) => Ok(QueryAll(store, RequestFor(bind, 1, []), substring))
  }

  /** How many rows the scan is to deliver. */
  function Target(total: nat, maxRows: nat): nat {
    if maxRows == 0 || total < maxRows then total else maxRows
  }

  function TokenAt(offset: nat): Bytes {
    if offset == 0 then [] else ToString(offset)
  }

  /** The offset behind the page that starts at offset. */
  function PageEnd(total: nat, limit: nat, offset: nat): nat {
    if offset + limit <= total then offset + limit else total
  }

  /** Cutting limit rows out of LIMIT limit + 1 OFFSET offset leaves one page of the whole. */
  lemma SlicePage(all: seq<LogEvent>, limit: nat, offset: nat)
    requires offset <= |all|
    ensures var rows := Slice(all, offset, limit + 1);
            var returned := if |rows| < limit then |rows| else limit;
            && rows[..returned] == all[offset..PageEnd(|all|, limit, offset)]
            && (|rows| > returned <==> PageEnd(|all|, limit, offset) < |all|)
            && offset + returned == PageEnd(|all|, limit, offset)
  {
  }

  lemma {:induction false} SameSelection(rows: seq<EventRow>, a: FilterRequest, b: FilterRequest, substring: Bytes)
    requires a == b.(limit := a.limit, nextToken := a.nextToken)
    ensures Select(rows, a, substring) == Select(rows, b, substring)
  {
    if rows == [] {
    } else {
      SameSelection(rows[..|rows| - 1], a, b, substring);
    }
  }

  /** The limit and the token do not take part in the selection. */
  lemma SameQuery(store: Store, a: FilterRequest, b: FilterRequest, substring: Bytes)
    requires a == b.(limit := a.limit, nextToken := a.nextToken)
    ensures QueryAll(store, a, substring) == QueryAll(store, b, substring)
  {
    SameSelection(store.events, a, b, substring);
  }

  /** A page starting at offset holds the next limit rows, and its token is the offset behind them if rows remain. */
  lemma PageAt(store: Store, bind: LogsBind, limit: nat, offset: nat)
    requires ValidBind(bind) && WholeQuery(store, bind).Ok?
    requires 1 <= limit <= 10000 && offset <= |WholeQuery(store, bind).value| <= INT64_MAX
    ensures var all := WholeQuery(store, bind).value;
            var upto := PageEnd(|all|, limit, offset);
            FilterLogEvents(store, RequestFor(bind, limit, TokenAt(offset))) ==
            Ok(Page(all[offset..upto], if upto < |all| then TokenAt(upto) else []))
  {
    hide QueryAll, Slice, GetInt, ToString, CStr, CStrs;
    var req := RequestFor(bind, limit, TokenAt(offset));
    var substring := FilterPatternSubstring(CStr(bind.filterPattern)).value;
    assert QueryAll(store, req, substring) == QueryAll(store, RequestFor(bind, 1, []), substring) by {
      SameQuery(store, req, RequestFor(bind, 1, []), substring);
    }
    assert ParseOffset(TokenAt(offset)) == Ok(offset) by {
      if offset > 0 {
        StollToString(offset);
      }
    }
    assert IntOr(Some(Whole(limit)), 10000) == limit by {
      GetIntExact(limit);
    }
    hide FilterPatternSubstring, ParseOffset;
    SlicePage(QueryAll(store, req, substring), limit, offset);
  }

  lemma PageFails(store: Store, bind: LogsBind, limit: nat, token: Bytes)
    requires ValidBind(bind) && WholeQuery(store, bind).Err?
    ensures FilterLogEvents(store, RequestFor(bind, limit, token)) == Err(WholeQuery(store, bind).error)
  {
    hide FilterPatternSubstring, QueryAll, CStr, CStrs;
  }

  lemma NextRow(all: seq<LogEvent>, from: nat, at: nat, upto: nat)
    requires from <= at < upto <= |all|
    ensures all[from..at] + [all[at..upto][0]] == all[from..at + 1]
    ensures all[at..upto][1..] == all[at + 1..upto]
  {
  }

  /** Tokens of successive pages never repeat, so the repeated-token exit is not taken. */
  lemma TokensDiffer(a: nat, b: nat)
    ensures a < b ==> TokenAt(a) != TokenAt(b) && TokenAt(b) != []
  {
    if a < b && a > 0 && TokenAt(a) == TokenAt(b) {
      ToStringInjective(a, b);
    }
  }

  class LogsScanState {
    const bind: LogsBind
    var buffer: seq<LogEvent>
    var nextToken: Bytes
    var totalEmitted: nat
    var finished: bool

    constructor (bind: LogsBind)
      ensures this.bind == bind && buffer == [] && nextToken == [] && totalEmitted == 0 && !finished
    {
      this.bind := bind;
      buffer, nextToken, totalEmitted, finished := [], [], 0, false;
    }

    /** Rows before totalEmitted are delivered, the buffer holds the next ones, and the token resumes behind it. */
    ghost predicate Follows(all: seq<LogEvent>)
      reads this
    {
      var fetched := totalEmitted + |buffer|;
      && fetched <= Target(|all|, bind.maxRows)
      && buffer == all[totalEmitted..fetched]
      && (if finished then fetched == Target(|all|, bind.maxRows) else nextToken == TokenAt(fetched))
    }

    function PageLimit(): (limit: nat)
      reads this
    {
      if bind.maxRows == 0 then bind.pageSize
      else if totalEmitted + |buffer| >= bind.maxRows then 0
      else if bind.pageSize < bind.maxRows - (totalEmitted + |buffer|) then bind.pageSize
      else bind.maxRows - (totalEmitted + |buffer|)
    }

    /** One request: the page's rows are appended, and the scan is over or the token moves behind them. */
    method FetchNextPage(server: CloudwatchServer, ghost all: seq<LogEvent>) returns (error: Option<QueryError>)
      requires ValidBind(bind) && !finished && buffer == []
      requires WholeQuery(server.Tables(), bind).Ok? ==>
                 WholeQuery(server.Tables(), bind).value == all && |all| <= INT64_MAX && Follows(all)
      modifies this
      ensures totalEmitted == old(totalEmitted)
      ensures WholeQuery(server.Tables(), bind).Ok? ==> error.None? && Follows(all) && (finished || buffer != [])
      ensures WholeQuery(server.Tables(), bind).Err? && old(PageLimit()) > 0 ==>
                error == Some(WholeQuery(server.Tables(), bind).error) && buffer == []
    {
      hide WholeQuery, FilterLogEvents, TokenAt;
      var pageLimit := PageLimit();
      if pageLimit == 0 {
        finished := true;
        return None;
      }
      if WholeQuery(server.Tables(), bind).Ok? {
        PageAt(server.Tables(), bind, pageLimit, totalEmitted);
      } else {
        PageFails(server.Tables(), bind, pageLimit, nextToken);
      }
      var response := server.HandleFilterLogEvents(RequestFor(bind, pageLimit, nextToken));
      if response.Err? {
        return Some(response.error);
      }
      buffer := buffer + response.value.events;
      var token := response.value.nextToken;
      TokensDiffer(totalEmitted, totalEmitted + |buffer|);
      assert WholeQuery(server.Tables(), bind).Ok? ==> buffer == all[totalEmitted..PageEnd(|all|, pageLimit, totalEmitted)];
      if token == [] || token == nextToken || PageLimit() == 0 {
        finished := true;
      } else {
        nextToken := token;
      }
      return None;
    }

    /** The first loop of a scan call: fetch until there is something to hand out. */
    method FillBuffer(server: CloudwatchServer, ghost all: seq<LogEvent>) returns (error: Option<QueryError>)
      requires ValidBind(bind)
      requires match WholeQuery(server.Tables(), bind)
               case Ok(rows) => rows == all && |all| <= INT64_MAX && Follows(all)
               case Err(_) => !finished && buffer == [] && PageLimit() > 0
      modifies this
      ensures match WholeQuery(server.Tables(), bind)
              case Err(e) => error == Some(e)
              case Ok(_) => error.None? && Follows(all) && totalEmitted == old(totalEmitted) && (buffer != [] || finished)
    {
      hide WholeQuery;
      error := None;
      while buffer == [] && !finished && error.None?
        invariant totalEmitted == old(totalEmitted)
        invariant WholeQuery(server.Tables(), bind).Ok? ==> Follows(all) && error.None?
        invariant WholeQuery(server.Tables(), bind).Err? ==>
                    if error.None? then !finished && buffer == [] && PageLimit() > 0
                    else error == Some(WholeQuery(server.Tables(), bind).error)
        decreases error.None?, !finished && buffer == []
      {
        error := FetchNextPage(server, all);
      }
    }

    /** One turn of the second loop: the next row leaves the buffer, and the row limit may end the scan. */
    method TakeRow(ghost all: seq<LogEvent>) returns (row: LogEvent, stop: bool)
      requires Follows(all) && buffer != []
      modifies this
      ensures Follows(all) && totalEmitted == old(totalEmitted) + 1
      ensures old(totalEmitted) < |all| && row == all[old(totalEmitted)]
      ensures |buffer| < |old(buffer)|
      ensures stop <==> bind.maxRows > 0 && totalEmitted >= bind.maxRows
    {
      row := buffer[0];
      NextRow(all, totalEmitted, totalEmitted, totalEmitted + |buffer|);
      buffer := buffer[1..];
      totalEmitted := totalEmitted + 1;
      stop := bind.maxRows > 0 && totalEmitted >= bind.maxRows;
      if stop {
        buffer := [];
        finished := true;
      }
    }

    /** The second loop: move rows from the buffer into the chunk, up to its size and the row limit. */
    method TakeChunk(ghost all: seq<LogEvent>) returns (chunk: seq<LogEvent>)
      requires Follows(all) && (buffer != [] || finished)
      modifies this
      ensures Follows(all)
      ensures old(totalEmitted) <= totalEmitted && chunk == all[old(totalEmitted)..totalEmitted]
      ensures |chunk| <= STANDARD_VECTOR_SIZE
      ensures chunk == [] ==> totalEmitted == Target(|all|, bind.maxRows)
    {
      chunk := [];
      var stop := false;
      while |chunk| < STANDARD_VECTOR_SIZE && buffer != [] && !stop
        invariant Follows(all)
        invariant old(totalEmitted) <= totalEmitted <= |all| && chunk == all[old(totalEmitted)..totalEmitted]
        invariant |chunk| <= STANDARD_VECTOR_SIZE
        invariant chunk == [] ==> !stop && (buffer != [] || finished)
        decreases |buffer|
      {
        var row: LogEvent;
        row, stop := TakeRow(all);
        chunk := chunk + [row];
      }
    }

    /** One chunk: the next rows of the query, empty only once all of them are delivered. */
    method CloudwatchLogsScan(server: CloudwatchServer, ghost all: seq<LogEvent>)
      returns (error: Option<QueryError>, chunk: seq<LogEvent>)
      requires ValidBind(bind)
      requires match WholeQuery(server.Tables(), bind)
               case Ok(rows) => rows == all && |all| <= INT64_MAX && Follows(all)
               case Err(_) => !finished && buffer == [] && PageLimit() > 0
      modifies this
      ensures WholeQuery(server.Tables(), bind).Err? ==> error == Some(WholeQuery(server.Tables(), bind).error)
      ensures WholeQuery(server.Tables(), bind).Ok? ==>
                && error.None? && Follows(all)
                && old(totalEmitted) <= totalEmitted && chunk == all[old(totalEmitted)..totalEmitted]
                && |chunk| <= STANDARD_VECTOR_SIZE
                && (chunk == [] ==> totalEmitted == Target(|all|, bind.maxRows))
    {
      hide WholeQuery;
      chunk := [];
      error := FillBuffer(server, all);
      if error.None? {
        chunk := TakeChunk(all);
      }
    }
  }

  function Concat<T>(chunks: seq<seq<T>>): seq<T> {
    if chunks == [] then [] else Concat(chunks[..|chunks| - 1]) + chunks[|chunks| - 1]
  }

  lemma EmittedWithin(state: LogsScanState, all: seq<LogEvent>)
    requires state.Follows(all)
    ensures state.totalEmitted <= Target(|all|, state.bind.maxRows) <= |all|
  {
  }

  /** The next slice behind the first. */
  lemma SliceOn(all: seq<LogEvent>, before: seq<LogEvent>, i: nat, j: nat)
    requires i <= j <= |all| && before == all[..i]
    ensures before + all[i..j] == all[..j]
  {
  }

  lemma ConcatPush(chunks: seq<seq<LogEvent>>, chunk: seq<LogEvent>)
    ensures Concat<LogEvent>([]) == [] && Concat(chunks + [chunk]) == Concat(chunks) + chunk
  {
    assert (chunks + [chunk])[..|chunks|] == chunks;
  }

  /**
   * The whole scan, chunk after chunk until an empty one. Against unchanged tables the chunks are,
   * in order and without gap or repeat, the first maxRows rows of the one unpaged query, whatever
   * the page size; and the scan ends.
   */
  method ScanAll(bind: LogsBind, server: CloudwatchServer) returns (r: Result<seq<seq<LogEvent>>, QueryError>)
    requires ValidBind(bind)
    requires WholeQuery(server.Tables(), bind).Ok? ==> |WholeQuery(server.Tables(), bind).value| <= INT64_MAX
    ensures match WholeQuery(server.Tables(), bind)
            case Err(e) => r == Err(e)
            case Ok(all) =>
              && r.Ok?
              && Concat(r.value) == all[..Target(|all|, bind.maxRows)]
              && forall i | 0 <= i < |r.value| :: 0 < |r.value[i]| <= STANDARD_VECTOR_SIZE
  {
    hide WholeQuery, Concat;
    ConcatPush([], []);
    var state := new LogsScanState(bind);
    ghost var whole := WholeQuery(server.Tables(), bind);
    ghost var all := if whole.Ok? then whole.value else [];
    var chunks: seq<seq<LogEvent>> := [];
    var error, chunk := state.CloudwatchLogsScan(server, all);
    if error.Some? {
      return Err(error.value);
    }
    EmittedWithin(state, all);
    SliceOn(all, [], 0, state.totalEmitted);
    hide Target, LogsScanState.Follows;
    while chunk != []
      invariant state.bind == bind && fresh(state)
      invariant WholeQuery(server.Tables(), bind) == Ok(all)
      invariant state.Follows(all) && state.totalEmitted <= Target(|all|, bind.maxRows) <= |all|
      invariant Concat(chunks) + chunk == all[..state.totalEmitted]
      invariant |chunk| <= STANDARD_VECTOR_SIZE
      invariant forall i | 0 <= i < |chunks| :: 0 < |chunks[i]| <= STANDARD_VECTOR_SIZE
      invariant chunk == [] ==> state.totalEmitted == Target(|all|, bind.maxRows)
      decreases Target(|all|, bind.maxRows) - state.totalEmitted, |chunk|
    {
      ConcatPush(chunks, chunk);
      ghost var emitted := state.totalEmitted;
      chunks := chunks + [chunk];
      error, chunk := state.CloudwatchLogsScan(server, all);
      EmittedWithin(state, all);
      SliceOn(all, Concat(chunks), emitted, state.totalEmitted);
    }
    return Ok(chunks);
  }
}
