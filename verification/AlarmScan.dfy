/**
 * Paging through DescribeAlarms (src/alerts_table.cpp): one state after the other, with cycle
 * detection on page tokens and one row per alarm.
 */
module AlarmScan {
  import opened Strings
  import opened XmlGrammar
  import opened AlarmRows
  import opened TokenSets

  // ---------- one fetch ----------

  const STATE_COUNT: nat := 2

  function StateName(index: nat): Bytes {
    if index == 0 then ALARM else INSUFFICIENT_DATA
  }

  function Key(row: AlarmRow): Bytes {
    if row.alarmArn != [] then row.alarmArn else row.alarmType + "\n" + row.alarmName
  }

  /** pushed holds every row put into the buffer so far, taken out again or not. */
  datatype ScanState = ScanState(
    pushed: seq<AlarmRow>,
    nextToken: Bytes,
    stateIndex: nat,
    finished: bool,
    seen: set<Bytes>,
    seenTokens: set<Bytes>)

  const INITIAL: ScanState := ScanState([], [], 0, false, {}, {})

  function PushNew(pushed: seq<AlarmRow>, seen: set<Bytes>, rows: seq<AlarmRow>): (seq<AlarmRow>, set<Bytes>)
    decreases rows
  {
    if rows == [] then (pushed, seen)
    else if Key(rows[0]) in seen then PushNew(pushed, seen, rows[1..])
    else PushNew(pushed + [rows[0]], seen + {Key(rows[0])}, rows[1..])
  }

  function Fetch(s: ScanState, page: XmlNode): ScanState {
    if s.stateIndex >= STATE_COUNT then s.(finished := true)
    else
      var (pushed, seen) := PushNew(s.pushed, s.seen, PageRows(page, StateName(s.stateIndex)));
      var next := PageToken(page);
      if next == [] || next in s.seenTokens then
        ScanState(pushed, [], s.stateIndex + 1, s.finished || s.stateIndex + 1 >= STATE_COUNT, seen, {})
      else
        ScanState(pushed, next, s.stateIndex, s.finished, seen, s.seenTokens + {next})
  }

  /** The state after the first n replies, fetching no further once finished. */
  function After(pages: seq<XmlNode>, n: nat): ScanState
    requires n <= |pages|
  {
    if n == 0 then INITIAL
    else
      var s := After(pages, n - 1);
      if s.finished then s else Fetch(s, pages[n - 1])
  }

  lemma FetchPushes(s: ScanState, page: XmlNode)
    requires s.stateIndex < STATE_COUNT
    ensures var t := Fetch(s, page);
            && (t.pushed, t.seen) == PushNew(s.pushed, s.seen, PageRows(page, StateName(s.stateIndex)))
            && t.stateIndex >= s.stateIndex
  {
    hide PushNew, PageRows, PageToken;
  }

  // ---------- what a run asked and was told ----------

  datatype Request = Request(stateIndex: nat, token: Bytes)

  /** The requests of the first n fetches, in order. */
  function Requests(pages: seq<XmlNode>, n: nat): seq<Request>
    requires n <= |pages|
  {
    if n == 0 then []
    else
      var s := After(pages, n - 1);
      Requests(pages, n - 1) + if s.finished then [] else [Request(s.stateIndex, s.nextToken)]
  }

  function FetchedRows(pages: seq<XmlNode>, n: nat): seq<AlarmRow>
    requires n <= |pages|
  {
    if n == 0 then []
    else
      var s := After(pages, n - 1);
      FetchedRows(pages, n - 1) + if s.finished then [] else PageRows(pages[n - 1], StateName(s.stateIndex))
  }

  /** The page tokens handed out in answer to a state's requests. */
  function TokensGiven(pages: seq<XmlNode>, n: nat, index: nat): set<Bytes>
    requires n <= |pages|
  {
    if n == 0 then {}
    else
      var s := After(pages, n - 1);
      TokensGiven(pages, n - 1, index) +
      if !s.finished && s.stateIndex == index && PageToken(pages[n - 1]) != [] then {PageToken(pages[n - 1])} else {}
  }

  function TokensAsked(requests: seq<Request>, index: nat): seq<Bytes> {
    if requests == [] then []
    else TokensAsked(requests[..|requests| - 1], index) +
         if requests[|requests| - 1].stateIndex == index then [requests[|requests| - 1].token] else []
  }

  // ---------- the invariant of a run ----------

  /** What the requests so far say of the token state: nothing asked twice, and the next token not asked yet. */
  ghost predicate TokensOk(s: ScanState, requests: seq<Request>, given: seq<set<Bytes>>) {
    && s.stateIndex <= STATE_COUNT && s.finished == (s.stateIndex == STATE_COUNT)
    && (forall r | r in requests :: r.stateIndex < STATE_COUNT && r.stateIndex <= s.stateIndex)
    && |given| == STATE_COUNT
    && (forall i | 0 <= i < STATE_COUNT :: Distinct(TokensAsked(requests, i)) && Elements(TokensAsked(requests, i)) <= given[i] + {[]})
    && [] !in s.seenTokens
    && (s.stateIndex < STATE_COUNT ==>
          && s.seenTokens <= given[s.stateIndex]
          && s.nextToken !in TokensAsked(requests, s.stateIndex)
          && Elements(TokensAsked(requests, s.stateIndex) + [s.nextToken]) == s.seenTokens + {[]})
  }

  function Given(pages: seq<XmlNode>, n: nat): seq<set<Bytes>>
    requires n <= |pages|
  {
    [TokensGiven(pages, n, 0), TokensGiven(pages, n, 1)]
  }

  lemma {:induction false} NothingAsked(requests: seq<Request>, index: nat)
    requires forall r | r in requests :: r.stateIndex < index
    ensures TokensAsked(requests, index) == []
  {
    if requests == [] {
    } else {
      NothingAsked(requests[..|requests| - 1], index);
    }
  }

  lemma AskOne(requests: seq<Request>, r: Request, index: nat)
    ensures TokensAsked(requests + [r], index) == TokensAsked(requests, index) + if r.stateIndex == index then [r.token] else []
  {
    assert (requests + [r])[..|requests|] == requests;
  }

  /** Asking for the next token repeats nothing and asks only for what was handed out. */
  lemma AskingKeepsTokens(s: ScanState, requests: seq<Request>, given: seq<set<Bytes>>, given': seq<set<Bytes>>, k: nat)
    requires TokensOk(s, requests, given) && !s.finished && k < STATE_COUNT
    requires |given'| == STATE_COUNT && given[k] <= given'[k]
    ensures var asked := TokensAsked(requests + [Request(s.stateIndex, s.nextToken)], k);
            && Distinct(asked) && Elements(asked) <= given'[k] + {[]}
            && (k == s.stateIndex ==> Elements(asked) == s.seenTokens + {[]})
  {
    hide TokensAsked, Distinct, Elements;
    var asked := TokensAsked(requests, k);
    AskOne(requests, Request(s.stateIndex, s.nextToken), k);
    if k == s.stateIndex {
      DistinctPush(asked, s.nextToken);
    } else {
      assert asked + [] == asked;
    }
  }

  /** One fetch keeps the token state in order. */
  lemma FetchKeepsTokens(s: ScanState, page: XmlNode, requests: seq<Request>, given: seq<set<Bytes>>, given': seq<set<Bytes>>)
    requires TokensOk(s, requests, given) && !s.finished
    requires |given'| == STATE_COUNT && forall i | 0 <= i < STATE_COUNT ::
               given'[i] == given[i] + if i == s.stateIndex && PageToken(page) != [] then {PageToken(page)} else {}
    ensures TokensOk(Fetch(s, page), requests + [Request(s.stateIndex, s.nextToken)], given')
  {
    hide PushNew, PageRows, PageToken, TokensAsked, Distinct, Elements;
    var requests' := requests + [Request(s.stateIndex, s.nextToken)];
    AskingKeepsTokens(s, requests, given, given', 0);
    AskingKeepsTokens(s, requests, given, given', 1);
    var next := PageToken(page);
    if next == [] || next in s.seenTokens {
      if s.stateIndex == 0 {
        NothingAsked(requests', 1);
        ElementsPush([], []);
        NoElements();
      }
    } else {
      ElementsPush(TokensAsked(requests', s.stateIndex), next);
      assert (s.seenTokens + {[]}) + {next} == (s.seenTokens + {next}) + {[]};
    }
  }

  lemma StillRunning(s: ScanState, page: XmlNode, requests: seq<Request>, given: seq<set<Bytes>>)
    requires TokensOk(s, requests, given) && !s.finished
    ensures s.stateIndex < STATE_COUNT
  {
  }

  lemma InitialTokens()
    ensures TokensOk(INITIAL, [], [{}, {}])
  {
    NoElements();
    ElementsPush([], []);
  }

  lemma {:induction false} RunKeepsTokens(pages: seq<XmlNode>, n: nat)
    requires n <= |pages|
    ensures TokensOk(After(pages, n), Requests(pages, n), Given(pages, n))
    ensures !After(pages, n).finished ==> |Requests(pages, n)| == n
  {
    hide TokensOk, Fetch;
    if n == 0 {
      InitialTokens();
    } else {
      RunKeepsTokens(pages, n - 1);
      var s := After(pages, n - 1);
      if s.finished {
        assert Requests(pages, n) == Requests(pages, n - 1);
        assert TokensGiven(pages, n, 0) == TokensGiven(pages, n - 1, 0) && TokensGiven(pages, n, 1) == TokensGiven(pages, n - 1, 1);
      } else {
        FetchKeepsTokens(s, pages[n - 1], Requests(pages, n - 1), Given(pages, n - 1), Given(pages, n));
        StillRunning(s, pages[n - 1], Requests(pages, n - 1), Given(pages, n - 1));
      }
    }
  }

  // ---------- what a run costs ----------

  lemma {:induction false} AskedSplits(requests: seq<Request>)
    requires forall r | r in requests :: r.stateIndex < STATE_COUNT
    ensures |requests| == |TokensAsked(requests, 0)| + |TokensAsked(requests, 1)|
  {
    if requests == [] {
    } else {
      assert requests[|requests| - 1] in requests;
      forall r | r in requests[..|requests| - 1] ensures r in requests {
      }
      AskedSplits(requests[..|requests| - 1]);
    }
  }

  /**
   * No page is fetched twice within a state, and a state costs at most one fetch more than the
   * distinct page tokens the server handed out for it, whatever the server does.
   */
  lemma NoPageFetchedTwice(pages: seq<XmlNode>, n: nat, index: nat)
    requires n <= |pages| && index < STATE_COUNT
    ensures Distinct(TokensAsked(Requests(pages, n), index))
    ensures |TokensAsked(Requests(pages, n), index)| <= |TokensGiven(pages, n, index)| + 1
  {
    hide After, Distinct, Elements, TokensAsked;
    RunKeepsTokens(pages, n);
    assert Given(pages, n)[index] == TokensGiven(pages, n, index);
    AskedBound(TokensAsked(Requests(pages, n), index), TokensGiven(pages, n, index));
  }

  /** All page tokens the server answers with are among tokens. */
  predicate TokensFrom(pages: seq<XmlNode>, tokens: set<Bytes>) {
    forall i | 0 <= i < |pages| :: PageToken(pages[i]) == [] || PageToken(pages[i]) in tokens
  }

  lemma {:induction false} GivenFrom(pages: seq<XmlNode>, n: nat, index: nat, tokens: set<Bytes>)
    requires n <= |pages| && TokensFrom(pages, tokens)
    ensures TokensGiven(pages, n, index) <= tokens - {[]}
  {
    hide PageToken, After;
    if n == 0 {
    } else {
      GivenFrom(pages, n - 1, index, tokens);
    }
  }

  /** The state in progress still has its next token to ask for; a later state has asked nothing. */
  lemma LastStateHasRoom(s: ScanState, requests: seq<Request>, given: seq<set<Bytes>>)
    requires TokensOk(s, requests, given) && !s.finished
    ensures |TokensAsked(requests, s.stateIndex)| <= |given[s.stateIndex]|
    ensures s.stateIndex == 0 ==> TokensAsked(requests, 1) == []
  {
    hide TokensAsked;
    var asked := TokensAsked(requests, s.stateIndex);
    DistinctPush(asked, s.nextToken);
    AskedBound(asked + [s.nextToken], given[s.stateIndex]);
    if s.stateIndex == 0 {
      NothingAsked(requests, 1);
    }
  }

  /** Against a server drawing its tokens from a finite set the scan finishes. */
  lemma ScanFinishes(pages: seq<XmlNode>, n: nat, tokens: set<Bytes>)
    requires n <= |pages| && TokensFrom(pages, tokens)
    ensures !After(pages, n).finished ==> n < STATE_COUNT * (|tokens| + 1)
  {
    hide Distinct, Elements, TokensAsked, TokensGiven;
    RunKeepsTokens(pages, n);
    var s, requests := After(pages, n), Requests(pages, n);
    if !s.finished {
      AskedSplits(requests);
      GivenFrom(pages, n, 0, tokens);
      GivenFrom(pages, n, 1, tokens);
      SubsetSize(TokensGiven(pages, n, 0), tokens);
      SubsetSize(TokensGiven(pages, n, 1), tokens);
      AskedBound(TokensAsked(requests, 0), TokensGiven(pages, n, 0));
      AskedBound(TokensAsked(requests, 1), TokensGiven(pages, n, 1));
      LastStateHasRoom(s, requests, Given(pages, n));
    }
  }

  // ---------- what a run returns ----------

  function KeysOf(rows: seq<AlarmRow>): set<Bytes> {
    set i | 0 <= i < |rows| :: Key(rows[i])
  }

  /** The rows whose key no earlier row has. */
  function FirstByKey(rows: seq<AlarmRow>): seq<AlarmRow> {
    if rows == [] then []
    else
      var front := rows[..|rows| - 1];
      FirstByKey(front) + if Key(rows[|rows| - 1]) in KeysOf(front) then [] else [rows[|rows| - 1]]
  }

  lemma KeysOfPush(rows: seq<AlarmRow>, row: AlarmRow)
    ensures KeysOf(rows + [row]) == KeysOf(rows) + {Key(row)}
  {
    hide Key;
    assert forall k :: k in KeysOf(rows + [row]) ==> k in KeysOf(rows) + {Key(row)};
    assert (rows + [row])[|rows|] == row;
    forall i | 0 <= i < |rows| ensures Key(rows[i]) in KeysOf(rows + [row]) {
      assert (rows + [row])[i] == rows[i];
    }
  }

  lemma FirstByKeyPush(rows: seq<AlarmRow>, row: AlarmRow)
    ensures FirstByKey(rows + [row]) == FirstByKey(rows) + if Key(row) in KeysOf(rows) then [] else [row]
  {
    assert (rows + [row])[..|rows|] == rows;
  }

  lemma {:induction false} PushNewIsFirstByKey(done: seq<AlarmRow>, rows: seq<AlarmRow>)
    ensures PushNew(FirstByKey(done), KeysOf(done), rows) == (FirstByKey(done + rows), KeysOf(done + rows))
    decreases rows
  {
    hide Key, KeysOf, FirstByKey;
    if rows == [] {
      assert done + rows == done;
    } else {
      KeysOfPush(done, rows[0]);
      FirstByKeyPush(done, rows[0]);
      PushNewIsFirstByKey(done + [rows[0]], rows[1..]);
      assert done + [rows[0]] + rows[1..] == done + rows;
      if Key(rows[0]) in KeysOf(done) {
        assert KeysOf(done) + {Key(rows[0])} == KeysOf(done);
        assert FirstByKey(done) + [] == FirstByKey(done);
      }
    }
  }

  lemma NoRows()
    ensures FirstByKey([]) == [] && KeysOf([]) == {}
  {
  }

  /** The rows returned are the fetched rows with later repetitions of an alarm dropped. */
  lemma {:induction false} ScanIsFirstByKey(pages: seq<XmlNode>, n: nat)
    requires n <= |pages|
    ensures After(pages, n).pushed == FirstByKey(FetchedRows(pages, n))
    ensures After(pages, n).seen == KeysOf(FetchedRows(pages, n))
  {
    hide PushNew, KeysOf, FirstByKey, PageRows, Fetch, TokensOk;
    if n == 0 {
      NoRows();
    } else {
      ScanIsFirstByKey(pages, n - 1);
      var s := After(pages, n - 1);
      if s.finished {
        assert FetchedRows(pages, n) == FetchedRows(pages, n - 1);
      } else {
        RunKeepsTokens(pages, n - 1);
        StillRunning(s, pages[n - 1], Requests(pages, n - 1), Given(pages, n - 1));
        FetchPushes(s, pages[n - 1]);
        PushNewIsFirstByKey(FetchedRows(pages, n - 1), PageRows(pages[n - 1], StateName(s.stateIndex)));
      }
    }
  }

  /** Each alarm appears once, and every fetched alarm appears. */
  lemma {:induction false} FirstByKeyMeaning(rows: seq<AlarmRow>)
    ensures forall i, j | 0 <= i < j < |FirstByKey(rows)| :: Key(FirstByKey(rows)[i]) != Key(FirstByKey(rows)[j])
    ensures KeysOf(FirstByKey(rows)) == KeysOf(rows)
  {
    hide Key;
    if rows == [] {
    } else {
      var front, last := rows[..|rows| - 1], rows[|rows| - 1];
      FirstByKeyMeaning(front);
      assert front + [last] == rows;
      KeysOfPush(front, last);
      if Key(last) in KeysOf(front) {
        assert KeysOf(front) + {Key(last)} == KeysOf(front);
        assert FirstByKey(front) + [] == FirstByKey(front);
      } else {
        KeysOfPush(FirstByKey(front), last);
        forall i | 0 <= i < |FirstByKey(front)| ensures Key(FirstByKey(front)[i]) != Key(last) {
          assert Key(FirstByKey(front)[i]) in KeysOf(FirstByKey(front));
        }
      }
    }
  }

  /** Rows in the order ALARM, then INSUFFICIENT_DATA, and in no other state. */
  predicate AlarmsFirst(rows: seq<AlarmRow>) {
    && (forall i | 0 <= i < |rows| :: rows[i].status == ALARM || rows[i].status == INSUFFICIENT_DATA)
    && (forall i, j | 0 <= i < j < |rows| :: rows[i].status == INSUFFICIENT_DATA ==> rows[j].status == INSUFFICIENT_DATA)
  }

  predicate AllInState(rows: seq<AlarmRow>, state: Bytes) {
    forall i | 0 <= i < |rows| :: rows[i].status == state
  }

  lemma AlarmsFirstAppend(rows: seq<AlarmRow>, more: seq<AlarmRow>, state: Bytes)
    requires AlarmsFirst(rows) && AllInState(more, state)
    requires state == INSUFFICIENT_DATA || (state == ALARM && AllInState(rows, ALARM))
    ensures AlarmsFirst(rows + more)
    ensures state == ALARM ==> AllInState(rows + more, ALARM)
  {
  }

  lemma {:induction false} FirstByKeyKeepsOrder(rows: seq<AlarmRow>)
    requires AlarmsFirst(rows)
    ensures AlarmsFirst(FirstByKey(rows))
    ensures forall row | row in FirstByKey(rows) :: row in rows
  {
    hide Key, KeysOf;
    if rows == [] {
    } else {
      FirstByKeyKeepsOrder(rows[..|rows| - 1]);
      var kept := FirstByKey(rows[..|rows| - 1]);
      if exists i | 0 <= i < |kept| :: kept[i].status == INSUFFICIENT_DATA {
        var i :| 0 <= i < |kept| && kept[i].status == INSUFFICIENT_DATA;
        assert kept[i] in rows[..|rows| - 1];
      }
    }
  }

  lemma NothingFetched()
    ensures AlarmsFirst([]) && AllInState([], ALARM)
  {
  }

  lemma PageInState(page: XmlNode, state: Bytes)
    ensures AllInState(PageRows(page, state), state)
  {
    PageRowsWanted(page, state);
    hide PageRows;
  }

  lemma {:induction false} FetchedInOrder(pages: seq<XmlNode>, n: nat)
    requires n <= |pages|
    ensures AlarmsFirst(FetchedRows(pages, n))
    ensures After(pages, n).stateIndex == 0 ==> AllInState(FetchedRows(pages, n), ALARM)
  {
    hide PushNew, PageRows, AlarmsFirst, AllInState, Fetch, TokensOk;
    if n == 0 {
      NothingFetched();
    } else {
      FetchedInOrder(pages, n - 1);
      var s := After(pages, n - 1);
      if s.finished {
        assert FetchedRows(pages, n) == FetchedRows(pages, n - 1);
      } else {
        RunKeepsTokens(pages, n - 1);
        StillRunning(s, pages[n - 1], Requests(pages, n - 1), Given(pages, n - 1));
        FetchPushes(s, pages[n - 1]);
        PageInState(pages[n - 1], StateName(s.stateIndex));
        AlarmsFirstAppend(FetchedRows(pages, n - 1), PageRows(pages[n - 1], StateName(s.stateIndex)), StateName(s.stateIndex));
      }
    }
  }

  /** The rows returned: every fetched alarm once, ALARM before INSUFFICIENT_DATA. */
  lemma ScanReturns(pages: seq<XmlNode>, n: nat)
    requires n <= |pages|
    ensures var rows := After(pages, n).pushed;
            && rows == FirstByKey(FetchedRows(pages, n))
            && AlarmsFirst(rows)
            && (forall i, j | 0 <= i < j < |rows| :: Key(rows[i]) != Key(rows[j]))
            && KeysOf(rows) == KeysOf(FetchedRows(pages, n))
  {
    hide After, FirstByKey, KeysOf, Key, FetchedRows, AlarmsFirst;
    ScanIsFirstByKey(pages, n);
    FirstByKeyMeaning(FetchedRows(pages, n));
    FetchedInOrder(pages, n);
    FirstByKeyKeepsOrder(FetchedRows(pages, n));
  }

  // ---------- the scan ----------

  const STANDARD_VECTOR_SIZE: nat := 2048

  predicate TokensFromReplies(replies: seq<Option<XmlNode>>, tokens: set<Bytes>) {
    forall i | 0 <= i < |replies| :: replies[i].Some? ==> PageToken(replies[i].value) == [] || PageToken(replies[i].value) in tokens
  }

  lemma Finite(replies: seq<Option<XmlNode>>, n: nat, tokens: set<Bytes>)
    requires n <= |replies| && forall i | 0 <= i < n :: replies[i].Some?
    requires TokensFromReplies(replies, tokens) && |replies| >= STATE_COUNT * (|tokens| + 1)
    ensures !After(Pages(replies[..n]), n).finished ==> n < |replies|
  {
    hide PageToken, After;
    ScanFinishes(Pages(replies[..n]), n, tokens);
  }

  /** A run depends only on the replies it has had. */
  lemma {:induction false} AfterPrefix(a: seq<XmlNode>, b: seq<XmlNode>, n: nat)
    requires n <= |a| && n <= |b| && a[..n] == b[..n]
    ensures After(a, n) == After(b, n)
  {
    hide Fetch;
    if n == 0 {
    } else {
      assert a[..n - 1] == a[..n][..n - 1] && b[..n - 1] == b[..n][..n - 1];
      AfterPrefix(a, b, n - 1);
      assert a[n - 1] == a[..n][n - 1] && b[n - 1] == b[..n][n - 1];
    }
  }

  lemma AfterMore(replies: seq<Option<XmlNode>>, n: nat)
    requires n < |replies| && forall i | 0 <= i <= n :: replies[i].Some?
    ensures var s := After(Pages(replies[..n]), n);
            After(Pages(replies[..n + 1]), n + 1) == if s.finished then s else Fetch(s, replies[n].value)
  {
    hide Fetch;
    assert Pages(replies[..n + 1])[..n] == Pages(replies[..n])[..n];
    AfterPrefix(Pages(replies[..n + 1]), Pages(replies[..n]), n);
  }

  /** replies are the pages DescribeAlarms answers with, in turn; None stands for a request or a parse that throws. */
  class AlertsScanState {
    const replies: seq<Option<XmlNode>>
    var buffer: seq<AlarmRow>
    var nextToken: Bytes
    var stateIndex: nat
    var finished: bool
    var seen: set<Bytes>
    var seenPageTokens: set<Bytes>
    var fetched: nat
    ghost var emitted: seq<AlarmRow>

    constructor (replies: seq<Option<XmlNode>>)
      ensures this.replies == replies && Follows() && fetched == 0 && emitted == []
    {
      this.replies := replies;
      buffer, nextToken, stateIndex, finished, seen, seenPageTokens, fetched, emitted := [], [], 0, false, {}, {}, 0, [];
      new;
      assert State() == INITIAL;
    }

    ghost function State(): ScanState
      reads this
    {
      ScanState(emitted + buffer, nextToken, stateIndex, finished, seen, seenPageTokens)
    }

    /** All replies so far arrived, and the fields are what a run over them leaves. */
    ghost predicate Follows()
      reads this
    {
      && fetched <= |replies|
      && (forall i | 0 <= i < fetched :: replies[i].Some?)
      && State() == After(Pages(replies[..fetched]), fetched)
    }

    /** One fetch; a failed one leaves the state as it was. */
    method FetchAlarmsPage() returns (ok: bool)
      requires Follows() && !finished && fetched < |replies|
      modifies this
      ensures ok == old(replies[fetched].Some?)
      ensures Follows() && emitted == old(emitted)
      ensures ok ==> fetched == old(fetched) + 1
      ensures !ok ==> fetched == old(fetched) && State() == old(State()) && buffer == old(buffer) && finished == old(finished)
    {
      hide PageRows, PageToken, Key, PushNew, After, TokensOk, Requests, Given;
      var reply := replies[fetched];
      if reply.None? {
        return false;
      }
      RunKeepsTokens(Pages(replies[..fetched]), fetched);
      AfterMore(replies, fetched);
      StillRunning(State(), reply.value, Requests(Pages(replies[..fetched]), fetched), Given(Pages(replies[..fetched]), fetched));
      var rows := PageRows(reply.value, StateName(stateIndex));
      var next := PageToken(reply.value);
      ghost var before := State();
      fetched := fetched + 1;
      PushRows(rows);
      if next == [] || next in seenPageTokens {
        stateIndex := stateIndex + 1;
        nextToken := [];
        seenPageTokens := {};
        if stateIndex >= STATE_COUNT {
          finished := true;
        }
      } else {
        seenPageTokens := seenPageTokens + {next};
        nextToken := next;
      }
      assert State() == Fetch(before, reply.value);
      return true;
    }

    /** The loop that puts rows with a new key into the buffer. */
    method PushRows(rows: seq<AlarmRow>)
      modifies this`buffer, this`seen
      ensures (emitted + buffer, seen) == PushNew(old(emitted + buffer), old(seen), rows)
    {
      hide Key;
      var i := 0;
      assert rows[0..] == rows;
      while i < |rows|
        invariant i <= |rows|
        invariant PushNew(emitted + buffer, seen, rows[i..]) == PushNew(old(emitted + buffer), old(seen), rows)
      {
        assert rows[i..][1..] == rows[i + 1..];
        var key := Key(rows[i]);
        if key !in seen {
          assert emitted + (buffer + [rows[i]]) == emitted + buffer + [rows[i]];
          seen := seen + {key};
          buffer := buffer + [rows[i]];
        }
        i := i + 1;
      }
    }

    /**
     * One chunk: fetch until there are rows or no more states, then hand out up to a vector of them.
     * An empty chunk that did not fail means the scan is complete.
     */
    method AlertsScan(ghost tokens: set<Bytes>) returns (chunk: seq<AlarmRow>, ok: bool)
      requires Follows() && TokensFromReplies(replies, tokens) && |replies| >= STATE_COUNT * (|tokens| + 1)
      modifies this
      ensures Follows()
      ensures ok ==> emitted == old(emitted) + chunk && |chunk| <= STANDARD_VECTOR_SIZE
      ensures ok && chunk == [] ==> finished && emitted == State().pushed
      ensures !ok ==> chunk == [] && emitted == old(emitted) && fetched < |replies| && replies[fetched].None?
    {
      hide TokensFromReplies, After;
      while |buffer| == 0 && !finished
        invariant Follows() && emitted == old(emitted)
        decreases |replies| - fetched, !finished
      {
        Finite(replies, fetched, tokens);
        var arrived := FetchAlarmsPage();
        if !arrived {
          return [], false;
        }
      }
      var count := if |buffer| < STANDARD_VECTOR_SIZE then |buffer| else STANDARD_VECTOR_SIZE;
      chunk := buffer[..count];
      assert emitted + buffer == emitted + buffer[..count] + buffer[count..];
      buffer := buffer[count..];
      emitted := emitted + chunk;
      ok := true;
      assert State() == After(Pages(replies[..fetched]), fetched);
    }
  }
}
