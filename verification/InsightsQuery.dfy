/**
 * Starting, polling and stopping a Logs Insights query (src/logs_insights.cpp): which runs send
 * the request that stops the query, how long they poll, and how often a query is started.
 */
module InsightsQuery {
  import opened Strings
  import opened Transport
  import opened Insights

  datatype Status = SCHEDULED | RUNNING | COMPLETE | FAILED | CANCELLED | TIMEOUT | UNKNOWN

  function ParseInsightsStatus(text: Bytes): Status {
    if text == "Scheduled" then SCHEDULED
    else if text == "Running" then RUNNING
    else if text == "Complete" then COMPLETE
    else if text == "Failed" then FAILED
    else if text == "Cancelled" then CANCELLED
    else if text == "Timeout" then TIMEOUT
    else UNKNOWN
  }

  predicate IsCloudwatchInsightsTerminal(status: Status) {
    !status.SCHEDULED? && !status.RUNNING?
  }

  datatype Reply = Reply(statusText: Bytes, rows: seq<Row>)

  /** How a body of GetQueryResults reads; None when the client refuses it. */
  type ReplyReader = Bytes -> Option<Reply>

  /**
   * What one turn of the polling loop meets: the interrupt flag at its head, the sends of
   * GetQueryResults, the clock, an interrupt while sleeping, and the sends of StopQuery if it comes to that.
   */
  datatype Poll = Poll(interrupted: bool, get: Script, now: int, sleepInterrupted: bool, stop: Script)

  datatype Ending =
    | Completed(rows: seq<Row>)         // the only one that returns
    | Ended(statusText: Bytes)          // the service gave the query up
    | TimedOut
    | PollFailed(failure: PostResult)   // GetQueryResults threw; an interrupt at the head counts as one
    | Malformed
    | SleepInterrupted

  /** stop is the call of StopQuery, if there was one. */
  datatype QueryRun = QueryRun(ending: Ending, polls: nat, stop: Option<PostRun>)

  const READ_POLICY := RetryPolicy(true, false)

  const START_POLICY := RetryPolicy(false, true)

  // ---------- the loop ----------

  /** How one turn ends the query, or None when it goes on to poll again. */
  function EndingOf(read: ReplyReader, retries: nat, deadline: int, poll: Poll): (r: Option<Ending>)
    requires retries + 2 <= |poll.get|
    ensures poll.now >= deadline ==> r.Some? && !r.value.SleepInterrupted?
  {
    var result := if poll.interrupted then Interrupted else Post(READ_POLICY, retries, false, poll.get).result;
    if !result.Delivered? then Some(PollFailed(result))
    else match read(result.body)
      case None => Some(Malformed)
      case Some(reply) =>
        var status := ParseInsightsStatus(reply.statusText);
        if status.COMPLETE? then Some(Completed(reply.rows))
        else if IsCloudwatchInsightsTerminal(status) then Some(Ended(reply.statusText))
        else if poll.now >= deadline then Some(TimedOut)
        else if poll.sleepInterrupted then Some(SleepInterrupted)
        else None
  }

  /**
   * A readable reply returns its rows when Complete, is polled again only while Scheduled or Running, and ends the
   * query with any other status, known or not.
   */
  lemma StatusDecides(read: ReplyReader, retries: nat, deadline: int, poll: Poll, body: Bytes, reply: Reply)
    requires retries + 2 <= |poll.get| && !poll.interrupted
    requires Post(READ_POLICY, retries, false, poll.get).result == Delivered(body) && read(body) == Some(reply)
    ensures var ending, running := EndingOf(read, retries, deadline, poll), reply.statusText == "Scheduled" || reply.statusText == "Running";
            && (ending == Some(Completed(reply.rows)) <==> reply.statusText == "Complete")
            && (ending == Some(Ended(reply.statusText)) <==> reply.statusText != "Complete" && !running)
            && (ending == Some(TimedOut) <==> running && poll.now >= deadline)
            && (ending == Some(SleepInterrupted) <==> running && poll.now < deadline && poll.sleepInterrupted)
            && (ending == None <==> running && poll.now < deadline && !poll.sleepInterrupted)
  {
    hide Post;
  }

  /** The endings that call StopQuery first. */
  predicate CallsStop(ending: Ending) {
    ending.TimedOut? || ending.PollFailed? || ending.Malformed?
  }

  /** Every turn's scripts reach far enough, and the clock passes the deadline in the last one. */
  predicate Enough(retries: nat, deadline: int, polls: seq<Poll>) {
    && polls != []
    && polls[|polls| - 1].now >= deadline
    && forall k | 0 <= k < |polls| :: retries + 2 <= |polls[k].get| && retries + 2 <= |polls[k].stop|
  }

  /** The run of the loop over these turns: the first one that ends the query decides. */
  ghost predicate IsRun(read: ReplyReader, retries: nat, deadline: int, polls: seq<Poll>, run: QueryRun)
    requires Enough(retries, deadline, polls)
  {
    && 0 < run.polls <= |polls|
    && (forall k | 0 <= k < run.polls - 1 :: EndingOf(read, retries, deadline, polls[k]).None?)
    && EndingOf(read, retries, deadline, polls[run.polls - 1]) == Some(run.ending)
    && run.stop == if CallsStop(run.ending) then Some(Post(READ_POLICY, retries, false, polls[run.polls - 1].stop)) else None
  }

  /** RunInsightsQuery once the query is started. */
  method RunInsightsQuery(client: CloudwatchClient, read: ReplyReader, startedMs: int, maxWaitMs: int, polls: seq<Poll>) returns (run: QueryRun)
    requires Enough(client.retries, startedMs + maxWaitMs, polls)
    modifies client
    ensures IsRun(read, client.retries, startedMs + maxWaitMs, polls, run)
  {
    hide Post, ParseInsightsStatus;
    var deadline := startedMs + maxWaitMs;
    var i := 0;
    while true
      invariant 0 <= i < |polls|
      invariant forall k | 0 <= k < i :: EndingOf(read, client.retries, deadline, polls[k]).None?
      decreases |polls| - i
    {
      var poll := polls[i];
      var result := Interrupted;
      if !poll.interrupted {
        var get := client.PostInternal(READ_POLICY, false, poll.get);
        result := get.result;
      }
      var reply := if result.Delivered? then read(result.body) else None;
      if reply.None? {
        var stop := client.PostInternal(READ_POLICY, false, poll.stop);
        return QueryRun(if result.Delivered? then Malformed else PollFailed(result), i + 1, Some(stop));
      }
      var status := ParseInsightsStatus(reply.value.statusText);
      if status == COMPLETE {
        return QueryRun(Completed(reply.value.rows), i + 1, None);
      }
      if IsCloudwatchInsightsTerminal(status) {
        return QueryRun(Ended(reply.value.statusText), i + 1, None);
      }
      if poll.now >= deadline {
        var stop := client.PostInternal(READ_POLICY, false, poll.stop);
        return QueryRun(TimedOut, i + 1, Some(stop));
      }
      if poll.sleepInterrupted {
        return QueryRun(SleepInterrupted, i + 1, None);
      }
      i := i + 1;
    }
  }

  // ---------- how long it polls ----------

  /** The clock starts no earlier than the query, and every sleep moves it on by the polling interval. */
  predicate ClockAdvances(startedMs: int, intervalMs: nat, polls: seq<Poll>) {
    && (polls != [] ==> startedMs <= polls[0].now)
    && forall k | 0 < k < |polls| :: polls[k - 1].now + intervalMs <= polls[k].now
  }

  lemma {:induction false} ClockAt(startedMs: int, intervalMs: nat, polls: seq<Poll>, k: nat)
    requires ClockAdvances(startedMs, intervalMs, polls) && k < |polls|
    ensures startedMs + k * intervalMs <= polls[k].now
  {
    if k == 0 {
    } else {
      ClockAt(startedMs, intervalMs, polls, k - 1);
      assert k * intervalMs == (k - 1) * intervalMs + intervalMs;
    }
  }

  /** No poll is made after the one that finds the deadline passed. */
  lemma PollsBounded(read: ReplyReader, retries: nat, startedMs: int, maxWaitMs: nat, intervalMs: nat, polls: seq<Poll>, run: QueryRun)
    requires Enough(retries, startedMs + maxWaitMs, polls) && ClockAdvances(startedMs, intervalMs, polls)
    requires IsRun(read, retries, startedMs + maxWaitMs, polls, run)
    ensures run.polls == 1 || (run.polls - 2) * intervalMs < maxWaitMs
  {
    hide Post, ClockAdvances;
    if run.polls > 1 {
      ClockAt(startedMs, intervalMs, polls, run.polls - 2);
      assert EndingOf(read, retries, startedMs + maxWaitMs, polls[run.polls - 2]).None?;
    }
  }

  // ---------- which abandoned queries are stopped ----------

  /** The client leaves while the service may still be scanning. */
  predicate Abandoned(ending: Ending) {
    !ending.Completed? && !ending.Ended?
  }

  predicate StopSent(run: QueryRun) {
    run.stop.Some? && run.stop.value.sends > 0
  }

  predicate LookedInterrupted(turn: Turn) {
    turn.interrupted || turn.sleepInterrupted
  }

  /**
   * The flag stays set until the next query of the connection: where any look of a turn of the
   * loop finds it set, StopQuery's first look, which comes after all of them, does too.
   */
  predicate FlagStays(poll: Poll)
    requires poll.stop != []
  {
    poll.interrupted || poll.sleepInterrupted || (exists k | 0 <= k < |poll.get| :: LookedInterrupted(poll.get[k])) ==>
      poll.stop[0].interrupted
  }

  lemma IterateInterrupted(policy: RetryPolicy, retries: nat, captureErrors: bool, turn: Turn, attempt: nat, refreshed: bool)
    ensures var next := Iterate(policy, retries, captureErrors, turn, attempt, refreshed);
            next.Stop? && next.run.result == Interrupted ==> LookedInterrupted(turn)
  {
    hide Contains, RetryDelay;
  }

  /** A call ends interrupted only where one of its looks found the flag set. */
  lemma {:induction false} InterruptSeen(policy: RetryPolicy, retries: nat, captureErrors: bool, script: Script, attempt: nat, refreshed: bool)
    requires InReach(retries, script, attempt, refreshed)
    requires Run(policy, retries, captureErrors, script, attempt, refreshed).result == Interrupted
    ensures exists k | 0 <= k < |script| :: LookedInterrupted(script[k])
    decreases if refreshed then 0 else 1, if attempt < retries then retries - attempt else 0
  {
    hide Iterate, LookedInterrupted;
    var next := Iterate(policy, retries, captureErrors, script[attempt], attempt, refreshed);
    IterateInterrupted(policy, retries, captureErrors, script[attempt], attempt, refreshed);
    if next.Again? {
      InterruptSeen(policy, retries, captureErrors, script, attempt + 1, refreshed || next.refresh != []);
    } else {
      assert LookedInterrupted(script[attempt]);
    }
  }

  /** A call sends nothing exactly when it meets the flag at its first attempt. */
  lemma NothingSentExactly(policy: RetryPolicy, retries: nat, captureErrors: bool, script: Script)
    requires retries + 2 <= |script|
    ensures Post(policy, retries, captureErrors, script).sends == 0 <==> script[0].interrupted
    ensures script[0].interrupted ==> Post(policy, retries, captureErrors, script).result == Interrupted
  {
    hide Run, Contains, RetryDelay;
    RunUnfolds(policy, retries, captureErrors, script, 0, false);
    StopCosts(policy, retries, captureErrors, script[0], 0, false);
  }

  /** A turn that ends by an interrupt leaves the flag set for StopQuery. */
  lemma InterruptedEndingSeen(read: ReplyReader, retries: nat, deadline: int, poll: Poll)
    requires retries + 2 <= |poll.get| && poll.stop != [] && FlagStays(poll)
    requires EndingOf(read, retries, deadline, poll) in {Some(SleepInterrupted), Some(PollFailed(Interrupted))}
    ensures poll.stop[0].interrupted
  {
    hide Run;
    if !poll.interrupted && !poll.sleepInterrupted {
      InterruptSeen(READ_POLICY, retries, false, poll.get, 0, false);
    }
  }

  /**
   * An abandoned query is sent its stop request exactly when the interrupt flag is clear by then;
   * no other query is. Hence none that was given up because of an interrupt is: StopQuery
   * looks at the same flag before its first send, and an interrupt during the sleep skips the call.
   */
  lemma AbandonedIsStopped(read: ReplyReader, retries: nat, deadline: int, polls: seq<Poll>, run: QueryRun)
    requires Enough(retries, deadline, polls) && IsRun(read, retries, deadline, polls, run)
    requires FlagStays(polls[run.polls - 1])
    ensures StopSent(run) ==> Abandoned(run.ending)
    ensures Abandoned(run.ending) ==> (StopSent(run) <==> !polls[run.polls - 1].stop[0].interrupted)
    ensures run.ending in {SleepInterrupted, PollFailed(Interrupted)} ==> !StopSent(run)
  {
    hide Post, FlagStays;
    var poll := polls[run.polls - 1];
    NothingSentExactly(READ_POLICY, retries, false, poll.stop);
    if run.ending in {SleepInterrupted, PollFailed(Interrupted)} {
      InterruptedEndingSeen(read, retries, deadline, poll);
    }
  }

  /** A query interrupted before its first poll: the loop calls StopQuery, which sends nothing. */
  lemma InterruptedQueryRunsOn(read: ReplyReader, retries: nat, deadline: int, poll: Poll)
    requires Enough(retries, deadline, [poll]) && poll.interrupted && FlagStays(poll)
    ensures var run := QueryRun(PollFailed(Interrupted), 1, Some(Post(READ_POLICY, retries, false, poll.stop)));
            IsRun(read, retries, deadline, [poll], run) && Abandoned(run.ending) && !StopSent(run)
  {
    hide Post;
    NothingSentExactly(READ_POLICY, retries, false, poll.stop);
  }

  // ---------- how often a query is started ----------

  /** The answer says the account is at its limit of concurrent queries. */
  predicate LimitReached(outcome: Outcome) {
    outcome.Response? && !IsSuccess(outcome.status) && Contains(outcome.body, "LimitExceededException")
  }

  /** The remote starts no query with an answer that turns the request away, the limit included. */
  ghost predicate RefusalsStartNothing(script: Script) {
    && RejectionsStoreNothing(script)
    && forall k | 0 <= k < |script| && LimitReached(script[k].outcome) :: script[k].stored == {}
  }

  lemma StartRetriesOnlyRefused(retries: nat, captureErrors: bool, turn: Turn, attempt: nat, refreshed: bool)
    ensures match Iterate(START_POLICY, retries, captureErrors, turn, attempt, refreshed)
            case Stop(run) => run.sends <= 1
            case Again(_, _) => DefinitelyRejected(turn.outcome) || LimitReached(turn.outcome)
  {
    hide Contains, RetryDelay;
  }

  lemma {:induction false} StartedByLast(retries: nat, captureErrors: bool, script: Script, attempt: nat, refreshed: bool)
    requires InReach(retries, script, attempt, refreshed) && RefusalsStartNothing(script)
    ensures var sends := Run(START_POLICY, retries, captureErrors, script, attempt, refreshed).sends;
            forall k | attempt <= k < attempt + sends - 1 :: script[k].stored == {}
    decreases if refreshed then 0 else 1, if attempt < retries then retries - attempt else 0
  {
    hide Iterate, DefinitelyRejected, LimitReached;
    var next := Iterate(START_POLICY, retries, captureErrors, script[attempt], attempt, refreshed);
    StartRetriesOnlyRefused(retries, captureErrors, script[attempt], attempt, refreshed);
    if next.Stop? {
    } else {
      StartedByLast(retries, captureErrors, script, attempt + 1, refreshed || next.refresh != []);
    }
  }

  lemma {:induction false} NothingStarted(script: Script, n: nat, i: nat)
    requires n <= |script| && forall k | 0 <= k < n :: script[k].stored == {}
    ensures TimesStored(script, n, i) == 0
  {
    if n == 0 {
    } else {
      NothingStarted(script, n - 1, i);
    }
  }

  /**
   * StartQuery starts a query at most once where the limit answer starts none. Without that
   * promise it may start two (Transport.AtMostOnceExactly): this call retries on the limit.
   */
  lemma StartedAtMostOnce(retries: nat, captureErrors: bool, script: Script, i: nat)
    requires retries + 2 <= |script| && RefusalsStartNothing(script)
    ensures TimesStored(script, Post(START_POLICY, retries, captureErrors, script).sends, i) <= 1
  {
    var sends := Post(START_POLICY, retries, captureErrors, script).sends;
    StartedByLast(retries, captureErrors, script, 0, false);
    if sends > 0 {
      NothingStarted(script, sends - 1, i);
    }
  }
}
