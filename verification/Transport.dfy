/**
 * CloudwatchClient::PostInternal (src/cloudwatch_client.cpp): the retry state machine
 * behind every request, driven by an arbitrary script of what each send meets.
 */
module Transport {
  import opened Strings

  /** The transport errors the retry predicates name; every other one is OtherError. */
  datatype TransportError =
    | Connection
    | ConnectionTimeout
    | BindIPAddress
    | ProxyConnection
    | SSLLoadingCerts
    | SSLServerVerification
    | SSLServerHostnameVerification
    | OtherError(code: int)

  datatype Outcome = NoResponse(error: TransportError) | Response(status: int, body: Bytes)

  datatype Credentials = Credentials(accessKey: Bytes, securityToken: Bytes)

  datatype RetryPolicy = RetryPolicy(idempotent: bool, retryOnLimitExceeded: bool)

  /**
   * Everything one loop iteration may meet: an interrupt before the send, the outcome of
   * the send, the answer of the secret store, an interrupt while sleeping; and which items
   * of the request the remote had stored when the outcome arrived.
   */
  datatype Turn = Turn(
    interrupted: bool,
    outcome: Outcome,
    refresh: Option<Credentials>,
    sleepInterrupted: bool,
    stored: set<nat>)

  /** What the successive iterations of one call meet; retries + 2 turns are always enough. */
  type Script = seq<Turn>

  datatype PostResult =
    | Delivered(body: Bytes)
    | Reported(status: int, body: Bytes)          // non-2xx, handed to the caller's error buffer
    | HttpFailure(status: int, body: Bytes)       // non-2xx, thrown
    | TransportFailure(error: TransportError)     // thrown
    | RefreshFailure                              // thrown by the secret lookup
    | Interrupted                                 // thrown

  /** The result together with what it took: sends, the credentials looked up anew, and planned sleep in seconds. */
  datatype PostRun = PostRun(result: PostResult, sends: nat, refreshes: seq<Credentials>, delay: nat)

  // ---------- retry predicates ----------

  predicate IsSuccess(status: int) {
    200 <= status < 300
  }

  predicate IsRetryableStatus(status: int, body: Bytes) {
    status == 429 || status >= 500 || Contains(body, "Throttling") || Contains(body, "ServiceUnavailable")
  }

  predicate IsDefinitelyRejectedThrottle(status: int, body: Bytes) {
    status == 429 || Contains(body, "Throttling")
  }

  predicate IsExpiredCredentials(status: int, body: Bytes) {
    || status == 401
    || status == 403
    || (status == 400 && (Contains(body, "ExpiredToken") || Contains(body, "RequestExpired")))
  }

  predicate IsRetryableTransportError(error: TransportError) {
    !error.SSLLoadingCerts? && !error.SSLServerVerification? && !error.SSLServerHostnameVerification?
  }

  predicate IsPreSendTransportError(error: TransportError) {
    error.Connection? || error.ConnectionTimeout? || error.BindIPAddress? || error.ProxyConnection?
  }

  predicate RetryableResponse(policy: RetryPolicy, status: int, body: Bytes) {
    || (policy.retryOnLimitExceeded && Contains(body, "LimitExceededException"))
    || (if policy.idempotent then IsRetryableStatus(status, body) else IsDefinitelyRejectedThrottle(status, body))
  }

  predicate RetryableError(policy: RetryPolicy, error: TransportError) {
    if policy.idempotent then IsRetryableTransportError(error) else IsPreSendTransportError(error)
  }

  function Pow2(n: nat): nat {
    if n == 0 then 1 else 2 * Pow2(n - 1)
  }

  function Min(a: nat, b: nat): nat {
    if a <= b then a else b
  }

  /** Seconds to sleep after attempt number attempt. */
  function RetryDelay(attempt: nat): nat {
    Min(Pow2(Min(attempt, 6)), 60)
  }

  // ---------- what one call does ----------

  datatype Verdict = Succeed(body: Bytes) | Refresh | Backoff | Fail(failure: PostResult)

  /** How the loop body reacts to one outcome. */
  function Judge(policy: RetryPolicy, retries: nat, captureErrors: bool, outcome: Outcome, attempt: nat, refreshed: bool): (v: Verdict)
    ensures v.Refresh? ==> !refreshed
    ensures v.Backoff? ==> attempt < retries
  {
    match outcome
    case NoResponse(error) =>
      if attempt >= retries || !RetryableError(policy, error) then Fail(TransportFailure(error)) else Backoff
    case Response(status, body) =>
      if IsSuccess(status) then Succeed(body)
      else if IsExpiredCredentials(status, body) && !refreshed then Refresh
      else if attempt >= retries || !RetryableResponse(policy, status, body) then
        Fail(if captureErrors then Reported(status, body) else HttpFailure(status, body))
      else Backoff
  }

  /** One iteration either ends the call or goes round again. */
  datatype Next = Stop(run: PostRun) | Again(refresh: seq<Credentials>, delay: nat)

  function Iterate(policy: RetryPolicy, retries: nat, captureErrors: bool, turn: Turn, attempt: nat, refreshed: bool): (next: Next)
    ensures next.Again? ==> if next.refresh == [] then attempt < retries else !refreshed
  {
    if turn.interrupted then Stop(PostRun(Interrupted, 0, [], 0))
    else match Judge(policy, retries, captureErrors, turn.outcome, attempt, refreshed)
      case Succeed(body) => Stop(PostRun(Delivered(body), 1, [], 0))
      case Fail(failure) => Stop(PostRun(failure, 1, [], 0))
      case Refresh =>
        if turn.refresh.None? then Stop(PostRun(RefreshFailure, 1, [], 0)) else Again([turn.refresh.value], 0)
      case Backoff =>
        if turn.sleepInterrupted then Stop(PostRun(Interrupted, 1, [], RetryDelay(attempt))) else Again([], RetryDelay(attempt))
  }

  /** run, preceded by what earlier iterations cost. */
  function AddCost(sends: nat, refreshes: seq<Credentials>, delay: nat, run: PostRun): PostRun {
    PostRun(run.result, sends + run.sends, refreshes + run.refreshes, delay + run.delay)
  }

  lemma AddNoCost(run: PostRun)
    ensures AddCost(0, [], 0, run) == run
  {
  }

  lemma AddCostComposes(sends: nat, refreshes: seq<Credentials>, delay: nat, refresh: seq<Credentials>, pause: nat, run: PostRun)
    ensures AddCost(sends, refreshes, delay, AddCost(1, refresh, pause, run)) == AddCost(sends + 1, refreshes + refresh, delay + pause, run)
    ensures run.refreshes == [] ==> AddCost(sends, refreshes, delay, run) == PostRun(run.result, sends + run.sends, refreshes, delay + run.delay)
  {
  }

  predicate InReach(retries: nat, script: Script, attempt: nat, refreshed: bool) {
    retries + 2 <= |script| && attempt <= retries + (if refreshed then 1 else 0)
  }

  /** The whole call from iteration attempt on. */
  function Run(policy: RetryPolicy, retries: nat, captureErrors: bool, script: Script, attempt: nat, refreshed: bool): (run: PostRun)
    requires InReach(retries, script, attempt, refreshed)
    ensures attempt + run.sends <= |script|
    decreases if refreshed then 0 else 1, if attempt < retries then retries - attempt else 0
  {
    match Iterate(policy, retries, captureErrors, script[attempt], attempt, refreshed)
    case Stop(run) => run
    case Again(refresh, delay) =>
      AddCost(1, refresh, delay, Run(policy, retries, captureErrors, script, attempt + 1, refreshed || refresh != []))
  }

  lemma RunUnfolds(policy: RetryPolicy, retries: nat, captureErrors: bool, script: Script, attempt: nat, refreshed: bool)
    requires InReach(retries, script, attempt, refreshed)
    ensures Run(policy, retries, captureErrors, script, attempt, refreshed) ==
            match Iterate(policy, retries, captureErrors, script[attempt], attempt, refreshed)
            case Stop(run) => run
            case Again(refresh, delay) =>
              AddCost(1, refresh, delay, Run(policy, retries, captureErrors, script, attempt + 1, refreshed || refresh != []))
  {
  }

  /** One call of Post or TryPostLogs. */
  function Post(policy: RetryPolicy, retries: nat, captureErrors: bool, script: Script): (run: PostRun)
    requires retries + 2 <= |script|
    ensures run.sends <= |script|
  {
    Run(policy, retries, captureErrors, script, 0, false)
  }

  // ---------- bounds ----------

  /** Closed form of the total sleep of n consecutive backoffs. */
  function DelayBound(n: nat): int {
    if n <= 6 then Pow2(n) - 1 else 63 + 60 * (n - 6)
  }

  lemma {:induction false} DelayBoundStep(n: nat)
    ensures DelayBound(n + 1) == DelayBound(n) + RetryDelay(n)
  {
    if n >= 6 {
      assert Pow2(6) == 64 by {
        assert Pow2(3) == 8;
        assert Pow2(6) == 8 * Pow2(3);
      }
    } else {
      assert Pow2(n) <= 60 by {
        assert Pow2(2) == 4 && Pow2(4) == 16;
      }
    }
  }

  lemma StopCosts(policy: RetryPolicy, retries: nat, captureErrors: bool, turn: Turn, attempt: nat, refreshed: bool)
    ensures match Iterate(policy, retries, captureErrors, turn, attempt, refreshed)
            case Stop(run) => run.refreshes == [] && run.sends == if turn.interrupted then 0 else 1
            case Again(refresh, _) => !turn.interrupted && |refresh| <= 1
  {
    hide RetryDelay, Contains;
  }

  lemma IterateCosts(policy: RetryPolicy, retries: nat, captureErrors: bool, turn: Turn, attempt: nat, refreshed: bool)
    ensures match Iterate(policy, retries, captureErrors, turn, attempt, refreshed)
            case Stop(run) => run.sends <= 1 && run.refreshes == [] && run.delay <= (if attempt < retries then RetryDelay(attempt) else 0)
            case Again(refresh, delay) => |refresh| <= 1 && delay == if refresh == [] then RetryDelay(attempt) else 0
  {
    hide RetryDelay;
  }

  lemma {:induction false} DelayMonotone(m: nat, n: nat)
    ensures m <= n ==> DelayBound(m) <= DelayBound(n)
    decreases n
  {
    if m >= n {
    } else {
      DelayMonotone(m, n - 1);
      DelayBoundStep(n - 1);
    }
  }

  lemma {:induction false} RunBounds(policy: RetryPolicy, retries: nat, captureErrors: bool, script: Script, attempt: nat, refreshed: bool)
    requires InReach(retries, script, attempt, refreshed)
    ensures var run := Run(policy, retries, captureErrors, script, attempt, refreshed);
            && run.sends <= retries + 1 - attempt + (if refreshed then (if attempt > retries then 1 else 0) else 1)
            && |run.refreshes| <= (if refreshed then 0 else 1)
            && run.delay <= (if attempt <= retries then DelayBound(retries) - DelayBound(attempt) else 0)
    decreases if refreshed then 0 else 1, if attempt < retries then retries - attempt else 0
  {
    hide Iterate, RetryDelay, DelayBound;
    var next := Iterate(policy, retries, captureErrors, script[attempt], attempt, refreshed);
    IterateCosts(policy, retries, captureErrors, script[attempt], attempt, refreshed);
    DelayMonotone(attempt, retries);
    DelayMonotone(attempt + 1, retries);
    DelayBoundStep(attempt);
    if next.Stop? {
    } else {
      RunBounds(policy, retries, captureErrors, script, attempt + 1, refreshed || next.refresh != []);
    }
  }

  /** Whatever the remote does: at most retries + 2 sends, one refresh, and DelayBound(retries) seconds of sleep. */
  lemma PostBounds(policy: RetryPolicy, retries: nat, captureErrors: bool, script: Script)
    requires retries + 2 <= |script|
    ensures var run := Post(policy, retries, captureErrors, script);
            run.sends <= retries + 2 && |run.refreshes| <= 1 && run.delay <= DelayBound(retries)
  {
    RunBounds(policy, retries, captureErrors, script, 0, false);
  }

  /** The remote that throttles every request until attempt number retries, then rejects the credentials. */
  function WorstCase(retries: nat, credentials: Credentials): Script {
    seq(retries + 2, k => Turn(false, Response(if k == retries then 401 else 429, []), Some(credentials), false, {}))
  }

  /** Throttled until the attempts are used up, refused for its credentials then, and throttled once more. */
  lemma WorstCaseTurns(policy: RetryPolicy, retries: nat, captureErrors: bool, credentials: Credentials, attempt: nat)
    requires attempt <= retries
    ensures var turn := WorstCase(retries, credentials)[attempt];
            Iterate(policy, retries, captureErrors, turn, attempt, false) ==
            if attempt < retries then Again([], RetryDelay(attempt)) else Again([credentials], 0)
    ensures var next := Iterate(policy, retries, captureErrors, WorstCase(retries, credentials)[retries + 1], retries + 1, true);
            next.Stop? && next.run.sends == 1 && next.run.refreshes == [] && next.run.delay == 0
  {
    hide RetryDelay, Contains;
  }

  lemma {:induction false} WorstCaseRun(policy: RetryPolicy, retries: nat, captureErrors: bool, credentials: Credentials, attempt: nat)
    requires attempt <= retries
    ensures InReach(retries, WorstCase(retries, credentials), attempt, false)
    ensures var run := Run(policy, retries, captureErrors, WorstCase(retries, credentials), attempt, false);
            run.sends == retries + 2 - attempt && run.refreshes == [credentials] && run.delay == DelayBound(retries) - DelayBound(attempt)
    decreases retries - attempt
  {
    hide Iterate, Run, RetryDelay, DelayBound;
    var script := WorstCase(retries, credentials);
    WorstCaseTurns(policy, retries, captureErrors, credentials, attempt);
    RunUnfolds(policy, retries, captureErrors, script, attempt, false);
    if attempt < retries {
      WorstCaseRun(policy, retries, captureErrors, credentials, attempt + 1);
      DelayBoundStep(attempt);
    } else {
      RunUnfolds(policy, retries, captureErrors, script, attempt + 1, true);
    }
  }

  /** The bounds of PostBounds are attained, all three by one script. */
  lemma PostBoundsAreTight(policy: RetryPolicy, retries: nat, captureErrors: bool, credentials: Credentials)
    ensures var run := Post(policy, retries, captureErrors, WorstCase(retries, credentials));
            run.sends == retries + 2 && run.refreshes == [credentials] && run.delay == DelayBound(retries)
  {
    WorstCaseRun(policy, retries, captureErrors, credentials, 0);
  }

  // ---------- at most one send takes effect ----------

  /** The outcome proves the request was turned away before any work: never sent, throttled, or bad credentials. */
  predicate DefinitelyRejected(outcome: Outcome) {
    match outcome
    case NoResponse(error) => IsPreSendTransportError(error)
    case Response(status, body) =>
      !IsSuccess(status) && (IsDefinitelyRejectedThrottle(status, body) || IsExpiredCredentials(status, body))
  }

  const WRITE_POLICY := RetryPolicy(false, false)

  predicate Acknowledges(outcome: Outcome, body: Bytes) {
    outcome.Response? && IsSuccess(outcome.status) && outcome.body == body
  }

  /** All sends of the run but its last met a definite rejection; a delivered body is the last send's 2xx. */
  ghost predicate RejectedThenDecided(script: Script, attempt: nat, run: PostRun)
    requires attempt + run.sends <= |script|
  {
    && (forall k | attempt <= k < attempt + run.sends - 1 :: DefinitelyRejected(script[k].outcome))
    && (run.result.Delivered? ==> run.sends > 0 && Acknowledges(script[attempt + run.sends - 1].outcome, run.result.body))
  }

  /** The calls that retry after nothing but a definite rejection: without retries, or with neither retry option. */
  predicate RetriesOnlyRejected(policy: RetryPolicy, retries: nat) {
    retries == 0 || !(policy.idempotent || policy.retryOnLimitExceeded)
  }

  lemma IterateJudges(policy: RetryPolicy, retries: nat, captureErrors: bool, turn: Turn, attempt: nat, refreshed: bool)
    requires RetriesOnlyRejected(policy, retries)
    ensures match Iterate(policy, retries, captureErrors, turn, attempt, refreshed)
            case Stop(run) => run.sends <= 1 && (run.result.Delivered? ==> run.sends == 1 && Acknowledges(turn.outcome, run.result.body))
            case Again(_, _) => DefinitelyRejected(turn.outcome)
  {
    hide Contains, RetryDelay;
  }

  lemma {:induction false} RunRetriesOnlyRejected(policy: RetryPolicy, retries: nat, captureErrors: bool, script: Script, attempt: nat, refreshed: bool)
    requires RetriesOnlyRejected(policy, retries) && InReach(retries, script, attempt, refreshed)
    ensures RejectedThenDecided(script, attempt, Run(policy, retries, captureErrors, script, attempt, refreshed))
    decreases if refreshed then 0 else 1, if attempt < retries then retries - attempt else 0
  {
    hide Iterate, DefinitelyRejected, Acknowledges, RetriesOnlyRejected;
    var next := Iterate(policy, retries, captureErrors, script[attempt], attempt, refreshed);
    IterateJudges(policy, retries, captureErrors, script[attempt], attempt, refreshed);
    if next.Stop? {
    } else {
      RunRetriesOnlyRejected(policy, retries, captureErrors, script, attempt + 1, refreshed || next.refresh != []);
    }
  }

  /** How many of the first n sends stored item i. */
  function TimesStored(script: Script, n: nat, i: nat): nat
    requires n <= |script|
  {
    if n == 0 then 0 else TimesStored(script, n - 1, i) + (if i in script[n - 1].stored then 1 else 0)
  }

  /** A definite rejection leaves the remote store alone. */
  ghost predicate RejectionsStoreNothing(script: Script) {
    forall k | 0 <= k < |script| && DefinitelyRejected(script[k].outcome) :: script[k].stored == {}
  }

  lemma {:induction false} NothingStoredWhileRejected(script: Script, n: nat, i: nat)
    requires n <= |script| && RejectionsStoreNothing(script)
    requires forall k | 0 <= k < n :: DefinitelyRejected(script[k].outcome)
    ensures TimesStored(script, n, i) == 0
  {
    if n == 0 {
    } else {
      NothingStoredWhileRejected(script, n - 1, i);
      assert DefinitelyRejected(script[n - 1].outcome);
    }
  }

  /** Such a call stores each item at most once, and what it stores is what its last send stored. */
  lemma PostStoresAtMostOnce(policy: RetryPolicy, retries: nat, captureErrors: bool, script: Script, i: nat)
    requires RetriesOnlyRejected(policy, retries)
    requires retries + 2 <= |script| && RejectionsStoreNothing(script)
    ensures var run := Post(policy, retries, captureErrors, script);
            && TimesStored(script, run.sends, i) <= 1
            && (TimesStored(script, run.sends, i) == 1 <==> run.sends > 0 && i in script[run.sends - 1].stored)
  {
    hide RetriesOnlyRejected;
    var run := Post(policy, retries, captureErrors, script);
    RunRetriesOnlyRejected(policy, retries, captureErrors, script, 0, false);
    if run.sends > 0 {
      NothingStoredWhileRejected(script, run.sends - 1, i);
    }
  }

  // ---------- exactly which calls store at most once ----------

  /** Over every script in which rejections store nothing, no item is stored twice. */
  ghost predicate StoresAtMostOnce(policy: RetryPolicy, retries: nat) {
    forall captureErrors, script: Script, i: nat | retries + 2 <= |script| && RejectionsStoreNothing(script) ::
      TimesStored(script, Post(policy, retries, captureErrors, script).sends, i) <= 1
  }

  const LIMIT_EXCEEDED: Bytes := "LimitExceededException"

  /** A failure that stored item 0 all the same, then a success that stores it again. */
  function StoredTwice(retries: nat): (script: Script)
    ensures |script| == retries + 2
    ensures script[0] == Turn(false, Response(500, LIMIT_EXCEEDED), None, false, {0})
    ensures forall k | 1 <= k < |script| :: script[k] == Turn(false, Response(200, []), None, false, {0})
  {
    seq(retries + 2, k => Turn(false, if k == 0 then Response(500, LIMIT_EXCEEDED) else Response(200, []), None, false, {0}))
  }

  /** The failure is no rejection: it does not name throttling. */
  lemma LimitIsNoRejection()
    ensures !DefinitelyRejected(Response(500, LIMIT_EXCEEDED)) && !IsExpiredCredentials(500, LIMIT_EXCEEDED)
  {
    assert 'T' !in LIMIT_EXCEEDED;
    ByteMissing(LIMIT_EXCEEDED, "Throttling", 'T');
    hide Contains;
  }

  /** With either retry option and an attempt left, it is retried. */
  lemma LimitIsRetried(policy: RetryPolicy, retries: nat, turn: Turn)
    requires !RetriesOnlyRejected(policy, retries)
    requires turn == Turn(false, Response(500, LIMIT_EXCEEDED), None, false, {0})
    ensures Iterate(policy, retries, false, turn, 0, false) == Again([], RetryDelay(0))
  {
    LimitIsNoRejection();
    assert At(LIMIT_EXCEEDED, 0, "LimitExceededException");
    assert Contains(LIMIT_EXCEEDED, "LimitExceededException");
    hide Contains, RetryDelay, IsExpiredCredentials, DefinitelyRejected;
  }

  lemma StoredTwiceStoresTwice(policy: RetryPolicy, retries: nat)
    requires !RetriesOnlyRejected(policy, retries)
    ensures RejectionsStoreNothing(StoredTwice(retries))
    ensures TimesStored(StoredTwice(retries), Post(policy, retries, false, StoredTwice(retries)).sends, 0) == 2
  {
    var script := StoredTwice(retries);
    LimitIsNoRejection();
    assert RejectionsStoreNothing(script);
    hide DefinitelyRejected, Run, RetryDelay;
    LimitIsRetried(policy, retries, script[0]);
    RunUnfolds(policy, retries, false, script, 0, false);
    RunUnfolds(policy, retries, false, script, 1, false);
    assert TimesStored(script, 1, 0) == 1;
    assert Post(policy, retries, false, script).sends == 2;
  }

  lemma AtMostOnceIf(policy: RetryPolicy, retries: nat)
    requires RetriesOnlyRejected(policy, retries)
    ensures StoresAtMostOnce(policy, retries)
  {
    hide TimesStored, Post, RejectionsStoreNothing, RetriesOnlyRejected;
    forall captureErrors, script: Script, i: nat | retries + 2 <= |script| && RejectionsStoreNothing(script)
      ensures TimesStored(script, Post(policy, retries, captureErrors, script).sends, i) <= 1
    {
      PostStoresAtMostOnce(policy, retries, captureErrors, script, i);
    }
  }

  /**
   * At-most-once storage holds over all scripts exactly for the calls that retry only after a
   * definite rejection; PutLogEvents and PutMetricData are such calls at every number of retries.
   */
  lemma AtMostOnceExactly(policy: RetryPolicy, retries: nat)
    ensures StoresAtMostOnce(policy, retries) <==> RetriesOnlyRejected(policy, retries)
    ensures StoresAtMostOnce(WRITE_POLICY, retries)
  {
    hide TimesStored, Post, RejectionsStoreNothing;
    AtMostOnceIf(WRITE_POLICY, retries);
    if RetriesOnlyRejected(policy, retries) {
      AtMostOnceIf(policy, retries);
    } else {
      StoredTwiceStoresTwice(policy, retries);
    }
  }

  // ---------- the client object ----------

  /** The connection survives exactly when the last send was answered. */
  predicate ConnectedAfter(script: Script, sends: nat, initially: bool)
    requires sends <= |script|
  {
    if sends == 0 then initially else script[sends - 1].outcome.Response?
  }

  function Latest(refreshes: seq<Credentials>, initially: Credentials): Credentials {
    if refreshes == [] then initially else refreshes[|refreshes| - 1]
  }

  lemma LatestComposes(first: seq<Credentials>, second: seq<Credentials>, initially: Credentials)
    ensures Latest(first + second, initially) == Latest(second, Latest(first, initially))
    ensures Latest([], initially) == initially
    ensures first + [] == first
  {
  }

  /** The loop before iteration attempt decides next: what went before costs refreshes and delay, and one send each. */
  ghost predicate Progress(policy: RetryPolicy, retries: nat, captureErrors: bool, script: Script,
                           attempt: nat, refreshed: bool, refreshes: seq<Credentials>, delay: nat, next: Next) {
    && InReach(retries, script, attempt, refreshed)
    && next == Iterate(policy, retries, captureErrors, script[attempt], attempt, refreshed)
    && Post(policy, retries, captureErrors, script) ==
       AddCost(attempt, refreshes, delay, Run(policy, retries, captureErrors, script, attempt, refreshed))
  }

  lemma ProgressStarts(policy: RetryPolicy, retries: nat, captureErrors: bool, script: Script)
    requires retries + 2 <= |script|
    ensures Progress(policy, retries, captureErrors, script, 0, false, [], 0,
                     Iterate(policy, retries, captureErrors, script[0], 0, false))
  {
    hide Iterate, Run;
    AddNoCost(Post(policy, retries, captureErrors, script));
  }

  lemma ProgressGoesOn(policy: RetryPolicy, retries: nat, captureErrors: bool, script: Script,
                       attempt: nat, refreshed: bool, refreshes: seq<Credentials>, delay: nat, next: Next)
    requires Progress(policy, retries, captureErrors, script, attempt, refreshed, refreshes, delay, next) && next.Again?
    ensures var refreshed' := refreshed || next.refresh != [];
            && InReach(retries, script, attempt + 1, refreshed')
            && Progress(policy, retries, captureErrors, script, attempt + 1, refreshed', refreshes + next.refresh, delay + next.delay,
                        Iterate(policy, retries, captureErrors, script[attempt + 1], attempt + 1, refreshed'))
            && (next.refresh == [] ==> attempt < retries) && (next.refresh != [] ==> !refreshed)
  {
    hide Iterate, Run;
    RunUnfolds(policy, retries, captureErrors, script, attempt, refreshed);
    AddCostComposes(attempt, refreshes, delay, next.refresh, next.delay,
                    Run(policy, retries, captureErrors, script, attempt + 1, refreshed || next.refresh != []));
  }

  lemma ProgressEnds(policy: RetryPolicy, retries: nat, captureErrors: bool, script: Script,
                     attempt: nat, refreshed: bool, refreshes: seq<Credentials>, delay: nat, next: Next)
    requires Progress(policy, retries, captureErrors, script, attempt, refreshed, refreshes, delay, next)
    requires next.Stop? && next.run.refreshes == []
    ensures Post(policy, retries, captureErrors, script) ==
            PostRun(next.run.result, attempt + next.run.sends, refreshes, delay + next.run.delay)
  {
    hide Iterate, Run;
    RunUnfolds(policy, retries, captureErrors, script, attempt, refreshed);
    AddCostComposes(attempt, refreshes, delay, [], 0, next.run);
  }

  class CloudwatchClient {
    var credentials: Credentials
    const retries: nat
    var connected: bool

    constructor (credentials: Credentials, retries: nat)
      ensures this.credentials == credentials && this.retries == retries && !connected
    {
      this.credentials := credentials;
      this.retries := retries;
      this.connected := false;
    }

    /** One iteration: sends, settles the connection, and refreshes the credentials if they were refused. */
    method SendOnce(policy: RetryPolicy, captureErrors: bool, turn: Turn, attempt: nat, refreshed: bool) returns (next: Next)
      modifies this
      ensures next == Iterate(policy, retries, captureErrors, turn, attempt, refreshed)
      ensures connected == if turn.interrupted then old(connected) else turn.outcome.Response?
      ensures credentials == if next.Again? then Latest(next.refresh, old(credentials)) else old(credentials)
    {
      hide Contains, RetryDelay;
      if turn.interrupted {
        return Stop(PostRun(Interrupted, 0, [], 0));
      }
      connected := true;
      if turn.outcome.NoResponse? {
        connected := false;
        if attempt >= retries || !RetryableError(policy, turn.outcome.error) {
          return Stop(PostRun(TransportFailure(turn.outcome.error), 1, [], 0));
        }
      } else {
        var status, body := turn.outcome.status, turn.outcome.body;
        if IsSuccess(status) {
          return Stop(PostRun(Delivered(body), 1, [], 0));
        }
        if IsExpiredCredentials(status, body) && !refreshed {
          if turn.refresh.None? {
            return Stop(PostRun(RefreshFailure, 1, [], 0));
          }
          credentials := turn.refresh.value;
          return Again([credentials], 0);
        }
        if attempt >= retries || !RetryableResponse(policy, status, body) {
          return Stop(PostRun(if captureErrors then Reported(status, body) else HttpFailure(status, body), 1, [], 0));
        }
      }
      if turn.sleepInterrupted {
        return Stop(PostRun(Interrupted, 1, [], RetryDelay(attempt)));
      }
      return Again([], RetryDelay(attempt));
    }

    /**
     * The loop of PostInternal. Its cost and result are those of Post; the connection is
     * kept exactly when the last send got an answer; the credentials are the last ones looked up.
     */
    method PostInternal(policy: RetryPolicy, captureErrors: bool, script: Script) returns (run: PostRun)
      requires retries + 2 <= |script|
      modifies this
      ensures run == Post(policy, retries, captureErrors, script)
      ensures connected == ConnectedAfter(script, run.sends, old(connected))
      ensures credentials == Latest(run.refreshes, old(credentials))
    {
      hide Iterate, Progress, Post, Latest;
      var refreshed := false;
      var refreshes: seq<Credentials>, delay: nat := [], 0;
      var attempt: nat := 0;
      ProgressStarts(policy, retries, captureErrors, script);
      StopCosts(policy, retries, captureErrors, script[0], 0, false);
      LatestComposes([], [], credentials);
      var next := SendOnce(policy, captureErrors, script[0], 0, false);
      while next.Again?
        invariant InReach(retries, script, attempt, refreshed)
        invariant Progress(policy, retries, captureErrors, script, attempt, refreshed, refreshes, delay, next)
        invariant next.Again? ==> !script[attempt].interrupted
        invariant next.Stop? ==> next.run.refreshes == [] && next.run.sends == if script[attempt].interrupted then 0 else 1
        invariant credentials == if next.Again? then Latest(next.refresh, Latest(refreshes, old(credentials))) else Latest(refreshes, old(credentials))
        invariant connected == if script[attempt].interrupted then ConnectedAfter(script, attempt, old(connected)) else script[attempt].outcome.Response?
        decreases if refreshed then 0 else 1, if attempt < retries then retries - attempt else 0
      {
        ProgressGoesOn(policy, retries, captureErrors, script, attempt, refreshed, refreshes, delay, next);
        LatestComposes(refreshes, next.refresh, old(credentials));
        refreshes := refreshes + next.refresh;
        refreshed := refreshed || next.refresh != [];
        delay := delay + next.delay;
        attempt := attempt + 1;
        StopCosts(policy, retries, captureErrors, script[attempt], attempt, refreshed);
        next := SendOnce(policy, captureErrors, script[attempt], attempt, refreshed);
      }
      ProgressEnds(policy, retries, captureErrors, script, attempt, refreshed, refreshes, delay, next);
      return PostRun(next.run.result, attempt + next.run.sends, refreshes, delay + next.run.delay);
    }
  }
}
