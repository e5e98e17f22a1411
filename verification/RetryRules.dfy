/**
 * What a call retries and how it ends (src/cloudwatch_client.cpp), exactly, over every script: the rules
 * are written out over errors, statuses and texts.
 */
module RetryRules {
  import opened Strings
  import opened Transport

  // ---------- the rules ----------

  /** The remote or the way to it may do better next time. */
  ghost predicate WorthRetrying(policy: RetryPolicy, outcome: Outcome) {
    match outcome
    case NoResponse(e) =>
      if policy.idempotent then
        // anything but a certificate problem
        e != SSLLoadingCerts && e != SSLServerVerification && e != SSLServerHostnameVerification
      else
        // only what fails before the request is sent
        e == Connection || e == ConnectionTimeout || e == BindIPAddress || e == ProxyConnection
    case Response(status, body) =>
      || status == 429
      || HasText(body, "Throttling")
      || (policy.idempotent && (status >= 500 || HasText(body, "ServiceUnavailable")))
      || (policy.retryOnLimitExceeded && HasText(body, "LimitExceededException"))
  }

  predicate Succeeded(outcome: Outcome) {
    outcome.Response? && 200 <= outcome.status < 300
  }

  /** The credentials were turned down. */
  ghost predicate CredentialsRefused(outcome: Outcome) {
    && outcome.Response?
    && (|| outcome.status == 401
        || outcome.status == 403
        || (outcome.status == 400 && (HasText(outcome.body, "ExpiredToken") || HasText(outcome.body, "RequestExpired"))))
  }

  /** Credentials were turned down in an earlier turn. */
  ghost predicate RefusedBefore(script: Script, k: nat)
    requires k <= |script|
  {
    exists j | 0 <= j < k :: CredentialsRefused(script[j].outcome)
  }

  /** Turn k is the first whose credentials are turned down: the one time they are looked up anew. */
  ghost predicate Refreshes(script: Script, k: nat)
    requires k < |script|
  {
    CredentialsRefused(script[k].outcome) && !RefusedBefore(script, k)
  }

  /** The loop goes round again after turn k. */
  ghost predicate GoesOn(policy: RetryPolicy, retries: nat, script: Script, k: nat)
    requires k < |script|
  {
    var turn := script[k];
    && !turn.interrupted && !Succeeded(turn.outcome)
    && if Refreshes(script, k) then turn.refresh.Some?
       else k < retries && WorthRetrying(policy, turn.outcome) && !turn.sleepInterrupted
  }

  /** How the call ends in turn k if it does not go on. */
  ghost function EndsWith(policy: RetryPolicy, retries: nat, captureErrors: bool, script: Script, k: nat): PostResult
    requires k < |script|
  {
    var turn := script[k];
    if turn.interrupted then Interrupted
    else if Succeeded(turn.outcome) then Delivered(turn.outcome.body)
    else if Refreshes(script, k) then RefreshFailure
    else if k < retries && WorthRetrying(policy, turn.outcome) then Interrupted
    else match turn.outcome
      case NoResponse(e) => TransportFailure(e)
      case Response(status, body) => if captureErrors then Reported(status, body) else HttpFailure(status, body)
  }

  /** The sleep planned in the first k turns: one delay for each that was not a refresh. */
  ghost function Slept(script: Script, k: nat): nat
    requires k <= |script|
  {
    if k == 0 then 0 else Slept(script, k - 1) + if Refreshes(script, k - 1) then 0 else RetryDelay(k - 1)
  }

  // ---------- one turn ----------

  lemma TextsAre(body: Bytes)
    ensures Contains(body, "Throttling") <==> HasText(body, "Throttling")
    ensures Contains(body, "ServiceUnavailable") <==> HasText(body, "ServiceUnavailable")
    ensures Contains(body, "LimitExceededException") <==> HasText(body, "LimitExceededException")
    ensures Contains(body, "ExpiredToken") <==> HasText(body, "ExpiredToken")
    ensures Contains(body, "RequestExpired") <==> HasText(body, "RequestExpired")
  {
    hide Contains, HasText;
    ContainsIsHasText(body, "Throttling");
    ContainsIsHasText(body, "ServiceUnavailable");
    ContainsIsHasText(body, "LimitExceededException");
    ContainsIsHasText(body, "ExpiredToken");
    ContainsIsHasText(body, "RequestExpired");
  }

  lemma RulesAre(policy: RetryPolicy, outcome: Outcome)
    ensures outcome.NoResponse? ==> (RetryableError(policy, outcome.error) <==> WorthRetrying(policy, outcome))
    ensures outcome.Response? ==> (RetryableResponse(policy, outcome.status, outcome.body) <==> WorthRetrying(policy, outcome))
    ensures outcome.Response? ==> (IsExpiredCredentials(outcome.status, outcome.body) <==> CredentialsRefused(outcome))
  {
    if outcome.Response? {
      TextsAre(outcome.body);
    }
    hide Contains, HasText;
  }

  lemma SuccessKeepsCredentials(outcome: Outcome)
    ensures Succeeded(outcome) ==> !CredentialsRefused(outcome)
    ensures outcome.NoResponse? ==> !CredentialsRefused(outcome)
  {
  }

  lemma TurnExactly(policy: RetryPolicy, retries: nat, captureErrors: bool, script: Script, k: nat)
    requires k < |script|
    ensures match Iterate(policy, retries, captureErrors, script[k], k, RefusedBefore(script, k))
            case Again(refresh, delay) =>
              && GoesOn(policy, retries, script, k)
              && (if Refreshes(script, k) then refresh == [script[k].refresh.value] && delay == 0 else refresh == [] && delay == RetryDelay(k))
            case Stop(run) =>
              && !GoesOn(policy, retries, script, k)
              && run.result == EndsWith(policy, retries, captureErrors, script, k)
              && run.sends == (if script[k].interrupted then 0 else 1)
              && run.refreshes == []
              && run.delay == if !script[k].interrupted && run.result == Interrupted then RetryDelay(k) else 0
  {
    hide RetryDelay, RetryableError, RetryableResponse, IsExpiredCredentials, WorthRetrying, CredentialsRefused, RefusedBefore;
    RulesAre(policy, script[k].outcome);
    SuccessKeepsCredentials(script[k].outcome);
  }

  // ---------- the whole call ----------

  lemma StillRefused(policy: RetryPolicy, retries: nat, captureErrors: bool, script: Script, k: nat)
    requires k < |script| && InReach(retries, script, k, RefusedBefore(script, k))
    requires Iterate(policy, retries, captureErrors, script[k], k, RefusedBefore(script, k)).Again?
    ensures var next := Iterate(policy, retries, captureErrors, script[k], k, RefusedBefore(script, k));
            && (RefusedBefore(script, k + 1) <==> RefusedBefore(script, k) || next.refresh != [])
            && InReach(retries, script, k + 1, RefusedBefore(script, k + 1))
  {
    hide Iterate, RetryDelay, CredentialsRefused, GoesOn;
    TurnExactly(policy, retries, captureErrors, script, k);
  }

  lemma {:induction false} RunExactly(policy: RetryPolicy, retries: nat, captureErrors: bool, script: Script, attempt: nat) returns (k: nat)
    requires attempt <= |script| && InReach(retries, script, attempt, RefusedBefore(script, attempt))
    requires forall j | 0 <= j < attempt :: GoesOn(policy, retries, script, j)
    ensures attempt <= k < |script|
    ensures forall j | 0 <= j < k :: GoesOn(policy, retries, script, j)
    ensures !GoesOn(policy, retries, script, k)
    ensures var run := Run(policy, retries, captureErrors, script, attempt, RefusedBefore(script, attempt));
            && run.result == EndsWith(policy, retries, captureErrors, script, k)
            && run.sends == k - attempt + (if script[k].interrupted then 0 else 1)
            && run.delay == Slept(script, k) - Slept(script, attempt) +
                            if !script[k].interrupted && run.result == Interrupted then RetryDelay(k) else 0
    decreases |script| - attempt
  {
    hide Iterate, Run, RetryDelay, GoesOn, EndsWith, CredentialsRefused;
    var refused := RefusedBefore(script, attempt);
    RunUnfolds(policy, retries, captureErrors, script, attempt, refused);
    TurnExactly(policy, retries, captureErrors, script, attempt);
    var next := Iterate(policy, retries, captureErrors, script[attempt], attempt, refused);
    if next.Stop? {
      k := attempt;
    } else {
      StillRefused(policy, retries, captureErrors, script, attempt);
      k := RunExactly(policy, retries, captureErrors, script, attempt + 1);
    }
  }

  /**
   * One call, exactly: it goes on through turns 0 to k - 1 by the rules, stops in turn k, and ends as that turn says;
   * it sends once a turn, and sleeps the delays of the turns that were no refresh.
   */
  lemma CallExactly(policy: RetryPolicy, retries: nat, captureErrors: bool, script: Script) returns (k: nat)
    requires retries + 2 <= |script|
    ensures k < |script|
    ensures forall j | 0 <= j < k :: GoesOn(policy, retries, script, j)
    ensures !GoesOn(policy, retries, script, k)
    ensures var run := Post(policy, retries, captureErrors, script);
            && run.result == EndsWith(policy, retries, captureErrors, script, k)
            && run.sends == k + (if script[k].interrupted then 0 else 1)
            && run.delay == Slept(script, k) + if !script[k].interrupted && run.result == Interrupted then RetryDelay(k) else 0
  {
    hide Run, RetryDelay, GoesOn, EndsWith;
    k := RunExactly(policy, retries, captureErrors, script, 0);
  }

  // ---------- refused connections ----------

  /** n refused connections, then a 2xx, and no interrupt. */
  ghost predicate RefusedThenAnswered(script: Script, n: nat, status: int, body: Bytes) {
    && n < |script| && 200 <= status < 300
    && (forall k | 0 <= k <= n :: !script[k].interrupted && !script[k].sleepInterrupted)
    && (forall k | 0 <= k < n :: script[k].outcome == NoResponse(Connection))
    && script[n].outcome == Response(status, body)
  }

  lemma DelayBoundZero()
    ensures DelayBound(0) == 0
  {
  }

  lemma {:induction false} SleptThroughout(script: Script, n: nat)
    requires n <= |script| && forall k | 0 <= k < n :: script[k].outcome == NoResponse(Connection)
    ensures Slept(script, n) == DelayBound(n)
  {
    hide RetryDelay, DelayBound;
    if n == 0 {
      assert DelayBound(0) == 0 by { DelayBoundZero(); }
    } else {
      SleptThroughout(script, n - 1);
      DelayBoundStep(n - 1);
    }
  }

  /** Under every policy, refused connections up to the number of retries are waited out, and the answer is delivered. */
  lemma ConnectionsWaitedOut(policy: RetryPolicy, retries: nat, captureErrors: bool, script: Script, n: nat, status: int, body: Bytes)
    requires retries + 2 <= |script| && n <= retries && RefusedThenAnswered(script, n, status, body)
    ensures var run := Post(policy, retries, captureErrors, script);
            run.result == Delivered(body) && run.sends == n + 1 && run.delay == DelayBound(n)
  {
    hide Post, RetryDelay, DelayBound, HasText;
    var k := CallExactly(policy, retries, captureErrors, script);
    forall j | 0 <= j < n ensures GoesOn(policy, retries, script, j) {
    }
    assert !GoesOn(policy, retries, script, n);
    assert k == n;
    SleptThroughout(script, n);
  }

  // ---------- how calls end ----------

  /** Turn k is reached, sends and is not interrupted while doing so. */
  ghost predicate Reached(policy: RetryPolicy, retries: nat, script: Script, k: nat)
    requires k < |script|
  {
    !script[k].interrupted && forall j | 0 <= j < k :: GoesOn(policy, retries, script, j)
  }

  lemma OneEnd(policy: RetryPolicy, retries: nat, script: Script, k: nat, m: nat)
    requires k < |script| && m < |script|
    requires (forall j | 0 <= j < k :: GoesOn(policy, retries, script, j)) && !GoesOn(policy, retries, script, k)
    requires (forall j | 0 <= j < m :: GoesOn(policy, retries, script, j)) && !GoesOn(policy, retries, script, m)
    ensures k == m
  {
    hide GoesOn;
  }

  /** The error is none that another attempt may cure. */
  predicate Hopeless(policy: RetryPolicy, e: TransportError) {
    || (policy.idempotent && (e == SSLLoadingCerts || e == SSLServerVerification || e == SSLServerHostnameVerification))
    || (!policy.idempotent && e != Connection && e != ConnectionTimeout && e != BindIPAddress && e != ProxyConnection)
  }

  /** A transport error ends the call exactly in a turn that finds the attempts used up or the error hopeless. */
  lemma TransportFailsExactly(policy: RetryPolicy, retries: nat, captureErrors: bool, script: Script, e: TransportError)
    requires retries + 2 <= |script|
    ensures Post(policy, retries, captureErrors, script).result == TransportFailure(e) <==>
            exists k | 0 <= k < |script| :: Reached(policy, retries, script, k) && script[k].outcome == NoResponse(e) && (k >= retries || Hopeless(policy, e))
  {
    hide Post, HasText, RefusedBefore;
    var k := CallExactly(policy, retries, captureErrors, script);
    if m :| 0 <= m < |script| && Reached(policy, retries, script, m) && script[m].outcome == NoResponse(e) && (m >= retries || Hopeless(policy, e)) {
      OneEnd(policy, retries, script, k, m);
    }
    if Post(policy, retries, captureErrors, script).result == TransportFailure(e) {
      assert Reached(policy, retries, script, k);
    }
  }

  /** What fails an answered request for good: a status and body that neither throttle nor, for an idempotent call, show a failing server. */
  ghost predicate Final(policy: RetryPolicy, status: int, body: Bytes) {
    && status != 429 && !HasText(body, "Throttling")
    && (policy.idempotent ==> status < 500 && !HasText(body, "ServiceUnavailable"))
    && (policy.retryOnLimitExceeded ==> !HasText(body, "LimitExceededException"))
  }

  /**
   * A status ends the call exactly in a turn that finds the attempts used up or the answer final, unless it turns the
   * credentials down for the first time.
   */
  lemma StatusFailsExactly(policy: RetryPolicy, retries: nat, captureErrors: bool, script: Script, status: int, body: Bytes)
    requires retries + 2 <= |script|
    ensures Post(policy, retries, captureErrors, script).result == (if captureErrors then Reported(status, body) else HttpFailure(status, body)) <==>
            exists k | 0 <= k < |script| ::
              && Reached(policy, retries, script, k) && script[k].outcome == Response(status, body) && !(200 <= status < 300)
              && !Refreshes(script, k) && (k >= retries || Final(policy, status, body))
  {
    hide Post, HasText, RefusedBefore;
    var k := CallExactly(policy, retries, captureErrors, script);
    if m :| 0 <= m < |script| && Reached(policy, retries, script, m) && script[m].outcome == Response(status, body) && !(200 <= status < 300)
            && !Refreshes(script, m) && (m >= retries || Final(policy, status, body)) {
      OneEnd(policy, retries, script, k, m);
    }
    if Post(policy, retries, captureErrors, script).result == (if captureErrors then Reported(status, body) else HttpFailure(status, body)) {
      assert Reached(policy, retries, script, k);
    }
  }

  /** The call is delivered exactly in a turn it reaches and that is answered with a 2xx. */
  lemma DeliveredExactly(policy: RetryPolicy, retries: nat, captureErrors: bool, script: Script, body: Bytes)
    requires retries + 2 <= |script|
    ensures Post(policy, retries, captureErrors, script).result == Delivered(body) <==>
            exists k | 0 <= k < |script| :: Reached(policy, retries, script, k) && Succeeded(script[k].outcome) && script[k].outcome.body == body
  {
    hide Post, HasText, RefusedBefore;
    var k := CallExactly(policy, retries, captureErrors, script);
    if m :| 0 <= m < |script| && Reached(policy, retries, script, m) && Succeeded(script[m].outcome) && script[m].outcome.body == body {
      OneEnd(policy, retries, script, k, m);
    }
    if Post(policy, retries, captureErrors, script).result == Delivered(body) {
      assert Reached(policy, retries, script, k);
    }
  }
}
