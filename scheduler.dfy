/**
 * The per-account scheduler: one iteration of its endless loop as a
 * transition of the account record that also yields the requests and the
 * sleeps it issues.
 */
module Scheduler {
  import opened Wrappers
  import opened Js
  import opened Timestamps
  import opened Durations
  import opened Status
  import opened Accounts

  /** Back-off after a failed check. */
  const CheckRetryDelay: nat := 60000
  /** Back-off after a failed claim. */
  const ClaimRetryDelay: nat := 10000
  /** Pause after a successful claim before the next check. */
  const ClaimCooldown: nat := 5000
  /** Back-off after an unexpected error in the loop body. */
  const ErrorDelay: nat := 60000

  /** What an iteration does that can be observed from outside: the two requests, and sleeps with the status shown meanwhile. */
  datatype Event = CheckRequest | ClaimRequest | Sleep(ms: nat, status: string)

  /**
   * What one iteration receives from outside: an unexpected error raised in
   * the loop body (if any), the check response, the clock reading used to
   * compute the wait, the claim response, and the clock reading taken after
   * the claim response.
   */
  datatype StepInput = StepInput(fault: Option<string>, check: Fetched, waitNow: int, claim: Fetched, claimNow: int)

  /**
   * The part of an iteration after a successful check that returned `next`:
   * the wait (a sleep only when positive), the claim and its back-off.
   */
  function ClaimPhase(checked: Snapshot, next: int, i: StepInput): (Snapshot, seq<Event>) {
    var wait := CalculateWaitTime(Some(Int(next)), i.waitNow);
    var waited := if wait > 0 then checked.(status := StatusWaiting(wait)) else checked;
    var waits := if wait > 0 then [Sleep(wait, StatusWaiting(wait))] else [];
    var claimed := AfterClaim(waited, i.claim, i.claimNow);
    if ClaimSucceeded(i.claim) then
      (claimed, waits + [ClaimRequest, Sleep(ClaimCooldown, StatusClaimOk)])
    else
      (claimed.(status := StatusClaimRetry), waits + [ClaimRequest, Sleep(ClaimRetryDelay, StatusClaimRetry)])
  }

  /** One iteration of scheduleAccount's loop: the new record and the events, in order. */
  function Iteration(a: Snapshot, i: StepInput, p: Parsers): (Snapshot, seq<Event>) {
    if i.fault.Some? then
      (a.(status := StatusSchedulerError, error := i.fault), [Sleep(ErrorDelay, StatusSchedulerError)])
    else
      var outcome := CheckOutcome(i.check, p);
      var checked := AfterCheck(a, outcome);
      match outcome
      case Err(_) => (checked.(status := StatusCheckRetry), [CheckRequest, Sleep(CheckRetryDelay, StatusCheckRetry)])
      case Ok(next) =>
        var (b, e) := ClaimPhase(checked, next, i);
        (b, [CheckRequest] + e)
  }

  /** The check of an iteration succeeds: no unexpected error and a usable next claim time. */
  predicate Checked(i: StepInput, p: Parsers) {
    i.fault.None? && CheckOutcome(i.check, p).Ok?
  }

  /** The wait an iteration whose check succeeded computes. */
  function WaitOf(i: StepInput, p: Parsers): nat
    requires Checked(i, p)
  {
    CalculateWaitTime(Some(Int(CheckOutcome(i.check, p).value)), i.waitNow)
  }

  /** The back-off an iteration ends with. */
  function Backoff(i: StepInput, p: Parsers): nat {
    if i.fault.Some? then ErrorDelay
    else if !Checked(i, p) then CheckRetryDelay
    else if ClaimSucceeded(i.claim) then ClaimCooldown
    else ClaimRetryDelay
  }

  function CountClaims(events: seq<Event>): nat {
    if events == [] then 0
    else CountClaims(events[..|events| - 1]) + (if events[|events| - 1] == ClaimRequest then 1 else 0)
  }

  function CountChecks(events: seq<Event>): nat {
    if events == [] then 0
    else CountChecks(events[..|events| - 1]) + (if events[|events| - 1] == CheckRequest then 1 else 0)
  }

  lemma {:induction false} CountsAppend(e: seq<Event>, f: seq<Event>)
    ensures CountClaims(e + f) == CountClaims(e) + CountClaims(f)
    ensures CountChecks(e + f) == CountChecks(e) + CountChecks(f)
    decreases |f|
  {
    if f == [] {
      assert e + f == e;
    } else {
      assert (e + f)[..|e + f| - 1] == e + f[..|f| - 1];
      CountsAppend(e, f[..|f| - 1]);
    }
  }

  lemma CountsOne(x: Event)
    ensures CountClaims([x]) == (if x == ClaimRequest then 1 else 0)
    ensures CountChecks([x]) == (if x == CheckRequest then 1 else 0)
  {
    assert [x][..0] == [];
  }

  /** The status shown during the sleep an iteration ends with. */
  function FinalStatus(i: StepInput, p: Parsers): string {
    if i.fault.Some? then StatusSchedulerError
    else if !Checked(i, p) then StatusCheckRetry
    else if ClaimSucceeded(i.claim) then StatusClaimOk
    else StatusClaimRetry
  }

  /** The sleep before the claim of an iteration whose check succeeded: one when the wait is positive, none otherwise. */
  function Waits(i: StepInput, p: Parsers): seq<Event>
    requires Checked(i, p)
  {
    var w := WaitOf(i, p);
    if w > 0 then [Sleep(w, StatusWaiting(w))] else []
  }

  /** The events of an iteration whose check succeeded, in order. */
  lemma CheckedEventList(a: Snapshot, i: StepInput, p: Parsers)
    requires Checked(i, p)
    ensures Iteration(a, i, p).1 == [CheckRequest] + Waits(i, p) + [ClaimRequest, Sleep(Backoff(i, p), FinalStatus(i, p))]
  {
  }

  /** A check, at most one sleep, a claim and a sleep: one check and one claim. */
  lemma ClaimSequenceCounts(waits: seq<Event>, last: Event)
    requires |waits| <= 1 && (|waits| == 1 ==> waits[0].Sleep?) && last.Sleep?
    ensures CountChecks([CheckRequest] + waits + [ClaimRequest, last]) == 1
    ensures CountClaims([CheckRequest] + waits + [ClaimRequest, last]) == 1
  {
    assert [CheckRequest] + waits + [ClaimRequest, last] == [CheckRequest] + waits + ([ClaimRequest] + [last]);
    CountsAppend([CheckRequest] + waits, [ClaimRequest] + [last]);
    CountsAppend([CheckRequest], waits);
    CountsAppend([ClaimRequest], [last]);
    CountsOne(CheckRequest);
    CountsOne(ClaimRequest);
    CountsOne(last);
    if |waits| == 1 {
      assert waits == [waits[0]];
      CountsOne(waits[0]);
    }
  }

  /** A check followed by a sleep: one check and no claim. */
  lemma RetrySequenceCounts(last: Event)
    requires last.Sleep?
    ensures CountChecks([CheckRequest, last]) == 1 && CountClaims([CheckRequest, last]) == 0
  {
    assert [CheckRequest, last] == [CheckRequest] + [last];
    CountsAppend([CheckRequest], [last]);
    CountsOne(CheckRequest);
    CountsOne(last);
  }

  /**
   * The requests and sleeps of any iteration, which the lemma pins down
   * completely: an unexpected error is a single 60 s sleep; otherwise the
   * iteration starts with the check; a failed check is followed only by a
   * 60 s sleep; a successful one by a sleep of the computed wait when that
   * is positive and by nothing otherwise, then by exactly one claim and a
   * 5 s sleep after a success or a 10 s sleep after a failure. Each sleep
   * carries the status shown during it.
   */
  lemma IterationEvents(a: Snapshot, i: StepInput, p: Parsers)
    ensures var (_, e) := Iteration(a, i, p);
      && |e| == (if i.fault.Some? then 1 else if !Checked(i, p) then 2 else if WaitOf(i, p) > 0 then 4 else 3)
      && e[|e| - 1] == Sleep(Backoff(i, p), FinalStatus(i, p))
      && (i.fault.None? ==> e[0] == CheckRequest)
      && (Checked(i, p) ==> e[|e| - 2] == ClaimRequest)
      && (Checked(i, p) && WaitOf(i, p) > 0 ==> e[1] == Sleep(WaitOf(i, p), StatusWaiting(WaitOf(i, p))))
      && CountChecks(e) == (if i.fault.None? then 1 else 0)
      && CountClaims(e) == (if Checked(i, p) then 1 else 0)
  {
    var (_, e) := Iteration(a, i, p);
    if i.fault.Some? {
      CountsOne(Sleep(ErrorDelay, StatusSchedulerError));
    } else if !Checked(i, p) {
      RetrySequenceCounts(Sleep(CheckRetryDelay, StatusCheckRetry));
    } else {
      CheckedEventList(a, i, p);
      ClaimSequenceCounts(Waits(i, p), Sleep(Backoff(i, p), FinalStatus(i, p)));
    }
  }

  /**
   * What any iteration does to the record: name and token stay; the claim
   * count grows by one only after a claim request that got a response; the
   * next claim time changes only by a successful check; the balance only by
   * a successful claim reporting a truthy balance; the status left is the
   * one of the final sleep; and each outcome leaves its status and error:
   * "调度错误" with the unexpected error's message, "等待重试 (1分钟)" with
   * the check's error, "领取成功" with no error, or "领取失败，等待重试"
   * with the claim's error.
   */
  lemma IterationRecord(a: Snapshot, i: StepInput, p: Parsers)
    ensures var (b, _) := Iteration(a, i, p);
      && b.name == a.name && b.authToken == a.authToken
      && b.claimCount == a.claimCount + (if Checked(i, p) && i.claim.Received? then 1 else 0)
      && b.nextClaimTime == (if Checked(i, p) then Some(CheckOutcome(i.check, p).value) else a.nextClaimTime)
      && b.lastClaimTime == (if Checked(i, p) && i.claim.Received? then Some(i.claimNow) else a.lastClaimTime)
      && b.balance == (if Checked(i, p) && ClaimSucceeded(i.claim) && Truthy(Get(i.claim.body.fields, BalanceField))
                       then Get(i.claim.body.fields, BalanceField) else a.balance)
      && b.status == FinalStatus(i, p)
      && (i.fault.Some? ==> b.status == StatusSchedulerError && b.error == i.fault)
      && (i.fault.None? && !Checked(i, p) ==>
            b.status == StatusCheckRetry && b.error == Some(CheckOutcome(i.check, p).message))
      && (Checked(i, p) && ClaimSucceeded(i.claim) ==> b.status == StatusClaimOk && b.error == None)
      && (Checked(i, p) && !ClaimSucceeded(i.claim) ==>
            b.status == StatusClaimRetry &&
            b.error == Some(if i.claim.Failed? then i.claim.message else NullAccessMessage(BalanceField)))
      && (b.error.None? <==> Classify(b.status) == Success)
  {
    if i.fault.Some? {
      SchedulerErrorIsPlain();
    } else if !Checked(i, p) {
      FailedCheckRecord(a, i, p);
    } else {
      ClaimedRecord(a, i, p);
    }
  }

  /** The record after an iteration whose check failed. */
  lemma FailedCheckRecord(a: Snapshot, i: StepInput, p: Parsers)
    requires i.fault.None? && !Checked(i, p)
    ensures var (b, _) := Iteration(a, i, p);
      && b == a.(status := StatusCheckRetry, error := Some(CheckOutcome(i.check, p).message))
      && Classify(b.status) == Waiting
  {
    CheckRetryIsWaiting();
  }

  /** The record after an iteration whose check succeeded. */
  lemma ClaimedRecord(a: Snapshot, i: StepInput, p: Parsers)
    requires Checked(i, p)
    ensures var (b, _) := Iteration(a, i, p);
      && b.name == a.name && b.authToken == a.authToken
      && b.claimCount == a.claimCount + (if i.claim.Received? then 1 else 0)
      && b.nextClaimTime == Some(CheckOutcome(i.check, p).value)
      && b.lastClaimTime == (if i.claim.Received? then Some(i.claimNow) else a.lastClaimTime)
      && b.balance == (if ClaimSucceeded(i.claim) && Truthy(Get(i.claim.body.fields, BalanceField))
                       then Get(i.claim.body.fields, BalanceField) else a.balance)
      && (ClaimSucceeded(i.claim) ==> b.status == StatusClaimOk && b.error == None)
      && (!ClaimSucceeded(i.claim) ==>
            b.status == StatusClaimRetry &&
            b.error == Some(if i.claim.Failed? then i.claim.message else NullAccessMessage(BalanceField)))
      && (b.error.None? <==> Classify(b.status) == Success)
  {
    SuccessStatuses();
    ClaimRetryIsFailure();
  }

  /** The clock advanced by at least the wait before the claim's response was dated. */
  predicate ClockHonoursWait(i: StepInput, p: Parsers) {
    Checked(i, p) ==> i.claimNow >= i.waitNow + WaitOf(i, p)
  }

  /** A claim is never dated before the next claim time the check reported. */
  lemma ClaimNotBeforeNextTime(a: Snapshot, i: StepInput, p: Parsers)
    requires ClockHonoursWait(i, p)
    requires Checked(i, p) && i.claim.Received?
    ensures var (b, _) := Iteration(a, i, p);
      b.lastClaimTime.Some? && b.nextClaimTime.Some? && b.lastClaimTime.value >= b.nextClaimTime.value
  {
    WaitReachesNext(Some(Int(CheckOutcome(i.check, p).value)), i.waitNow);
    IterationRecord(a, i, p);
  }

  /** Several iterations in a row, the last input last. */
  function Run(a: Snapshot, inputs: seq<StepInput>, p: Parsers): (Snapshot, seq<Event>)
    decreases |inputs|
  {
    if inputs == [] then (a, [])
    else
      var (b, e) := Run(a, inputs[..|inputs| - 1], p);
      var (c, f) := Iteration(b, inputs[|inputs| - 1], p);
      (c, e + f)
  }

  /**
   * Over any run the claim count never decreases and grows by at most the
   * number of claim requests made, which is at most one per iteration; the
   * account's name and token never change.
   */
  lemma {:induction false} RunClaimCount(a: Snapshot, inputs: seq<StepInput>, p: Parsers)
    ensures var (b, e) := Run(a, inputs, p);
      && b.name == a.name && b.authToken == a.authToken
      && a.claimCount <= b.claimCount <= a.claimCount + CountClaims(e)
      && CountClaims(e) <= |inputs|
    decreases |inputs|
  {
    if inputs != [] {
      var init := inputs[..|inputs| - 1];
      var (b, e) := Run(a, init, p);
      RunClaimCount(a, init, p);
      IterationEvents(b, inputs[|inputs| - 1], p);
      IterationRecord(b, inputs[|inputs| - 1], p);
      var (c, f) := Iteration(b, inputs[|inputs| - 1], p);
      CountsAppend(e, f);
    }
  }

  /** The events of `n` failed checks in a row. */
  function FailedChecks(n: nat): seq<Event> {
    if n == 0 then [] else FailedChecks(n - 1) + [CheckRequest, Sleep(CheckRetryDelay, StatusCheckRetry)]
  }

  /**
   * A run in which every check fails retries every 60 s and never claims:
   * the record keeps its count, balance, claim times and next claim time.
   */
  lemma {:induction false} RunOfFailedChecks(a: Snapshot, inputs: seq<StepInput>, p: Parsers)
    requires forall k :: 0 <= k < |inputs| ==> inputs[k].fault.None? && CheckOutcome(inputs[k].check, p).Err?
    ensures var (b, e) := Run(a, inputs, p);
      && e == FailedChecks(|inputs|)
      && b.claimCount == a.claimCount && b.balance == a.balance
      && b.lastClaimTime == a.lastClaimTime && b.nextClaimTime == a.nextClaimTime
    decreases |inputs|
  {
    if inputs != [] {
      RunOfFailedChecks(a, inputs[..|inputs| - 1], p);
    }
  }

  lemma {:induction false} FailedChecksCounts(n: nat)
    ensures CountClaims(FailedChecks(n)) == 0 && CountChecks(FailedChecks(n)) == n
  {
    if n > 0 {
      var s := Sleep(CheckRetryDelay, StatusCheckRetry);
      FailedChecksCounts(n - 1);
      assert FailedChecks(n) == FailedChecks(n - 1) + ([CheckRequest] + [s]);
      CountsAppend(FailedChecks(n - 1), [CheckRequest] + [s]);
      CountsAppend([CheckRequest], [s]);
      CountsOne(CheckRequest);
      CountsOne(s);
    }
  }

  /** Three failed checks in a row are three 60 s waits and no claim. */
  lemma ThreeFailedChecks()
    ensures FailedChecks(3) == [CheckRequest, Sleep(60000, StatusCheckRetry),
                                CheckRequest, Sleep(60000, StatusCheckRetry),
                                CheckRequest, Sleep(60000, StatusCheckRetry)]
    ensures CountClaims(FailedChecks(3)) == 0
  {
    var s := Sleep(60000, StatusCheckRetry);
    assert FailedChecks(1) == [CheckRequest, s];
    assert FailedChecks(2) == [CheckRequest, s, CheckRequest, s];
    FailedChecksCounts(3);
  }

  /**
   * A check that reports, in seconds, a time five seconds ahead leads to a
   * five-second wait and one claim; a successful claim with a balance
   * increments the count and stores that balance.
   */
  lemma ClaimFiveSecondsAhead(a: Snapshot, p: Parsers, seconds: int, now: int, reported: Value,
                              checkJson: string, claimJson: string, claimNow: int)
    requires 0 < seconds < SecondsThreshold && seconds * 1000 == now + 5000
    requires Truthy(reported)
    ensures var i := StepInput(None, Received(Record(map[AwardField := Number(seconds)], checkJson)), now,
                               Received(Record(map[BalanceField := reported], claimJson)), claimNow);
      var (b, e) := Iteration(a, i, p);
      && e == [CheckRequest, Sleep(5000, StatusWaiting(5000)), ClaimRequest, Sleep(ClaimCooldown, StatusClaimOk)]
      && b.claimCount == a.claimCount + 1 && b.balance == reported
      && b.nextClaimTime == Some(now + 5000) && b.lastClaimTime == Some(claimNow)
  {
    NumericAward(seconds, p);
  }

  /** The status shown during a five-second wait. */
  lemma FiveSecondWaitStatus()
    ensures StatusWaiting(5000) == "等待领取 (5秒)"
  {
    assert Split(5) == Clock(0, 0, 5);
    assert Decimal.NatToString(5) == "5";
  }

  /**
   * A next claim time that is neither a date nor a number fails the check:
   * the next claim time is kept, the error names the response, and the
   * scheduler retries after 60 s without claiming.
   */
  lemma NotADateRetries(a: Snapshot, p: Parsers, json: string, i: StepInput)
    requires p.dateTime("not-a-date").NaN? && p.parseInt("not-a-date").NaN?
    requires i.fault.None? && i.check == Received(Record(map[AwardField := Text("not-a-date")], json))
    ensures var (b, e) := Iteration(a, i, p);
      && e == [CheckRequest, Sleep(CheckRetryDelay, StatusCheckRetry)]
      && b.nextClaimTime == a.nextClaimTime
      && b.error == Some(ParseFailurePrefix + json)
  {
  }

  /** One iteration of scheduleAccount's loop on the shared record. */
  method ScheduleStep(account: AccountState, i: StepInput, p: Parsers) returns (events: seq<Event>)
    modifies account
    ensures (account.View(), events) == Iteration(old(account.View()), i, p)
  {
    if i.fault.Some? {
      account.status := StatusSchedulerError;
      account.error := i.fault;
      events := [Sleep(ErrorDelay, StatusSchedulerError)];
      return;
    }
    events := [CheckRequest];
    ghost var before := account.View();
    var nextTime := account.GetNextClaimTime(i.check, p);
    ghost var checked := AfterCheck(before, CheckOutcome(i.check, p));
    assert account.View() == checked;
    if nextTime.None? {
      account.status := StatusCheckRetry;
      assert account.View() == checked.(status := StatusCheckRetry);
      events := events + [Sleep(CheckRetryDelay, StatusCheckRetry)];
      assert events == [CheckRequest, Sleep(CheckRetryDelay, StatusCheckRetry)];
      assert CheckOutcome(i.check, p).Err?;
      return;
    }
    var claimEvents := WaitAndClaim(account, nextTime.value, i);
    events := events + claimEvents;
  }

  /** The waiting and claiming part of an iteration, after the check returned `nextTime`. */
  method WaitAndClaim(account: AccountState, nextTime: int, i: StepInput) returns (events: seq<Event>)
    modifies account
    ensures (account.View(), events) == ClaimPhase(old(account.View()), nextTime, i)
  {
    events := [];
    var waitTime := CalculateWaitTime(Some(Int(nextTime)), i.waitNow);
    if waitTime > 0 {
      account.status := StatusWaiting(waitTime);
      events := [Sleep(waitTime, account.status)];
    }
    var success := account.ClaimReward(i.claim, i.claimNow);
    if !success {
      account.status := StatusClaimRetry;
      events := events + [ClaimRequest, Sleep(ClaimRetryDelay, StatusClaimRetry)];
    } else {
      events := events + [ClaimRequest, Sleep(ClaimCooldown, StatusClaimOk)];
    }
  }

  /** The scheduler's loop, run for as many iterations as there are inputs. */
  method RunScheduler(account: AccountState, inputs: seq<StepInput>, p: Parsers) returns (events: seq<Event>)
    modifies account
    ensures (account.View(), events) == Run(old(account.View()), inputs, p)
  {
    events := [];
    var k := 0;
    while k < |inputs|
      invariant 0 <= k <= |inputs|
      invariant (account.View(), events) == Run(old(account.View()), inputs[..k], p)
    {
      var step := ScheduleStep(account, inputs[k], p);
      events := events + step;
      assert inputs[..k + 1][..k] == inputs[..k];
      k := k + 1;
    }
    assert inputs[..k] == inputs;
  }
}
