/** The status texts the scheduler shows, and their presentation classes. */
module Status {
  import opened Wrappers
  import opened Js
  import opened Strings
  import opened Durations

  const StatusInitializing := "初始化中"
  const StatusChecking := "获取下次领取时间..."
  const StatusCheckOk := "获取成功"
  const StatusCheckFailed := "获取失败"
  const StatusCheckRetry := "等待重试 (1分钟)"
  const StatusClaiming := "正在领取奖励..."
  const StatusClaimOk := "领取成功"
  const StatusClaimFailed := "领取失败"
  const StatusClaimRetry := "领取失败，等待重试"
  const StatusSchedulerError := "调度错误"

  /** The status shown while sleeping `wait` milliseconds until the next claim. */
  function StatusWaiting(wait: nat): string {
    "等待领取 (" + FormatDuration(Some(Int(wait))) + ")"
  }

  /** The three colour groups of the status column, and the default (white) for the rest. */
  datatype Presentation = Success | Failure | Waiting | Plain

  /** The first of "成功", "失败", "等待" that the status contains decides its class. */
  function Classify(status: string): Presentation {
    if Contains(status, "成功") then Success
    else if Contains(status, "失败") then Failure
    else if Contains(status, "等待") then Waiting
    else Plain
  }

  /** The precedence of the classes, stated through the positions at which the keywords occur. */
  lemma ClassifyPrecedence(status: string)
    ensures Classify(status) == Success <==> exists i :: Occurs(status, "成功", i)
    ensures Classify(status) == Failure <==>
      (forall i :: !Occurs(status, "成功", i)) && exists i :: Occurs(status, "失败", i)
    ensures Classify(status) == Waiting <==>
      (forall i :: !Occurs(status, "成功", i) && !Occurs(status, "失败", i)) && exists i :: Occurs(status, "等待", i)
  {
    ContainsIff(status, "成功");
    ContainsIff(status, "失败");
    ContainsIff(status, "等待");
  }

  lemma ContainsAt(s: string, sub: string, i: nat)
    requires Occurs(s, sub, i)
    ensures Contains(s, sub)
  {
    ContainsIff(s, sub);
  }

  lemma PlainStatus(s: string)
    requires '成' !in s && '失' !in s && '等' !in s
    ensures Classify(s) == Plain
  {
    LacksHead(s, "成功");
    LacksHead(s, "失败");
    LacksHead(s, "等待");
  }

  lemma SuccessStatus(s: string, i: nat)
    requires Occurs(s, "成功", i)
    ensures Classify(s) == Success
  {
    ContainsAt(s, "成功", i);
  }

  lemma FailureStatus(s: string, i: nat)
    requires '成' !in s && Occurs(s, "失败", i)
    ensures Classify(s) == Failure
  {
    LacksHead(s, "成功");
    ContainsAt(s, "失败", i);
  }

  lemma WaitingStatus(s: string, i: nat)
    requires '成' !in s && '失' !in s && Occurs(s, "等待", i)
    ensures Classify(s) == Waiting
  {
    LacksHead(s, "成功");
    LacksHead(s, "失败");
    ContainsAt(s, "等待", i);
  }

  lemma InitializingIsPlain()
    ensures Classify(StatusInitializing) == Plain
  {
    PlainStatus(StatusInitializing);
  }

  lemma CheckingIsPlain()
    ensures Classify(StatusChecking) == Plain
  {
    PlainStatus(StatusChecking);
  }

  lemma ClaimingIsPlain()
    ensures Classify(StatusClaiming) == Plain
  {
    PlainStatus(StatusClaiming);
  }

  lemma SchedulerErrorIsPlain()
    ensures Classify(StatusSchedulerError) == Plain
  {
    PlainStatus(StatusSchedulerError);
  }

  lemma SuccessStatuses()
    ensures Classify(StatusCheckOk) == Success
    ensures Classify(StatusClaimOk) == Success
  {
    SuccessStatus(StatusCheckOk, 2);
    SuccessStatus(StatusClaimOk, 2);
  }

  lemma CheckFailedIsFailure()
    ensures Classify(StatusCheckFailed) == Failure
  {
    FailureStatus(StatusCheckFailed, 2);
  }

  lemma ClaimFailedIsFailure()
    ensures Classify(StatusClaimFailed) == Failure
  {
    FailureStatus(StatusClaimFailed, 2);
  }

  /** "领取失败，等待重试" mentions waiting but is in the failure class. */
  lemma ClaimRetryIsFailure()
    ensures Classify(StatusClaimRetry) == Failure
  {
    FailureStatus(StatusClaimRetry, 2);
  }

  lemma CheckRetryIsWaiting()
    ensures Classify(StatusCheckRetry) == Waiting
  {
    WaitingStatus(StatusCheckRetry, 0);
  }

  /** The class of every fixed status the program sets. */
  lemma FixedStatusClasses()
    ensures Classify(StatusInitializing) == Plain
    ensures Classify(StatusChecking) == Plain
    ensures Classify(StatusCheckOk) == Success
    ensures Classify(StatusCheckFailed) == Failure
    ensures Classify(StatusCheckRetry) == Waiting
    ensures Classify(StatusClaiming) == Plain
    ensures Classify(StatusClaimOk) == Success
    ensures Classify(StatusClaimFailed) == Failure
    ensures Classify(StatusClaimRetry) == Failure
    ensures Classify(StatusSchedulerError) == Plain
  {
    InitializingIsPlain();
    CheckingIsPlain();
    ClaimingIsPlain();
    SchedulerErrorIsPlain();
    SuccessStatuses();
    CheckFailedIsFailure();
    ClaimFailedIsFailure();
    ClaimRetryIsFailure();
    CheckRetryIsWaiting();
  }

  /** Whatever the remaining time, the waiting status is in the waiting class. */
  lemma WaitingStatusClass(wait: nat)
    ensures Classify(StatusWaiting(wait)) == Waiting
  {
    var d := FormatDuration(Some(Int(wait)));
    var s := StatusWaiting(wait);
    DurationCharacters(Some(Int(wait)));
    assert '成' !in d && '失' !in d;
    assert '成' !in s && '失' !in s;
    WaitingStatus(s, 0);
  }
}
