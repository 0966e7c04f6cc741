/**
 * The per-account state record and its updates by a check of the next
 * claim time and by a claim.
 */
module Accounts {
  import opened Wrappers
  import opened Js
  import opened Timestamps
  import opened Status

  /** An entry of the account list: a display name and the bearer token. */
  datatype Credential = Credential(name: string, authToken: string)

  /** The value of an account record at one instant, as the display reads it. */
  datatype Snapshot = Snapshot(
    name: string,
    authToken: string,
    status: string,
    lastClaimTime: Option<int>,
    nextClaimTime: Option<int>,
    claimCount: nat,
    balance: Value,
    error: Option<string>)

  const AwardField := "next_daily_award"
  const BalanceField := "balance"
  const ParseFailurePrefix := "无法解析下次领取时间: "

  /** The record created for an account at start-up. */
  function Initial(c: Credential): (a: Snapshot)
    ensures a.name == c.name && a.authToken == c.authToken
    ensures a.claimCount == 0 && a.balance == Number(0)
    ensures a.lastClaimTime == None && a.nextClaimTime == None && a.error == None
    ensures a.status == StatusInitializing && Classify(a.status) == Plain
  {
    InitializingIsPlain();
    Snapshot(c.name, c.authToken, StatusInitializing, None, None, 0, Number(0), None)
  }

  /**
   * What getNextClaimTime makes of the check response: the normalised next
   * claim time, or the message of the error it catches.
   */
  function CheckOutcome(response: Fetched, p: Parsers): (r: Result<int>)
    ensures r.Ok? ==> r.value != 0
    ensures r.Ok? <==> response.Received? && response.body.Record? &&
                       NormalizeAward(Get(response.body.fields, AwardField), p).Some?
    ensures r.Ok? ==> r.value == NormalizeAward(Get(response.body.fields, AwardField), p).value
    ensures response.Failed? ==> r == Err(response.message)
    ensures response == Received(NullBody) ==> r == Err(NullAccessMessage(AwardField))
    ensures response.Received? && response.body.Record? &&
            NormalizeAward(Get(response.body.fields, AwardField), p).None? ==>
              r == Err(ParseFailurePrefix + response.body.json)
  {
    match response
    case Failed(m) => Err(m)
    case Received(NullBody) => Err(NullAccessMessage(AwardField))
    case Received(Record(fields, json)) =>
      match NormalizeAward(Get(fields, AwardField), p)
      case Some(t) => Ok(t)
      case None => Err(ParseFailurePrefix + json)
  }

  /** The record after getNextClaimTime with the given outcome. */
  function AfterCheck(a: Snapshot, outcome: Result<int>): (b: Snapshot)
    ensures b.name == a.name && b.authToken == a.authToken
    ensures b.lastClaimTime == a.lastClaimTime && b.claimCount == a.claimCount && b.balance == a.balance
    ensures outcome.Ok? ==> b.nextClaimTime == Some(outcome.value) && b.error == None
                            && b.status == StatusCheckOk && Classify(b.status) == Success
    ensures outcome.Err? ==> b.nextClaimTime == a.nextClaimTime && b.error == Some(outcome.message)
                             && b.status == StatusCheckFailed && Classify(b.status) == Failure
  {
    SuccessStatuses();
    CheckFailedIsFailure();
    match outcome
    case Ok(t) => a.(nextClaimTime := Some(t), status := StatusCheckOk, error := None)
    case Err(m) => a.(status := StatusCheckFailed, error := Some(m))
  }

  /** claimReward reports success exactly for a readable 2xx body. */
  predicate ClaimSucceeded(response: Fetched) {
    response.Received? && response.body.Record?
  }

  /** The record after claimReward, with the clock reading `now` taken after the response arrived. */
  function AfterClaim(a: Snapshot, response: Fetched, now: int): (b: Snapshot)
    ensures b.name == a.name && b.authToken == a.authToken && b.nextClaimTime == a.nextClaimTime
    ensures b.claimCount == a.claimCount + (if response.Received? then 1 else 0)
    ensures b.lastClaimTime == (if response.Received? then Some(now) else a.lastClaimTime)
    ensures ClaimSucceeded(response) ==>
      && b.error == None
      && b.status == StatusClaimOk && Classify(b.status) == Success
      && b.balance == (if Truthy(Get(response.body.fields, BalanceField))
                       then Get(response.body.fields, BalanceField) else a.balance)
    ensures !ClaimSucceeded(response) ==>
      && b.balance == a.balance
      && b.status == StatusClaimFailed && Classify(b.status) == Failure
      && b.error == Some(if response.Failed? then response.message else NullAccessMessage(BalanceField))
  {
    SuccessStatuses();
    ClaimFailedIsFailure();
    match response
    case Failed(m) => a.(status := StatusClaimFailed, error := Some(m))
    case Received(NullBody) =>
      a.(lastClaimTime := Some(now), claimCount := a.claimCount + 1,
         status := StatusClaimFailed, error := Some(NullAccessMessage(BalanceField)))
    case Received(Record(fields, _)) =>
      var reported := Get(fields, BalanceField);
      a.(lastClaimTime := Some(now), claimCount := a.claimCount + 1,
         balance := if Truthy(reported) then reported else a.balance,
         status := StatusClaimOk, error := None)
  }

  /**
   * A claim whose 2xx body is JSON `null` is reported as failed although
   * the count and the last claim time were already updated: a failed claim
   * leaves them unchanged only when the request failed or its body
   * could not be decoded.
   */
  lemma NullBodyClaimCounted(a: Snapshot, now: int)
    ensures var b := AfterClaim(a, Received(NullBody), now);
      && !ClaimSucceeded(Received(NullBody))
      && b.claimCount == a.claimCount + 1
      && b.lastClaimTime == Some(now)
      && b.error == Some("Cannot read properties of null (reading 'balance')")
  {
    assert NullAccessMessage(BalanceField) == "Cannot read properties of null (reading 'balance')";
  }

  /**
   * The account record that the source shares, by reference, between the
   * state map and the account's scheduler.
   */
  class AccountState {
    const name: string
    const authToken: string
    var status: string
    var lastClaimTime: Option<int>
    var nextClaimTime: Option<int>
    var claimCount: nat
    var balance: Value
    var error: Option<string>

    function View(): Snapshot
      reads this
    {
      Snapshot(name, authToken, status, lastClaimTime, nextClaimTime, claimCount, balance, error)
    }

    constructor (c: Credential)
      ensures View() == Initial(c)
    {
      name := c.name;
      authToken := c.authToken;
      status := StatusInitializing;
      lastClaimTime := None;
      nextClaimTime := None;
      claimCount := 0;
      balance := Number(0);
      error := None;
    }

    /**
     * getNextClaimTime: asks for the next claim time, stores it on success,
     * and returns it (None on any failure).
     */
    method GetNextClaimTime(response: Fetched, p: Parsers) returns (next: Option<int>)
      modifies this
      ensures View() == AfterCheck(old(View()), CheckOutcome(response, p))
      ensures next == (if CheckOutcome(response, p).Ok? then Some(CheckOutcome(response, p).value) else None)
    {
      status := StatusChecking;
      match response
      case Failed(m) =>
        status := StatusCheckFailed;
        error := Some(m);
        next := None;
      case Received(NullBody) =>
        status := StatusCheckFailed;
        error := Some(NullAccessMessage(AwardField));
        next := None;
      case Received(Record(fields, json)) =>
        var nextTimestamp := NormalizeAward(Get(fields, AwardField), p);
        if nextTimestamp.None? {
          status := StatusCheckFailed;
          error := Some(ParseFailurePrefix + json);
          next := None;
        } else {
          nextClaimTime := nextTimestamp;
          status := StatusCheckOk;
          error := None;
          next := nextTimestamp;
        }
    }

    /**
     * claimReward: submits a claim and updates the record; `now` is the
     * clock reading taken after the response arrived.
     */
    method ClaimReward(response: Fetched, now: int) returns (success: bool)
      modifies this
      ensures View() == AfterClaim(old(View()), response, now)
      ensures success == ClaimSucceeded(response)
    {
      status := StatusClaiming;
      match response
      case Failed(m) =>
        status := StatusClaimFailed;
        error := Some(m);
        success := false;
      case Received(body) =>
        lastClaimTime := Some(now);
        claimCount := claimCount + 1;
        match body
        case NullBody =>
          status := StatusClaimFailed;
          error := Some(NullAccessMessage(BalanceField));
          success := false;
        case Record(fields, _) =>
          var reported := Get(fields, BalanceField);
          balance := if Truthy(reported) then reported else balance;
          status := StatusClaimOk;
          error := None;
          success := true;
    }
  }
}
