/** The map from bearer token to account record that all schedulers share. */
module Store {
  import opened Timestamps
  import opened Accounts
  import opened Scheduler

  /**
   * The credential each token ends up with when the accounts are entered in
   * order, a later account replacing an earlier one with the same token.
   */
  function Registered(accounts: seq<Credential>): map<string, Credential>
    decreases |accounts|
  {
    if accounts == [] then map[]
    else
      var last := accounts[|accounts| - 1];
      Registered(accounts[..|accounts| - 1])[last.authToken := last]
  }

  /** Every token of the list is registered, to the last account that has it, and nothing else is. */
  lemma {:induction false} RegisteredIsLast(accounts: seq<Credential>, k: string)
    ensures k in Registered(accounts) <==> exists j :: 0 <= j < |accounts| && accounts[j].authToken == k
    ensures k in Registered(accounts) ==>
      exists j :: 0 <= j < |accounts| && accounts[j] == Registered(accounts)[k] &&
        forall l :: j < l < |accounts| ==> accounts[l].authToken != k
    decreases |accounts|
  {
    if accounts != [] {
      var n := |accounts| - 1;
      var init := accounts[..n];
      RegisteredIsLast(init, k);
      assert forall j :: 0 <= j < n ==> init[j] == accounts[j];
      if accounts[n].authToken != k && k in Registered(accounts) {
        var j :| 0 <= j < n && init[j] == Registered(init)[k] &&
          forall l :: j < l < n ==> init[l].authToken != k;
        assert accounts[j] == Registered(accounts)[k];
      }
    }
  }

  class AccountStore {
    var states: map<string, AccountState>

    /** Each record sits under its own token, so different tokens hold different records. */
    ghost predicate Valid()
      reads this
    {
      forall k :: k in states ==> states[k].authToken == k
    }

    /** What the display reads: every account's record at this instant. */
    function Snapshots(): map<string, Snapshot>
      reads this, states.Values
    {
      map k | k in states :: states[k].View()
    }

    /** The start-up `forEach`: one fresh record in the initial state per registered token. */
    constructor (accounts: seq<Credential>)
      ensures Valid()
      ensures states.Keys == Registered(accounts).Keys
      ensures forall k :: k in states ==> fresh(states[k])
      ensures forall k :: k in states ==> states[k].View() == Initial(Registered(accounts)[k])
    {
      var m: map<string, AccountState> := map[];
      for j := 0 to |accounts|
        invariant m.Keys == Registered(accounts[..j]).Keys
        invariant forall k :: k in m ==> fresh(m[k]) && m[k].authToken == k
        invariant forall k :: k in m ==> m[k].View() == Initial(Registered(accounts[..j])[k])
      {
        var entry := new AccountState(accounts[j]);
        m := m[accounts[j].authToken := entry];
        assert accounts[..j + 1][..j] == accounts[..j];
      }
      assert accounts[..|accounts|] == accounts;
      states := m;
    }

    /**
     * One scheduler iteration for the account with `token`: its record
     * changes as the iteration says, and every other account's record stays
     * as it was.
     */
    method StepAccount(token: string, i: StepInput, p: Parsers) returns (events: seq<Event>)
      requires Valid() && token in states
      modifies states[token]
      ensures Valid()
      ensures (states[token].View(), events) == Iteration(old(states[token].View()), i, p)
      ensures Snapshots() == old(Snapshots())[token := states[token].View()]
    {
      events := ScheduleStep(states[token], i, p);
      forall k | k in states && k != token
        ensures states[k].View() == old(states[k].View())
      {
        assert states[k] != states[token];
      }
    }
  }
}
