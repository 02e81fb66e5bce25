/** Who may do what to the oracle, over whole runs. */
module Authority {
  import opened Units
  import OraclePolicy
  import opened Oracle

  /** The contract starts with the rate it is given, on the day it is deployed, never updated. */
  lemma InstantiateIff(governance: Addr, operator: Addr, initialRate: Uint128, now: nat)
    ensures var r := Instantiate(governance, operator, initialRate, now);
      && (r.Ok? <==> initialRate != 0)
      && (r.Ok? ==>
            && r.value.cfg == Config(governance, operator, false) && r.value.pending == None
            && r.value.st == State(initialRate, 0, now / 86_400, initialRate))
      && (r.Err? ==> r.error == Policy(OraclePolicy.ZeroRate))
  {
  }

  /** Whose call the contract accepts: updates from the operator while it is not paused,
      settings from governance, and the hand-over from the proposed address. Each call
      changes its own part of the storage and nothing else. */
  lemma AcceptedFrom(s: Store, now: nat, sender: Addr, msg: Msg)
    ensures var r := Execute(s, now, sender, msg);
      match msg
      case UpdateRate(newRate) =>
        && (r.Ok? ==> r.value == s.(st := r.value.st) && r.value.st.rate == newRate && r.value.st.lastUpdateSec == now)
        && (s.cfg.paused <==> r == Err(Paused))
        && (!s.cfg.paused && sender != s.cfg.operator <==> r == Err(Unauthorized))
      case SetOracleOperator(address) =>
        r == if sender == s.cfg.governance then Ok(s.(cfg := s.cfg.(operator := address))) else Err(Unauthorized)
      case SetPaused(paused) =>
        r == if sender == s.cfg.governance then Ok(s.(cfg := s.cfg.(paused := paused))) else Err(Unauthorized)
      case ProposeGovernance(address) =>
        r == if sender == s.cfg.governance then Ok(s.(pending := Some(address))) else Err(Unauthorized)
      case AcceptGovernance =>
        && (r.Ok? <==> s.pending == Some(sender))
        && (r.Ok? ==> r.value == s.(cfg := s.cfg.(governance := sender), pending := None))
        && (r == Err(NoPendingGovernance) <==> s.pending == None)
  {
  }

  /** A call by anyone but the operator, governance and the proposed governance is refused and
      changes nothing. */
  lemma StrangersChangeNothing(s: Store, c: Call)
    requires c.sender != s.cfg.operator && c.sender != s.cfg.governance && s.pending != Some(c.sender)
    ensures Execute(s, c.time, c.sender, c.msg).Err? && Step(s, c) == s
  {
  }

  // ---------------------------------------------------------------- powers, from the senders alone

  /** The initial governance, or the last address that accepted a proposal. */
  function GovernanceAfter(s: Store, calls: seq<Call>): Addr
    decreases calls, 0
  {
    if calls == [] then s.cfg.governance
    else
      var init, last := calls[..|calls| - 1], calls[|calls| - 1];
      if last.msg.AcceptGovernance? && PendingAfter(s, init) == Some(last.sender) then last.sender
      else GovernanceAfter(s, init)
  }

  /** The address that governance last proposed, unless it has accepted since. */
  function PendingAfter(s: Store, calls: seq<Call>): Option<Addr>
    decreases calls, 1
  {
    if calls == [] then s.pending
    else
      var init, last := calls[..|calls| - 1], calls[|calls| - 1];
      if last.msg.ProposeGovernance? && last.sender == GovernanceAfter(s, init) then Some(last.msg.address)
      else if last.msg.AcceptGovernance? && PendingAfter(s, init) == Some(last.sender) then None
      else PendingAfter(s, init)
  }

  /** The initial operator, or the one last set by governance. */
  function OperatorAfter(s: Store, calls: seq<Call>): Addr {
    if calls == [] then s.cfg.operator
    else
      var init, last := calls[..|calls| - 1], calls[|calls| - 1];
      if last.msg.SetOracleOperator? && last.sender == GovernanceAfter(s, init) then last.msg.address
      else OperatorAfter(s, init)
  }

  /** The initial pause flag, or the one last set by governance. */
  function PausedAfter(s: Store, calls: seq<Call>): bool {
    if calls == [] then s.cfg.paused
    else
      var init, last := calls[..|calls| - 1], calls[|calls| - 1];
      if last.msg.SetPaused? && last.sender == GovernanceAfter(s, init) then last.msg.paused
      else PausedAfter(s, init)
  }

  lemma StepKeepsPowers(s: Store, init: seq<Call>, last: Call, before: Store)
    requires before.cfg == Config(GovernanceAfter(s, init), OperatorAfter(s, init), PausedAfter(s, init))
    requires before.pending == PendingAfter(s, init)
    ensures var calls := init + [last];
      && Step(before, last).cfg == Config(GovernanceAfter(s, calls), OperatorAfter(s, calls), PausedAfter(s, calls))
      && Step(before, last).pending == PendingAfter(s, calls)
  {
    assert (init + [last])[..|init|] == init;
    AcceptedFrom(before, last.time, last.sender, last.msg);
  }

  /** In every run the stored powers follow from who sent what, whatever the rates, the
      times and the refusals of updates. */
  lemma {:induction false} RunPowers(s: Store, calls: seq<Call>)
    ensures Run(s, calls).cfg == Config(GovernanceAfter(s, calls), OperatorAfter(s, calls), PausedAfter(s, calls))
    ensures Run(s, calls).pending == PendingAfter(s, calls)
  {
    if calls != [] {
      var init, last := calls[..|calls| - 1], calls[|calls| - 1];
      RunPowers(s, init);
      StepKeepsPowers(s, init, last, Run(s, init));
      assert init + [last] == calls;
    }
  }

  /** Over any run every accepted update was sent, while the oracle was not paused, by the
      operator in force: the initial one or the one last set by governance. */
  lemma UpdatesAreByTheOperator(s: Store, calls: seq<Call>, i: nat)
    requires i < |calls| && IsAccepted(Run(s, calls[..i]), calls[i])
    ensures calls[i].sender == OperatorAfter(s, calls[..i]) && !PausedAfter(s, calls[..i])
  {
    RunPowers(s, calls[..i]);
  }
}
