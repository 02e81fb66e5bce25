/** One tick of the operator service: consensus read, policy pre-check, broadcast, bounded
    inclusion polling, event or State confirmation, and the liveness record. */
module Service {
  import opened Units
  import opened OraclePolicy
  import opened Confirm
  import opened TxPolling
  import opened ChainHistory
  import Consensus
  import Oracle

  datatype TickAction =
    | SkipPaused
    | SkipEqualRate
    | SkipPolicy(error: PolicyError)
    | Submit(dayId: nat, baseline: Uint128, heartbeat: bool)

  function DecideTickAction(proposed: Uint128, state: Oracle.StateResponse, now: nat): TickAction {
    if state.paused then SkipPaused
    else
      match CheckRateUpdate(now, state.lastUpdateSec, state.rate, proposed, state.utcDayId, state.dayBaselineRate)
      case Ok((dayId, baseline)) => Submit(dayId, baseline, proposed == state.rate)
      case Err(e) => if proposed == state.rate && e.UpdateTooSoon? then SkipEqualRate else SkipPolicy(e)
  }

  /** The off-chain pre-check is the contract's own check: from the operator, at the same
      time and state, the service submits exactly what the contract would accept. */
  lemma PreCheckIsTheContract(s: Oracle.Store, proposed: Uint128, now: nat)
    ensures DecideTickAction(proposed, Oracle.QueryState(s), now).Submit? <==>
            Oracle.ApplyUpdate(s, now, s.cfg.operator, proposed).Ok?
    ensures DecideTickAction(proposed, Oracle.QueryState(s), now).Submit? ==>
              var a := DecideTickAction(proposed, Oracle.QueryState(s), now);
              Oracle.ApplyUpdate(s, now, s.cfg.operator, proposed).value.st
              == Oracle.State(proposed, now, a.dayId, a.baseline)
  {
  }

  /** When each action is taken. A paused oracle is left alone whatever the rate, an unchanged
      rate inside the throttle is no policy failure, and everything else is a submission or
      the policy's refusal. */
  lemma TickActionMeaning(proposed: Uint128, state: Oracle.StateResponse, now: nat)
    ensures var a := DecideTickAction(proposed, state, now);
      var throttled := 0 < state.lastUpdateSec && now < state.lastUpdateSec + MIN_UPDATE_INTERVAL;
      var base := RollUtcDay(now, state.utcDayId, state.dayBaselineRate, state.rate).1;
      && (a.SkipPaused? <==> state.paused)
      && (a.SkipEqualRate? <==> !state.paused && proposed == state.rate != 0 && throttled)
      && (a.Submit? <==>
            && !state.paused && !throttled && proposed != 0 && state.rate <= proposed
            && (0 < state.lastUpdateSec ==> CapInRange(base) && WithinCap(proposed, base)))
      && (a.Submit? ==> (a.heartbeat <==> proposed == state.rate))
  {
    AcceptedIff(now, state.lastUpdateSec, state.rate, proposed, state.utcDayId, state.dayBaselineRate);
  }

  /** Acceptance is monotone in time: what the service decides to submit at its local time
      `n`, read from a reachable state, the contract accepts at every block time from `n` on,
      exactly when the oracle was never updated or the rate's cap product fits 128 bits. */
  lemma SubmitStaysAcceptable(s: Oracle.Store, start: nat, calls: seq<Oracle.Call>, proposed: Uint128, n: nat)
    requires Oracle.Fresh(s, start) && Oracle.Timely(start, calls)
    requires DecideTickAction(proposed, Oracle.QueryState(Oracle.Run(s, calls)), n).Submit?
    ensures var o := Oracle.Run(s, calls);
      (forall t: nat :: t >= n ==> Oracle.ApplyUpdate(o, t, o.cfg.operator, proposed).Ok?)
      <==> (o.st.lastUpdateSec == 0 || CapInRange(o.st.rate))
  {
    Oracle.AcceptanceIsMonotone(s, start, calls, n, proposed);
  }

  // ---------------------------------------------------------------- liveness

  /** When the last confirmed update was recorded, on the process clock. */
  class LivenessTracker {
    const started: nat
    var lastSuccess: Option<nat>

    constructor (now: nat)
      ensures started == now && lastSuccess == None
    {
      started := now;
      lastSuccess := None;
    }

    method RecordSuccessfulBroadcast(now: nat)
      modifies this
      ensures lastSuccess == Some(now)
    {
      lastSuccess := Some(now);
    }

    function SilenceSinceLastBroadcast(now: nat): nat
      reads this
    {
      Silence(started, lastSuccess, now)
    }

    predicate ShouldAlert(now: nat, maxSilence: nat)
      reads this
    {
      SilenceSinceLastBroadcast(now) > maxSilence
    }
  }

  /** Time since the last confirmed update, or since the start of the process. */
  function Silence(started: nat, last: Option<nat>, now: nat): nat {
    match last
    case Some(t) => SaturatingSub(now, t)
    case None => SaturatingSub(now, started)
  }

  // ---------------------------------------------------------------- what an LCD may answer

  /** A snapshot of the oracle's state at some height of the chain, however old. */
  ghost predicate IsSnapshot(h: History, state: Oracle.StateResponse) {
    exists k: nat :: k <= |h.txs| && state == Oracle.QueryState(StateAt(h, k))
  }

  /** An answer about a transaction is about an included one, with its code; its events are
      the ones the chain recorded, or stripped of everything that groups. */
  ghost predicate IsHonestSummary(h: History, s: TxSummary) {
    exists k: nat ::
      && k < |h.txs|
      && EqIgnoreCase(h.txs[k].hash, s.txhash)
      && s.code == h.txs[k].code
      && (s.events == h.txs[k].events || Groups(s.events) == [])
  }

  lemma EqIgnoreCaseChain(a: string, b: string, c: string)
    requires EqIgnoreCase(a, b) && EqIgnoreCase(b, c)
    ensures EqIgnoreCase(a, c)
  {
  }

  /** The event path: an included transaction with this tick's hash, code 0 and a matching
      event is an accepted update to the proposal. When the hash was not on chain before the
      broadcast, it is later than any update that the earlier snapshot knew of. */
  lemma EventPathIsSound(h: History, contract: string, prior: nat, sent: nat, hash: string, summary: TxSummary,
                         proposed: Uint128)
    returns (k: nat)
    requires Valid(h, contract) && prior <= sent <= |h.txs|
    requires forall i :: 0 <= i < sent ==> !EqIgnoreCase(h.txs[i].hash, hash)
    requires EqIgnoreCase(summary.txhash, hash) && summary.code == 0 && IsHonestSummary(h, summary)
    requires Outcome(contract, proposed, Groups(summary.events)) == Ok(Matched)
    ensures sent <= k && IsUpdate(h, k, proposed, StateAt(h, prior).st.lastUpdateSec)
    ensures EqIgnoreCase(h.txs[k].hash, hash)
  {
    k :| k < |h.txs| && EqIgnoreCase(h.txs[k].hash, summary.txhash) && summary.code == h.txs[k].code
         && (summary.events == h.txs[k].events || Groups(summary.events) == []);
    EqIgnoreCaseChain(h.txs[k].hash, summary.txhash, hash);
    EventCheckIsExact(contract, h.txs[k], proposed);
    TxEffect(h, contract, k);
    LastUpdateMonotone(h, contract, prior, k);
  }

  /** The State path: any snapshot, however lagged, that shows the proposal and a later
      update time than the prior snapshot proves an accepted update to the proposal. */
  lemma StatePathIsSound(h: History, contract: string, prior: nat, state: Oracle.StateResponse, proposed: Uint128)
    returns (k: nat)
    requires Valid(h, contract) && prior <= |h.txs| && IsSnapshot(h, state)
    requires StateMatchesIntendedUpdate(StateAt(h, prior).st.lastUpdateSec, state, proposed).Ok?
    ensures prior <= k && IsUpdate(h, k, proposed, StateAt(h, prior).st.lastUpdateSec)
  {
    var j: nat :| j <= |h.txs| && state == Oracle.QueryState(StateAt(h, j));
    if j <= prior {
      LastUpdateMonotone(h, contract, j, prior);
    }
    k := UpdateBetween(h, contract, prior, j);
  }

  /** The State path is complete: a snapshot at or after the update, before any later one,
      passes the check. */
  lemma StatePathIsComplete(h: History, contract: string, k: nat, j: nat, proposed: Uint128, prior: nat)
    requires Valid(h, contract) && IsUpdate(h, k, proposed, prior) && k < j <= |h.txs|
    requires forall i :: k < i < j ==> HasNoUpdate(h.txs[i])
    ensures StateMatchesIntendedUpdate(prior, Oracle.QueryState(StateAt(h, j)), proposed) == Ok(())
  {
    NoUpdateBetween(h, contract, k + 1, j);
    UpdateShows(h, k, proposed, prior);
  }

  // ---------------------------------------------------------------- one tick

  datatype LcdError = LcdUnavailable

  const STATE_CONFIRM_RETRY_ATTEMPTS: nat := 3

  datatype TickError =
    | ConsensusFailed(consensus: Consensus.ConsensusError) | StateUnavailable
    | BroadcastFailed(broadcast: BroadcastError) | NotIncluded(poll: PollError)
    | EventsDisprove(mismatch: MatchError) | StateNotConfirmed(last: FallbackError)

  datatype FallbackError = Unavailable | Disagrees(e: StateError)

  /** One of three State answers shows the update. */
  ghost predicate StateConfirms(states: nat -> Result<Oracle.StateResponse, LcdError>, priorLastUpdate: nat,
                                proposed: Uint128) {
    exists i: nat :: i < 3 && states(i).Ok?
                     && StateMatchesIntendedUpdate(priorLastUpdate, states(i).value, proposed).Ok?
  }

  /** Retries the State query and accepts the first snapshot that shows the update. */
  method ConfirmStateWithRetry(states: nat -> Result<Oracle.StateResponse, LcdError>, priorLastUpdate: nat,
                               proposed: Uint128)
    returns (r: Result<nat, FallbackError>)
    ensures r.Ok? <==> StateConfirms(states, priorLastUpdate, proposed)
    ensures r.Ok? ==> r.value < STATE_CONFIRM_RETRY_ATTEMPTS && states(r.value).Ok?
                      && StateMatchesIntendedUpdate(priorLastUpdate, states(r.value).value, proposed).Ok?
    ensures r.Err? ==>
              var last := states(STATE_CONFIRM_RETRY_ATTEMPTS - 1);
              r.error == if last.Err? then Unavailable
                         else Disagrees(StateMatchesIntendedUpdate(priorLastUpdate, last.value, proposed).error)
  {
    var lastErr := Unavailable;
    for attempt := 0 to STATE_CONFIRM_RETRY_ATTEMPTS
      invariant forall i: nat :: i < attempt ==>
                  states(i).Err? || StateMatchesIntendedUpdate(priorLastUpdate, states(i).value, proposed).Err?
      invariant attempt > 0 ==>
                  lastErr == if states(attempt - 1).Err? then Unavailable
                             else Disagrees(StateMatchesIntendedUpdate(priorLastUpdate, states(attempt - 1).value,
                                                                       proposed).error)
    {
      match states(attempt) {
        case Ok(state) =>
          var m := StateMatchesIntendedUpdate(priorLastUpdate, state, proposed);
          if m.Ok? {
            return Ok(attempt);
          }
          lastErr := Disagrees(m.error);
        case Err(_) => lastErr := Unavailable;
      }
    }
    r := Err(lastErr);
  }

  /** Everything outside the service's control during one tick, as plain data. */
  datatype Environment = Environment(
    rates: seq<Result<Uint128, Consensus.ReadError>>,
    prior: Result<Oracle.StateResponse, LcdError>,
    localTime: nat,
    first: Result<string, BroadcastError>,
    second: Result<string, BroadcastError>,
    pollStart: nat,
    answer: nat -> Answer,
    delay: nat -> nat,
    lag: nat -> nat,
    states: nat -> Result<Oracle.StateResponse, LcdError>,
    endTime: nat)

  /** The LCD answers the first State query from the chain before `sent`, every later query
      from some height of the chain, and the broadcast hash is new. */
  ghost predicate HonestLcd(h: History, sent: nat, env: Environment) {
    && sent <= |h.txs|
    && (env.prior.Ok? ==> exists k: nat :: k <= sent && env.prior.value == Oracle.QueryState(StateAt(h, k)))
    && (forall i: nat :: env.states(i).Ok? ==> IsSnapshot(h, env.states(i).value))
    && (Broadcast(env.first, env.second).Ok? ==>
          var hash := Broadcast(env.first, env.second).value;
          && (forall k: nat :: k < sent ==> !EqIgnoreCase(h.txs[k].hash, hash))
          && (forall i: nat :: env.answer(i).Found? && EqIgnoreCase(env.answer(i).summary.txhash, hash) ==>
                IsHonestSummary(h, env.answer(i).summary)))
  }

  lemma MatchedIsSound(h: History, contract: string, sent: nat, env: Environment, summary: TxSummary, proposed: Uint128)
    requires Valid(h, contract) && HonestLcd(h, sent, env) && env.prior.Ok? && Broadcast(env.first, env.second).Ok?
    requires EqIgnoreCase(summary.txhash, Broadcast(env.first, env.second).value) && summary.code == 0
    requires exists i: nat :: env.answer(i) == Found(summary)
    requires Outcome(contract, proposed, Groups(summary.events)) == Ok(Matched)
    ensures exists k: nat :: IsUpdate(h, k, proposed, env.prior.value.lastUpdateSec)
  {
    var p: nat :| p <= sent && env.prior.value == Oracle.QueryState(StateAt(h, p));
    var k := EventPathIsSound(h, contract, p, sent, Broadcast(env.first, env.second).value, summary, proposed);
  }

  lemma SnapshotIsSound(h: History, contract: string, sent: nat, env: Environment, i: nat, proposed: Uint128)
    requires Valid(h, contract) && HonestLcd(h, sent, env) && env.prior.Ok? && env.states(i).Ok?
    requires StateMatchesIntendedUpdate(env.prior.value.lastUpdateSec, env.states(i).value, proposed).Ok?
    ensures exists k: nat :: IsUpdate(h, k, proposed, env.prior.value.lastUpdateSec)
  {
    var p: nat :| p <= sent && env.prior.value == Oracle.QueryState(StateAt(h, p));
    var k := StatePathIsSound(h, contract, p, env.states(i).value, proposed);
  }

  datatype TickReport = Skipped(action: TickAction) | Confirmed(hash: string, proposed: Uint128)

  /** What it takes to confirm: the broadcast went through, the last answer of the poll is
      its transaction, included with code 0, and either the events match, or there are no
      groups and a State query matches. */
  ghost predicate Confirms(contract: string, proposed: Uint128, priorLastUpdate: nat, env: Environment, queries: nat) {
    && Broadcast(env.first, env.second).Ok?
    && queries > 0
    && var answer := env.answer(queries - 1);
    && answer.Found?
    && EqIgnoreCase(answer.summary.txhash, Broadcast(env.first, env.second).value)
    && answer.summary.code == 0
    && var outcome := Outcome(contract, proposed, Groups(answer.summary.events));
    (outcome == Ok(Matched) || (outcome == Ok(EventsAbsent) && StateConfirms(env.states, priorLastUpdate, proposed)))
  }

  /** Why a submission is not confirmed, when it is not. */
  ghost function SubmitError(contract: string, proposed: Uint128, priorLastUpdate: nat, env: Environment, queries: nat)
    : TickError
  {
    var broadcast := Broadcast(env.first, env.second);
    if broadcast.Err? then BroadcastFailed(broadcast.error)
    else if queries == 0 then NotIncluded(EmptyHash)
    else if Pending(env.answer(queries - 1)) then NotIncluded(Timeout)
    else
      match Decision(broadcast.value, env.answer(queries - 1))
      case Err(e) => NotIncluded(e)
      case Ok(summary) => ConfirmError(Outcome(contract, proposed, Groups(summary.events)), proposed, env.states(2))
  }

  /** What the events, or the last State answer, had against it. */
  function ConfirmError(outcome: Result<EventMatch, MatchError>, proposed: Uint128,
                        last: Result<Oracle.StateResponse, LcdError>): TickError
  {
    match outcome
    case Err(e) => EventsDisprove(e)
    case Ok(_) =>
      if last.Err? then StateNotConfirmed(Unavailable)
      else StateNotConfirmed(Disagrees(if last.value.rate != proposed then StateRateMismatch else NotAdvanced))
  }

  /** Broadcasts, waits for inclusion and confirms. Succeeds exactly when the transaction is
      confirmed within the queries of the poll, and then the chain holds the update. */
  method SubmitAndConfirm(contract: string, confirm: ConfirmConfig, proposed: Uint128, prior: Oracle.StateResponse,
                          ghost h: History, ghost sent: nat, env: Environment)
    returns (r: Result<string, TickError>, queries: nat)
    requires confirm.pollInterval >= MILLISECOND
    requires Valid(h, contract) && HonestLcd(h, sent, env) && env.prior == Ok(prior)
    ensures queries <= confirm.timeout / confirm.pollInterval + 2
    ensures forall k: nat :: k < queries - 1 ==> Pending(env.answer(k))
    ensures r.Ok? <==> Confirms(contract, proposed, prior.lastUpdateSec, env, queries)
    ensures r.Ok? ==> Broadcast(env.first, env.second) == Ok(r.value)
    ensures r.Ok? ==> exists k: nat :: IsUpdate(h, k, proposed, prior.lastUpdateSec)
    ensures r.Err? ==> r.error == SubmitError(contract, proposed, prior.lastUpdateSec, env, queries)
  {
    queries := 0;
    var broadcast := Broadcast(env.first, env.second);
    if broadcast.Err? {
      return Err(BroadcastFailed(broadcast.error)), queries;
    }
    var hash := broadcast.value;
    var included, finish;
    ghost var times;
    included, queries, finish, times := WaitForDeliverTx(hash, confirm, env.pollStart, env.answer, env.delay, env.lag);
    if included.Err? {
      return Err(NotIncluded(included.error)), queries;
    }
    var summary := included.value;
    var matched := OracleTxEventsMatchUpdate(contract, proposed, summary.events);
    match matched {
      case Ok(Matched) =>
        MatchedIsSound(h, contract, sent, env, summary, proposed);
        r := Ok(hash);
      case Ok(EventsAbsent) =>
        var confirmed := ConfirmStateWithRetry(env.states, prior.lastUpdateSec, proposed);
        if confirmed.Err? {
          return Err(StateNotConfirmed(confirmed.error)), queries;
        }
        SnapshotIsSound(h, contract, sent, env, confirmed.value, proposed);
        r := Ok(hash);
      case Err(e) =>
        r := Err(EventsDisprove(e));
    }
  }

  /** What the policy says once both reads have succeeded. */
  function Decided(env: Environment): Option<TickAction> {
    if Consensus.RateConsensus(env.rates).Ok? && env.prior.Ok?
    then Some(DecideTickAction(Consensus.RateConsensus(env.rates).value, env.prior.value, env.localTime))
    else None
  }

  /** One tick. Liveness is recorded exactly when the tick reports a confirmed update, and
      then the chain holds an accepted update to this tick's consensus rate whose time is
      above the prior snapshot's, whatever snapshots the LCD served. Skips, failed reads,
      failed or uncertain inclusion and mismatches never record. */
  method RunOnce(contract: string, confirm: ConfirmConfig, ghost h: History, ghost sent: nat, env: Environment,
                 tracker: LivenessTracker)
    returns (r: Result<TickReport, TickError>, queries: nat)
    requires confirm.pollInterval >= MILLISECOND
    requires Valid(h, contract) && HonestLcd(h, sent, env)
    modifies tracker
    ensures tracker.lastSuccess == if r.Ok? && r.value.Confirmed? then Some(env.endTime) else old(tracker.lastSuccess)
    ensures queries <= confirm.timeout / confirm.pollInterval + 2
    ensures forall k: nat :: k < queries - 1 ==> Pending(env.answer(k))
    ensures r.Ok? && r.value.Confirmed? <==>
              && Decided(env).Some? && Decided(env).value.Submit?
              && Confirms(contract, Consensus.RateConsensus(env.rates).value, env.prior.value.lastUpdateSec, env,
                          queries)
    ensures r == Err(StateUnavailable) <==> Consensus.RateConsensus(env.rates).Ok? && env.prior.Err?
    ensures Consensus.RateConsensus(env.rates).Err? ==>
              r == Err(ConsensusFailed(Consensus.RateConsensus(env.rates).error)) && queries == 0
    ensures r.Err? && Decided(env).Some? ==>
              r.error == SubmitError(contract, Consensus.RateConsensus(env.rates).value, env.prior.value.lastUpdateSec,
                                     env, queries)
    ensures r.Ok? && r.value.Skipped? <==> Decided(env).Some? && !Decided(env).value.Submit?
    ensures r.Ok? && r.value.Skipped? ==> r.value.action == Decided(env).value && queries == 0
    ensures r.Ok? && r.value.Confirmed? ==>
              && Consensus.RateConsensus(env.rates) == Ok(r.value.proposed)
              && Broadcast(env.first, env.second) == Ok(r.value.hash)
              && exists k: nat :: IsUpdate(h, k, r.value.proposed, env.prior.value.lastUpdateSec)
  {
    queries := 0;
    var consensus := Consensus.RateConsensus(env.rates);
    if consensus.Err? {
      return Err(ConsensusFailed(consensus.error)), queries;
    }
    var proposed := consensus.value;
    if env.prior.Err? {
      return Err(StateUnavailable), queries;
    }
    var state := env.prior.value;
    var action := DecideTickAction(proposed, state, env.localTime);
    if !action.Submit? {
      return Ok(Skipped(action)), queries;
    }
    var submitted;
    submitted, queries := SubmitAndConfirm(contract, confirm, proposed, state, h, sent, env);
    if submitted.Err? {
      return Err(submitted.error), queries;
    }
    tracker.RecordSuccessfulBroadcast(env.endTime);
    r := Ok(Confirmed(submitted.value, proposed));
  }

  // ---------------------------------------------------------------- the operator loop

  /** One turn: the alert is decided at `checked`, then the tick runs; a tick cut off by its
      time limit ends without a report. */
  datatype Turn = Turn(checked: nat, cutOff: bool, env: Environment)

  type Report = Option<Result<TickReport, TickError>>

  predicate IsConfirmed(r: Report) {
    r.Some? && r.value.Ok? && r.value.value.Confirmed?
  }

  /** When the last of the first `i` turns that confirmed an update ended. */
  function LastConfirmed(turns: seq<Turn>, reports: seq<Report>, i: nat): Option<nat>
    requires i <= |turns| && i <= |reports|
  {
    if i == 0 then None
    else if IsConfirmed(reports[i - 1]) then Some(turns[i - 1].env.endTime)
    else LastConfirmed(turns, reports, i - 1)
  }

  /** The turn confirmed an update that the chain holds. */
  ghost predicate IsBacked(h: History, turn: Turn, r: Report) {
    && IsConfirmed(r) && turn.env.prior.Ok?
    && exists k: nat :: IsUpdate(h, k, r.value.value.proposed, turn.env.prior.value.lastUpdateSec)
  }

  lemma {:induction false} LastConfirmedIsATurn(turns: seq<Turn>, reports: seq<Report>, i: nat) returns (j: nat)
    requires i <= |reports| && i <= |turns| && LastConfirmed(turns, reports, i).Some?
    ensures j < i && IsConfirmed(reports[j]) && LastConfirmed(turns, reports, i) == Some(turns[j].env.endTime)
  {
    if IsConfirmed(reports[i - 1]) {
      j := i - 1;
    } else {
      j := LastConfirmedIsATurn(turns, reports, i - 1);
    }
  }

  /** What the report of a turn says: nothing exactly when the tick was cut off; a confirmed
      update, which the chain then holds, exactly when the policy submitted and the submission
      was confirmed after `queries` polls; a skip exactly when the policy skipped. */
  ghost predicate IsReport(contract: string, confirm: ConfirmConfig, h: History, turn: Turn, queries: nat, r: Report) {
    var d := Decided(turn.env);
    && (r == None <==> turn.cutOff)
    && IsPolled(confirm, turn.env, queries)
    && (!turn.cutOff ==>
          && (IsConfirmed(r) <==>
                && d.Some? && d.value.Submit?
                && Confirms(contract, Consensus.RateConsensus(turn.env.rates).value, turn.env.prior.value.lastUpdateSec,
                            turn.env, queries))
          && (r.value.Ok? && r.value.value.Skipped? <==> d.Some? && !d.value.Submit?))
    && (IsConfirmed(r) ==> IsBacked(h, turn, r))
  }

  /** Few queries, all but the last answered as pending. */
  ghost predicate IsPolled(confirm: ConfirmConfig, env: Environment, queries: nat) {
    && (confirm.pollInterval > 0 ==> queries <= confirm.timeout / confirm.pollInterval + 2)
    && forall k: nat :: k + 1 < queries ==> Pending(env.answer(k))
  }

  /** The alert is due: the last confirmed update, or the start, is more than `maxSilence` ago. */
  predicate IsDue(maxSilence: nat, started: nat, turns: seq<Turn>, reports: seq<Report>, i: nat)
    requires i < |turns| && i <= |reports|
  {
    Silence(started, LastConfirmed(turns, reports, i), turns[i].checked) > maxSilence
  }

  /** What the first `|reports|` turns have left. */
  ghost predicate IsLog(contract: string, confirm: ConfirmConfig, h: History, maxSilence: nat, started: nat,
                        turns: seq<Turn>, queries: seq<nat>, alerts: seq<bool>, reports: seq<Report>) {
    && |alerts| == |queries| == |reports| <= |turns|
    && (forall i :: 0 <= i < |alerts| ==> alerts[i] == IsDue(maxSilence, started, turns, reports, i))
    && (forall i :: 0 <= i < |reports| ==> IsReport(contract, confirm, h, turns[i], queries[i], reports[i]))
  }

  lemma {:induction false} LastConfirmedAppend(turns: seq<Turn>, reports: seq<Report>, r: Report, i: nat)
    requires i <= |reports| && i <= |turns|
    ensures LastConfirmed(turns, reports + [r], i) == LastConfirmed(turns, reports, i)
  {
    if i > 0 {
      LastConfirmedAppend(turns, reports, r, i - 1);
    }
  }

  lemma LogAppend(contract: string, confirm: ConfirmConfig, h: History, maxSilence: nat, started: nat, turns: seq<Turn>,
                  queries: seq<nat>, alerts: seq<bool>, reports: seq<Report>, q: nat, r: Report)
    requires IsLog(contract, confirm, h, maxSilence, started, turns, queries, alerts, reports) && |reports| < |turns|
    requires IsReport(contract, confirm, h, turns[|reports|], q, r)
    ensures var alert := IsDue(maxSilence, started, turns, reports, |reports|);
      IsLog(contract, confirm, h, maxSilence, started, turns, queries + [q], alerts + [alert], reports + [r])
  {
    forall j: nat | j <= |reports|
      ensures IsDue(maxSilence, started, turns, reports + [r], j) == IsDue(maxSilence, started, turns, reports, j)
    {
      LastConfirmedAppend(turns, reports, r, j);
    }
  }

  method TakeTurn(contract: string, confirm: ConfirmConfig, maxSilence: nat, ghost h: History, ghost sent: nat,
                  turn: Turn, tracker: LivenessTracker)
    returns (alert: bool, report: Report, queries: nat)
    requires confirm.pollInterval >= MILLISECOND
    requires Valid(h, contract) && HonestLcd(h, sent, turn.env)
    modifies tracker
    ensures alert <==> Silence(tracker.started, old(tracker.lastSuccess), turn.checked) > maxSilence
    ensures IsReport(contract, confirm, h, turn, queries, report)
    ensures tracker.lastSuccess == if IsConfirmed(report) then Some(turn.env.endTime) else old(tracker.lastSuccess)
  {
    alert := tracker.ShouldAlert(turn.checked, maxSilence);
    report, queries := None, 0;
    if !turn.cutOff {
      var r;
      r, queries := RunOnce(contract, confirm, h, sent, turn.env, tracker);
      report := Some(r);
    }
  }

  /** The loop of checks and ticks, from a fresh tracker. */
  method OperatorLoop(contract: string, confirm: ConfirmConfig, maxSilence: nat, ghost h: History,
                      ghost sent: seq<nat>, turns: seq<Turn>, tracker: LivenessTracker)
    returns (alerts: seq<bool>, reports: seq<Report>, queries: seq<nat>)
    requires confirm.pollInterval >= MILLISECOND && tracker.lastSuccess == None
    requires Valid(h, contract) && |sent| == |turns|
    requires forall i :: 0 <= i < |turns| ==> HonestLcd(h, sent[i], turns[i].env)
    modifies tracker
    ensures |reports| == |turns|
    ensures IsLog(contract, confirm, h, maxSilence, tracker.started, turns, queries, alerts, reports)
    ensures tracker.lastSuccess == LastConfirmed(turns, reports, |turns|)
  {
    alerts, reports, queries := [], [], [];
    for i := 0 to |turns|
      invariant |reports| == i
      invariant IsLog(contract, confirm, h, maxSilence, tracker.started, turns, queries, alerts, reports)
      invariant tracker.lastSuccess == LastConfirmed(turns, reports, i)
    {
      var alert, report, q := TakeTurn(contract, confirm, maxSilence, h, sent[i], turns[i], tracker);
      LogAppend(contract, confirm, h, maxSilence, tracker.started, turns, queries, alerts, reports, q, report);
      LastConfirmedAppend(turns, reports, report, i);
      alerts, reports, queries := alerts + [alert], reports + [report], queries + [q];
    }
  }

  /** So a quiet check, once the process has been up for longer than `maxSilence`, means that
      the chain holds an update that the service confirmed at most `maxSilence` ago. */
  lemma QuietMeansUpdated(contract: string, confirm: ConfirmConfig, h: History, maxSilence: nat, started: nat,
                          turns: seq<Turn>, queries: seq<nat>, alerts: seq<bool>, reports: seq<Report>, i: nat)
    returns (j: nat)
    requires IsLog(contract, confirm, h, maxSilence, started, turns, queries, alerts, reports)
    requires i < |reports| && !alerts[i] && started + maxSilence < turns[i].checked
    ensures j < i && IsBacked(h, turns[j], reports[j]) && turns[i].checked <= turns[j].env.endTime + maxSilence
  {
    j := LastConfirmedIsATurn(turns, reports, i);
    assert IsReport(contract, confirm, h, turns[j], queries[j], reports[j]);
  }

  /** And on a clock that does not go back an alert means that no turn confirmed an update
      within `maxSilence`: whoever confirms one is not alerted for that long. */
  lemma AlertMeansSilence(contract: string, confirm: ConfirmConfig, h: History, maxSilence: nat, started: nat,
                          turns: seq<Turn>, queries: seq<nat>, alerts: seq<bool>, reports: seq<Report>, j: nat, i: nat)
    requires IsLog(contract, confirm, h, maxSilence, started, turns, queries, alerts, reports)
    requires j < i < |reports| && alerts[i] && IsConfirmed(reports[j])
    requires forall a, b :: 0 <= a < b < |turns| ==> turns[a].env.endTime <= turns[b].env.endTime
    ensures turns[j].env.endTime + maxSilence < turns[i].checked
  {
    LastConfirmedIsLate(turns, reports, j, i);
    assert IsDue(maxSilence, started, turns, reports, i);
  }

  lemma {:induction false} LastConfirmedIsLate(turns: seq<Turn>, reports: seq<Report>, j: nat, i: nat)
    requires j < i <= |reports| && i <= |turns| && IsConfirmed(reports[j])
    requires forall a, b :: 0 <= a < b < |turns| ==> turns[a].env.endTime <= turns[b].env.endTime
    ensures LastConfirmed(turns, reports, i).Some?
    ensures turns[j].env.endTime <= LastConfirmed(turns, reports, i).value
  {
    if j < i - 1 {
      LastConfirmedIsLate(turns, reports, j, i - 1);
    }
  }
}
