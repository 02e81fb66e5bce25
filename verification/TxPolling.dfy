/** Bounded polling for the inclusion of a broadcast transaction. */
module TxPolling {
  import opened Units
  import opened Confirm
  import SwapMath

  const MILLISECOND: nat := 1_000_000
  const U32_MAX: nat := 0xffff_ffff

  /** Durations in nanoseconds. */
  datatype ConfirmConfig = ConfirmConfig(timeout: nat, pollInterval: nat)

  function FromSecsAndMs(timeoutSecs: nat, pollMs: nat): (c: ConfirmConfig)
    ensures c.timeout == timeoutSecs * 1_000_000_000
    ensures c.pollInterval == Max(1, pollMs) * 1_000_000 >= MILLISECOND
  {
    ConfirmConfig(timeoutSecs * 1000 * MILLISECOND, (if pollMs > 1 then pollMs else 1) * MILLISECOND)
  }

  datatype TxSummary = TxSummary(txhash: string, code: nat, events: seq<TxEvent>)

  /** One answer of the LCD; `transient` failures are worth another attempt. */
  datatype Answer = Found(summary: TxSummary) | NotIndexed | QueryError(transient: bool)

  datatype PollError = EmptyHash | HashMismatch | DeliverTxFailed(code: nat) | QueryFailed | Timeout

  predicate Pending(a: Answer) {
    a.NotIndexed? || (a.QueryError? && a.transient)
  }

  /** What a decisive answer means for the transaction that was broadcast. */
  function Decision(expected: string, a: Answer): Result<TxSummary, PollError>
    requires !Pending(a)
  {
    match a
    case QueryError(_) => Err(QueryFailed)
    case Found(summary) =>
      if !EqIgnoreCase(summary.txhash, expected) then Err(HashMismatch)
      else if summary.code == 0 then Ok(summary)
      else Err(DeliverTxFailed(summary.code))
  }

  function Min(a: nat, b: nat): nat {
    if a <= b then a else b
  }

  /** What each answer means: one that is not indexed, or a transient failure, decides nothing;
      only code 0 under the expected hash is a success. */
  lemma DecisionIff(expected: string, a: Answer)
    requires a != NotIndexed && a != QueryError(true)
    ensures Pending(NotIndexed) && Pending(QueryError(true)) && !Pending(a)
    ensures var d := Decision(expected, a);
      && (d.Ok? <==> a.Found? && EqIgnoreCase(a.summary.txhash, expected) && a.summary.code == 0)
      && (d.Ok? ==> d.value == a.summary)
      && (d == Err(HashMismatch) <==> a.Found? && !EqIgnoreCase(a.summary.txhash, expected))
      && (d == Err(QueryFailed) <==> a.QueryError?)
      && (forall code :: d == Err(DeliverTxFailed(code)) <==>
            a.Found? && EqIgnoreCase(a.summary.txhash, expected) && a.summary.code == code != 0)
  {
  }

  /** The sleep after `attempt` queries: the poll interval and a jitter of at most 750 ms, cut
      off at the deadline, and at least a millisecond. */
  function Sleep(poll: nat, attempt: nat, remaining: nat): nat {
    Max(Min(poll + 250 * (attempt % 4) * MILLISECOND, remaining), MILLISECOND)
  }

  lemma SleepAway(poll: nat, attempt: nat, remaining: nat)
    requires poll >= MILLISECOND && remaining >= poll + 750_000_000
    ensures Sleep(poll, attempt, remaining) == poll + 250_000_000 * (attempt % 4)
  {
  }

  lemma FourInARow(n: nat)
    ensures n % 4 + (n + 1) % 4 + (n + 2) % 4 + (n + 3) % 4 == 6
  {
  }

  /** Away from the deadline the jitter cycles through 0, 250, 500 and 750 ms, so four sleeps in
      a row take four intervals and a second and a half; no sleep passes the deadline by more
      than a millisecond, and none is shorter than one. */
  lemma FourSleeps(poll: nat, attempt: nat, remaining: nat)
    requires poll >= MILLISECOND
    ensures remaining >= poll + 750_000_000 ==>
              && poll <= Sleep(poll, attempt, remaining) <= poll + 750_000_000
              && (attempt % 4 == 0 ==> Sleep(poll, attempt, remaining) == poll)
              && Sleep(poll, attempt, remaining) + Sleep(poll, attempt + 1, remaining)
                 + Sleep(poll, attempt + 2, remaining) + Sleep(poll, attempt + 3, remaining) == 4 * poll + 1_500_000_000
    ensures 1_000_000 <= Sleep(poll, attempt, remaining) <= Max(remaining, 1_000_000)
  {
    if remaining >= poll + 750_000_000 {
      SleepAway(poll, attempt, remaining);
      SleepAway(poll, attempt + 1, remaining);
      SleepAway(poll, attempt + 2, remaining);
      SleepAway(poll, attempt + 3, remaining);
      FourInARow(attempt);
    }
  }

  /** Query `k` is issued at `times[k]`: the first at once, each further one after the answer
      to the one before (`delay`), whatever time the process loses then (`lag`), and a sleep. */
  predicate IsSchedule(confirm: ConfirmConfig, start: nat, delay: nat -> nat, lag: nat -> nat, times: seq<nat>) {
    && (times != [] ==> times[0] == start)
    && forall k :: 1 <= k < |times| ==> Follows(confirm, start, delay, lag, times, k)
  }

  predicate Follows(confirm: ConfirmConfig, start: nat, delay: nat -> nat, lag: nat -> nat, times: seq<nat>, k: nat)
    requires 1 <= k < |times|
  {
    var awake := times[k - 1] + delay(k - 1) + lag(k - 1);
    times[k] == awake + Sleep(confirm.pollInterval, Min(k, U32_MAX), Max(0, start + confirm.timeout - awake))
  }

  lemma NextQuery(confirm: ConfirmConfig, start: nat, delay: nat -> nat, lag: nat -> nat, times: seq<nat>, t: nat)
    requires times != [] && IsSchedule(confirm, start, delay, lag, times)
    requires var k := |times|;
      var awake := times[k - 1] + delay(k - 1) + lag(k - 1);
      t == awake + Sleep(confirm.pollInterval, Min(k, U32_MAX), Max(0, start + confirm.timeout - awake))
    ensures IsSchedule(confirm, start, delay, lag, times + [t])
  {
    forall k | 1 <= k < |times|
      ensures Follows(confirm, start, delay, lag, times + [t], k)
    {
      assert Follows(confirm, start, delay, lag, times, k);
    }
  }

  /** Time that the environment takes during the first `k` rounds. */
  function Taken(delay: nat -> nat, lag: nat -> nat, k: nat): nat {
    if k == 0 then 0 else Taken(delay, lag, k - 1) + delay(k - 1) + lag(k - 1)
  }

  /** No round takes longer than the environment, the interval and the jitter, and while the
      deadline is ahead none is shorter than the interval. */
  lemma {:induction false} ScheduleBounds(confirm: ConfirmConfig, start: nat, delay: nat -> nat, lag: nat -> nat,
                                          times: seq<nat>, k: nat)
    requires confirm.pollInterval >= MILLISECOND && IsSchedule(confirm, start, delay, lag, times) && k < |times|
    ensures times[k] <= start + Taken(delay, lag, k) + k * (confirm.pollInterval + 750 * MILLISECOND)
    ensures times[k] < start + confirm.timeout ==> times[k] >= start + k * confirm.pollInterval
  {
    if k > 0 {
      ScheduleBounds(confirm, start, delay, lag, times, k - 1);
      assert Follows(confirm, start, delay, lag, times, k);
      assert k * confirm.pollInterval == (k - 1) * confirm.pollInterval + confirm.pollInterval;
      assert k * (confirm.pollInterval + 750 * MILLISECOND)
          == (k - 1) * (confirm.pollInterval + 750 * MILLISECOND) + confirm.pollInterval + 750 * MILLISECOND;
    }
  }

  /** When all answers but the last came before the deadline, there were few. */
  lemma QueryBound(confirm: ConfirmConfig, start: nat, delay: nat -> nat, lag: nat -> nat, times: seq<nat>)
    requires confirm.pollInterval >= MILLISECOND && IsSchedule(confirm, start, delay, lag, times)
    requires forall k: nat :: k < |times| - 1 ==> times[k] + delay(k) < start + confirm.timeout
    ensures |times| <= confirm.timeout / confirm.pollInterval + 2
  {
    var k := |times| - 2;
    if k >= 0 {
      assert times[k] + delay(k) < start + confirm.timeout;
      ScheduleBounds(confirm, start, delay, lag, times, k);
      SwapMath.DivBounds(confirm.timeout, confirm.pollInterval);
      SwapMath.CancelLt(k, confirm.timeout / confirm.pollInterval + 1, confirm.pollInterval);
    }
  }

  /** The loop never gives up early: unless the environment has taken the time, the deadline
      is not reached before enough queries, one for each interval and jitter. */
  lemma NeverEarly(confirm: ConfirmConfig, start: nat, delay: nat -> nat, lag: nat -> nat, times: seq<nat>)
    requires confirm.pollInterval >= MILLISECOND && IsSchedule(confirm, start, delay, lag, times)
    requires times != [] && times[|times| - 1] + delay(|times| - 1) >= start + confirm.timeout
    ensures confirm.timeout
         <= Taken(delay, lag, |times|) + (|times| - 1) * (confirm.pollInterval + 750 * MILLISECOND)
  {
    ScheduleBounds(confirm, start, delay, lag, times, |times| - 1);
  }

  /** Polls from time `start`. The environment is arbitrary: `answer(k)` is the LCD's answer
      to the k-th query, `delay(k)` how long that query takes, and `lag(k)` any further time
      the process loses before it sleeps. Every answer but the last was pending and came
      before the deadline; the last one is decisive, or came after it, and it alone
      determines the result. */
  method WaitForDeliverTx(expected: string, confirm: ConfirmConfig, start: nat,
                          answer: nat -> Answer, delay: nat -> nat, lag: nat -> nat)
    returns (r: Result<TxSummary, PollError>, queries: nat, finish: nat, ghost times: seq<nat>)
    requires confirm.pollInterval >= MILLISECOND
    ensures |times| == queries && IsSchedule(confirm, start, delay, lag, times)
    ensures forall k: nat :: k < queries - 1 ==> Pending(answer(k)) && times[k] + delay(k) < start + confirm.timeout
    ensures if expected == "" then queries == 0 && r == Err(EmptyHash)
            else queries > 0 && r == if Pending(answer(queries - 1)) then Err(Timeout)
                                     else Decision(expected, answer(queries - 1))
    ensures finish == if queries == 0 then start else times[queries - 1] + delay(queries - 1)
    ensures r == Err(Timeout) ==> finish >= start + confirm.timeout
    ensures queries <= confirm.timeout / confirm.pollInterval + 2
    ensures r.Ok? ==> queries > 0 && answer(queries - 1) == Found(r.value)
                      && EqIgnoreCase(r.value.txhash, expected) && r.value.code == 0
  {
    queries, times := 0, [];
    if expected == "" {
      return Err(EmptyHash), queries, start, times;
    }
    var deadline := start + confirm.timeout;
    var now := start;
    var attempt := 0;
    while true
      invariant |times| == queries && IsSchedule(confirm, start, delay, lag, times + [now])
      invariant attempt == Min(queries, U32_MAX)
      invariant forall k: nat :: k < queries ==> Pending(answer(k)) && times[k] + delay(k) < deadline
      decreases if now < deadline then deadline - now else 0
    {
      attempt := if attempt < U32_MAX then attempt + 1 else attempt;
      var a := answer(queries);
      times := times + [now];
      now := now + delay(queries);
      queries := queries + 1;
      QueryBound(confirm, start, delay, lag, times);
      match a {
        case Found(summary) =>
          if !EqIgnoreCase(summary.txhash, expected) {
            return Err(HashMismatch), queries, now, times;
          }
          if summary.code == 0 {
            return Ok(summary), queries, now, times;
          }
          return Err(DeliverTxFailed(summary.code)), queries, now, times;
        case NotIndexed =>
        case QueryError(transient) =>
          if !transient {
            return Err(QueryFailed), queries, now, times;
          }
      }
      if now >= deadline {
        return Err(Timeout), queries, now, times;
      }
      now := now + lag(queries - 1);
      var jitter := 250 * (attempt % 4) * MILLISECOND;
      var remaining := if deadline >= now then deadline - now else 0;
      var capped := Min(confirm.pollInterval + jitter, remaining);
      var sleep := if capped > MILLISECOND then capped else MILLISECOND;
      now := now + sleep;
      NextQuery(confirm, start, delay, lag, times, now);
    }
  }

  datatype BroadcastError = SequenceMismatch | OtherBroadcastError

  /** A sequence mismatch is retried once, after the account has been queried again. */
  function Broadcast(first: Result<string, BroadcastError>, second: Result<string, BroadcastError>)
    : Result<string, BroadcastError>
  {
    match first
    case Ok(hash) => Ok(hash)
    case Err(SequenceMismatch) => second
    case Err(e) => Err(e)
  }

  /** The second attempt decides exactly when the first met a sequence mismatch; any other
      failure of the first is final. */
  lemma RetriesOnce(first: Result<string, BroadcastError>, second: Result<string, BroadcastError>)
    ensures first == Err(SequenceMismatch) ==> Broadcast(first, second) == second
    ensures first != Err(SequenceMismatch) ==> forall other :: Broadcast(first, other) == first
  {
  }
}
