/** How old the on-chain rate can get while the operator service is running. */
module Freshness {
  import opened Units
  import opened OraclePolicy
  import Oracle
  import Service
  import SwapMath
  import Window

  /** The poll sleep lasts from `pollMin` to `pollMax` seconds and a tick at most `tickMax`.
      The service's clock is at most `lag` behind block time. At most `misses` ticks in a row
      are missed, and what a missed tick has submitted lands at most `late` after its end. */
  datatype Timing = Timing(pollMin: nat, pollMax: nat, tickMax: nat, lag: nat, late: nat, misses: nat)

  /** One turn of the operator loop, in block time. The State answer is a snapshot of time
      `read`, when `seen` transactions had landed; the policy is consulted at `decide`, when
      the service's own clock reads `local`. A missed tick has failed, or has not learned
      what became of its submission. */
  datatype Tick = Tick(begin: nat, read: nat, seen: nat, decide: nat, local: nat, end: nat, proposed: Uint128,
                       missed: bool)

  /** The submission of a tick, included in a block at `time`. */
  datatype Landing = Landing(tick: nat, time: nat, proposed: Uint128)

  /** A stretch of the loop, and what landed on chain, in block order. */
  datatype Log = Log(start: Oracle.Store, ticks: seq<Tick>, landings: seq<Landing>)

  /** A landing that the contract refuses changes nothing. */
  function Land(s: Oracle.Store, l: Landing): Oracle.Store {
    match Oracle.ApplyUpdate(s, l.time, s.cfg.operator, l.proposed)
    case Ok(s') => s'
    case Err(_) => s
  }

  /** The oracle after the first `n` landings. */
  function Stored(log: Log, n: nat): Oracle.Store
    requires n <= |log.landings|
  {
    if n == 0 then log.start else Land(Stored(log, n - 1), log.landings[n - 1])
  }

  function LastUpdate(log: Log, n: nat): nat
    requires n <= |log.landings|
  {
    Stored(log, n).st.lastUpdateSec
  }

  predicate Submits(log: Log, t: Tick)
    requires t.seen <= |log.landings|
  {
    Service.DecideTickAction(t.proposed, Oracle.QueryState(Stored(log, t.seen)), t.local).Submit?
  }

  // ---------------------------------------------------------------- what can happen

  /** State answers are less than four hours old. */
  predicate InOrder(t: Tick, timing: Timing) {
    && t.begin <= t.decide <= t.end <= t.begin + timing.tickMax
    && t.local <= t.decide <= t.local + timing.lag
    && t.read <= t.decide < t.read + MIN_UPDATE_INTERVAL
  }

  predicate Follows(ticks: seq<Tick>, k: nat, timing: Timing)
    requires 1 <= k < |ticks|
  {
    ticks[k - 1].end + timing.pollMin <= ticks[k].begin <= ticks[k - 1].end + timing.pollMax
  }

  /** The ticks follow the loop: in order, within the tick time, a poll sleep apart. */
  predicate Scheduled(ticks: seq<Tick>, timing: Timing) {
    && (forall k :: 0 <= k < |ticks| ==> InOrder(ticks[k], timing))
    && (forall k :: 1 <= k < |ticks| ==> Follows(ticks, k, timing))
  }

  /** The State answer shows exactly what had landed by then. */
  predicate Reads(log: Log, t: Tick) {
    && t.seen <= |log.landings|
    && forall i :: 0 <= i < |log.landings| ==>
         if i < t.seen then log.landings[i].time <= t.read else t.read <= log.landings[i].time
  }

  /** Landing `i` is what its tick submitted: inside the tick, or late when the tick was missed. */
  predicate IsSubmission(log: Log, i: nat, late: nat)
    requires i < |log.landings|
  {
    var l := log.landings[i];
    && l.tick < |log.ticks|
    && var t := log.ticks[l.tick];
    && t.seen <= i && Submits(log, t)
    && l.proposed == t.proposed
    && t.decide <= l.time <= t.end + if t.missed then late else 0
  }

  ghost predicate Lands(log: Log, k: nat) {
    exists i :: 0 <= i < |log.landings| && log.landings[i].tick == k
  }

  /** Only submissions land, in block order, and every tick that is not missed has its own
      submission included. */
  ghost predicate Included(log: Log, late: nat) {
    && (forall k :: 0 <= k < |log.ticks| ==> Reads(log, log.ticks[k]))
    && (forall i, j :: 0 <= i < j < |log.landings| ==> log.landings[i].time <= log.landings[j].time)
    && (forall i: nat :: i < |log.landings| ==> IsSubmission(log, i, late))
    && (forall k: nat :: k < |log.ticks| && !log.ticks[k].missed && Submits(log, log.ticks[k]) ==> Lands(log, k))
  }

  /** How many ticks in a row, ending with the k-th, were missed. */
  function MissedInARow(ticks: seq<Tick>, k: nat): (n: nat)
    requires k <= |ticks|
    ensures n <= k
    ensures n < k ==> !ticks[k - 1 - n].missed
  {
    if k == 0 || !ticks[k - 1].missed then 0 else 1 + MissedInARow(ticks, k - 1)
  }

  /** Flat or rising within the daily cap, with the cap in range of 128 bits. */
  predicate FeedWithinCap(st: Oracle.State, proposed: Uint128, now: nat) {
    var base := RollUtcDay(now, st.utcDayId, st.dayBaselineRate, st.rate).1;
    0 < proposed && st.rate <= proposed && WithinCap(proposed, base)
  }

  /** What the feed proposes to a tick is within the cap of the state it reads. */
  predicate Favourable(log: Log, t: Tick)
    requires t.seen <= |log.landings|
  {
    var st := Stored(log, t.seen).st;
    CapInRange(st.rate) && FeedWithinCap(st, t.proposed, t.local)
  }

  /** An updated, unpaused oracle whose fields agree. */
  predicate Running(s: Oracle.Store) {
    && !s.cfg.paused
    && s.st.lastUpdateSec > 0
    && s.st.utcDayId == s.st.lastUpdateSec / DAY
    && s.st.dayBaselineRate <= s.st.rate
  }

  /** The assumptions under which the service promises freshness: the first landing was an
      update, and from then on the feed stays within the cap. */
  ghost predicate Healthy(log: Log, timing: Timing) {
    && Scheduled(log.ticks, timing) && Included(log, timing.late)
    && |log.landings| > 0 && Running(Stored(log, 1)) && LastUpdate(log, 1) == log.landings[0].time
    && (forall k: nat :: k <= |log.ticks| ==> MissedInARow(log.ticks, k) <= timing.misses)
    && (forall k :: 0 <= k < |log.ticks| && log.ticks[k].seen > 0 ==> Favourable(log, log.ticks[k]))
  }

  /** At `now`, before the stretch ends, the first `n` landings are in force. */
  predicate InForce(log: Log, n: nat, now: nat) {
    && 1 <= n <= |log.landings| && log.ticks != [] && now <= log.ticks[|log.ticks| - 1].end
    && forall i :: 0 <= i < |log.landings| ==>
         if i < n then log.landings[i].time <= now else now <= log.landings[i].time
  }

  // ---------------------------------------------------------------- the oracle over a stretch

  /** Any accepted update, the first one included, leaves a running oracle. */
  lemma UpdateRuns(s: Oracle.Store, start: nat, calls: seq<Oracle.Call>, t: nat, sender: Addr, rate: Uint128)
    requires Oracle.Fresh(s, start) && Oracle.Timely(start, calls) && t >= Oracle.Now(start, calls)
    requires Oracle.ApplyUpdate(Oracle.Run(s, calls), t, sender, rate).Ok?
    ensures Running(Oracle.ApplyUpdate(Oracle.Run(s, calls), t, sender, rate).value)
    ensures Oracle.ApplyUpdate(Oracle.Run(s, calls), t, sender, rate).value.st.lastUpdateSec == t
  {
    Oracle.RunIsConsistent(s, start, calls);
    Oracle.StepKeepsConsistent(Oracle.Run(s, calls), Oracle.Updates(s, calls), Oracle.Now(start, calls),
                               Oracle.Call(t, sender, Oracle.UpdateRate(rate)));
  }

  lemma LandKeepsRunning(s: Oracle.Store, l: Landing)
    requires Running(s)
    ensures Running(Land(s, l))
    ensures Land(s, l) == s || s.st.lastUpdateSec <= Land(s, l).st.lastUpdateSec == l.time
  {
    AcceptedIff(l.time, s.st.lastUpdateSec, s.st.rate, l.proposed, s.st.utcDayId, s.st.dayBaselineRate);
  }

  /** From the first landing on the oracle is running, on an update that landed. */
  lemma {:induction false} StoredRuns(log: Log, n: nat) returns (i: nat)
    requires 1 <= n <= |log.landings|
    requires Running(Stored(log, 1)) && LastUpdate(log, 1) == log.landings[0].time
    ensures Running(Stored(log, n)) && i < n && LastUpdate(log, n) == log.landings[i].time
  {
    if n == 1 {
      i := 0;
    } else {
      i := StoredRuns(log, n - 1);
      LandKeepsRunning(Stored(log, n - 1), log.landings[n - 1]);
      i := if Stored(log, n) == Stored(log, n - 1) then i else n - 1;
    }
  }

  /** Between two counts of landings the oracle is the same, or was updated by one of them. */
  lemma {:induction false} StoredAdvances(log: Log, m: nat, n: nat, since: nat)
    requires 1 <= m <= n <= |log.landings|
    requires Running(Stored(log, 1)) && LastUpdate(log, 1) == log.landings[0].time
    requires forall i :: m <= i < n ==> since <= log.landings[i].time
    ensures LastUpdate(log, m) <= LastUpdate(log, n)
    ensures Stored(log, n) == Stored(log, m) || since <= LastUpdate(log, n)
    decreases n
  {
    if m < n {
      StoredAdvances(log, m, n - 1, since);
      var _ := StoredRuns(log, n - 1);
      LandKeepsRunning(Stored(log, n - 1), log.landings[n - 1]);
    }
  }

  /** What the service submits, the contract accepts in every later block while the oracle
      is unchanged. */
  lemma SubmissionIsAccepted(s: Oracle.Store, t: Tick, l: Landing)
    requires Running(s) && CapInRange(s.st.rate) && t.local <= l.time && l.proposed == t.proposed
    requires Service.DecideTickAction(t.proposed, Oracle.QueryState(s), t.local).Submit?
    ensures Land(s, l).st.lastUpdateSec == l.time
  {
    Oracle.AcceptedLater(s.st, t.local, l.time, t.proposed);
  }

  /** A tick within the cap that does not submit is held back by the throttle. */
  lemma HeldBack(s: Oracle.Store, t: Tick)
    requires Running(s) && CapInRange(s.st.rate) && FeedWithinCap(s.st, t.proposed, t.local)
    requires !Service.DecideTickAction(t.proposed, Oracle.QueryState(s), t.local).Submit?
    ensures t.local < s.st.lastUpdateSec + MIN_UPDATE_INTERVAL
  {
    AcceptedIff(t.local, s.st.lastUpdateSec, s.st.rate, t.proposed, s.st.utcDayId, s.st.dayBaselineRate);
  }

  /** After a tick that was not missed the last update is less than four hours and the lag
      of the clock older than the tick: the tick made it, or it is one that the tick had not
      read, or it held the tick back. */
  lemma TickRefreshes(log: Log, timing: Timing, k: nat, n: nat)
    requires Healthy(log, timing) && k < |log.ticks| && !log.ticks[k].missed
    requires 1 <= n <= |log.landings|
    requires forall i :: n <= i < |log.landings| ==> log.ticks[k].end < log.landings[i].time
    ensures log.ticks[k].begin < LastUpdate(log, n) + MIN_UPDATE_INTERVAL + timing.lag
  {
    var t := log.ticks[k];
    assert Reads(log, t) && InOrder(t, timing);
    assert t.seen <= n;
    if t.seen == 0 {
      StoredAdvances(log, 1, n, 0);
    } else {
      assert Favourable(log, t);
      var _ := StoredRuns(log, t.seen);
      StoredAdvances(log, t.seen, n, t.read);
      if Submits(log, t) {
        SubmittedRefreshes(log, timing, k, n);
      } else {
        HeldBack(Stored(log, t.seen), t);
      }
    }
  }

  lemma SubmittedRefreshes(log: Log, timing: Timing, k: nat, n: nat)
    requires Healthy(log, timing) && k < |log.ticks| && !log.ticks[k].missed
    requires 1 <= log.ticks[k].seen <= n <= |log.landings| && Submits(log, log.ticks[k])
    requires forall i :: n <= i < |log.landings| ==> log.ticks[k].end < log.landings[i].time
    ensures log.ticks[k].read <= LastUpdate(log, n)
  {
    var t := log.ticks[k];
    assert Lands(log, k);
    var i: nat :| i < |log.landings| && log.landings[i].tick == k;
    assert IsSubmission(log, i, timing.late) && Reads(log, t) && InOrder(t, timing) && Favourable(log, t);
    LandedRefreshes(log, t, i, n);
  }

  lemma LandedRefreshes(log: Log, t: Tick, i: nat, n: nat)
    requires 1 <= t.seen <= i < n <= |log.landings|
    requires Running(Stored(log, 1)) && LastUpdate(log, 1) == log.landings[0].time
    requires Submits(log, t) && CapInRange(Stored(log, t.seen).st.rate)
    requires log.landings[i].proposed == t.proposed && t.local <= log.landings[i].time
    requires forall j :: t.seen <= j < n ==> t.read <= log.landings[j].time
    ensures t.read <= LastUpdate(log, n)
  {
    var _ := StoredRuns(log, t.seen);
    StoredAdvances(log, t.seen, i, t.read);
    StoredAdvances(log, i, n, t.read);
    StoredAdvances(log, i + 1, n, 0);
    if Stored(log, i) == Stored(log, t.seen) {
      SubmissionIsAccepted(Stored(log, i), t, log.landings[i]);
    }
  }

  // ---------------------------------------------------------------- age

  /** Time between two ticks, from below and from above. */
  lemma {:induction false} Spacing(ticks: seq<Tick>, timing: Timing, i: nat, j: nat)
    requires Scheduled(ticks, timing) && i < j < |ticks|
    ensures ticks[i].end + (j - i) * timing.pollMin <= ticks[j].begin
    ensures ticks[j].begin <= ticks[i].begin + (j - i) * (timing.pollMax + timing.tickMax)
    decreases j - i
  {
    assert Follows(ticks, j, timing) && InOrder(ticks[j - 1], timing);
    if i + 1 < j {
      Spacing(ticks, timing, i, j - 1);
      assert (j - i) * timing.pollMin == (j - 1 - i) * timing.pollMin + timing.pollMin;
      assert (j - i) * (timing.pollMax + timing.tickMax)
          == (j - 1 - i) * (timing.pollMax + timing.tickMax) + timing.pollMax + timing.tickMax;
    }
  }

  /** Four hours on a lagging clock, then one poll and one tick for the next attempt and for
      each missed one, and the tick that finally lands. */
  function AgeByThrottle(timing: Timing): nat {
    MIN_UPDATE_INTERVAL + timing.lag + (timing.misses + 1) * (timing.pollMax + timing.tickMax) + timing.tickMax
  }

  /** How late an update can land; without misses every one lands inside its tick. */
  function Lateness(timing: Timing): nat {
    if timing.misses == 0 then 0 else timing.late
  }

  /** Polls until the throttle is certain to have passed on the service's clock. */
  function PollsToThrottle(timing: Timing): nat
    requires timing.pollMin > 0
  {
    (MIN_UPDATE_INTERVAL + timing.lag + Lateness(timing) + timing.pollMin - 1) / timing.pollMin
  }

  /** The age counted in polls: none of them is shorter than `pollMin`. */
  function AgeByPolls(timing: Timing): nat
    requires timing.pollMin > 0
  {
    (PollsToThrottle(timing) + timing.misses) * (timing.pollMax + timing.tickMax) + timing.tickMax
  }

  /** Tick `from` made the update in force, and of the ticks before `k` the last `missed`
      were missed and the one before them has refreshed the oracle. */
  predicate Since(ticks: seq<Tick>, timing: Timing, k: nat, missed: nat, from: nat, last: nat) {
    && missed <= k < |ticks| && missed <= timing.misses && from < |ticks|
    && ticks[from].begin <= last <= ticks[from].end + Lateness(timing)
    && (missed < k ==> ticks[k - 1 - missed].begin < last + MIN_UPDATE_INTERVAL + timing.lag)
  }

  /** The age at the end of tick `k` when tick `base` began before `last`, or at most `slack`
      after it. */
  lemma AgeFrom(ticks: seq<Tick>, timing: Timing, k: nat, base: nat, last: nat, slack: nat, turns: nat)
    requires Scheduled(ticks, timing) && base < |ticks| && k < |ticks| && k <= base + turns
    requires ticks[base].begin <= last + slack
    ensures ticks[k].end <= last + slack + turns * (timing.pollMax + timing.tickMax) + timing.tickMax
  {
    var turn := timing.pollMax + timing.tickMax;
    assert InOrder(ticks[k], timing);
    if k < base {
      Spacing(ticks, timing, k, base);
      SwapMath.MulLe(0, turns, turn);
      SwapMath.MulLe(0, base - k, timing.pollMin);
    } else {
      if base < k {
        Spacing(ticks, timing, base, k);
      }
      SwapMath.MulLe(k - base, turns, turn);
    }
  }

  lemma AgeFromRefresh(ticks: seq<Tick>, timing: Timing, k: nat, good: nat, last: nat)
    requires Scheduled(ticks, timing) && good < k < |ticks| && k - good <= timing.misses + 1
    requires ticks[good].begin < last + MIN_UPDATE_INTERVAL + timing.lag
    ensures ticks[k].end < last + AgeByThrottle(timing)
  {
    AgeFrom(ticks, timing, k, good, last, MIN_UPDATE_INTERVAL + timing.lag - 1, timing.misses + 1);
  }

  lemma AgeFromThrottle(ticks: seq<Tick>, timing: Timing, k: nat, missed: nat, from: nat, last: nat)
    requires Scheduled(ticks, timing) && Since(ticks, timing, k, missed, from, last)
    ensures ticks[k].end < last + AgeByThrottle(timing)
  {
    if missed < k {
      AgeFromRefresh(ticks, timing, k, k - 1 - missed, last);
    } else {
      AgeFrom(ticks, timing, k, from, last, 0, timing.misses + 1);
    }
  }

  lemma HeldBackPolls(polls: nat, pollMin: nat, wait: nat)
    requires pollMin > 0 && polls * pollMin < wait
    ensures polls < (wait + pollMin - 1) / pollMin
  {
    SwapMath.DivBounds(wait + pollMin - 1, pollMin);
    SwapMath.CancelLt(polls, (wait + pollMin - 1) / pollMin, pollMin);
  }

  /** No more polls than these separate tick `k` from the update in force. */
  lemma PollsSince(ticks: seq<Tick>, timing: Timing, k: nat, missed: nat, from: nat, last: nat)
    requires timing.pollMin > 0
    requires Scheduled(ticks, timing) && Since(ticks, timing, k, missed, from, last)
    ensures k <= from + PollsToThrottle(timing) + timing.misses
  {
    var good := k - 1 - missed;
    var wait := MIN_UPDATE_INTERVAL + timing.lag + Lateness(timing);
    if from < good {
      Spacing(ticks, timing, from, good);
      HeldBackPolls(good - from, timing.pollMin, wait);
    } else {
      HeldBackPolls(0, timing.pollMin, wait);
    }
  }

  lemma AgeFromPolls(ticks: seq<Tick>, timing: Timing, k: nat, missed: nat, from: nat, last: nat)
    requires timing.pollMin > 0
    requires Scheduled(ticks, timing) && Since(ticks, timing, k, missed, from, last)
    ensures ticks[k].end <= last + AgeByPolls(timing)
  {
    PollsSince(ticks, timing, k, missed, from, last);
    AgeFrom(ticks, timing, k, from, last, 0, PollsToThrottle(timing) + timing.misses);
  }

  /** The first tick that has not ended before `now`. */
  lemma {:induction false} CurrentTick(ticks: seq<Tick>, now: nat, k: nat) returns (r: nat)
    requires k < |ticks| && now <= ticks[k].end
    ensures r <= k && now <= ticks[r].end && (r > 0 ==> ticks[r - 1].end < now)
  {
    if k > 0 && now <= ticks[k - 1].end {
      r := CurrentTick(ticks, now, k - 1);
    } else {
      r := k;
    }
  }

  lemma LandingSince(log: Log, timing: Timing, i: nat)
    requires Healthy(log, timing) && i < |log.landings|
    ensures var l := log.landings[i];
      l.tick < |log.ticks|
      && log.ticks[l.tick].begin <= l.time <= log.ticks[l.tick].end + Lateness(timing)
  {
    assert IsSubmission(log, i, timing.late);
    var t := log.ticks[log.landings[i].tick];
    assert Reads(log, t) && InOrder(t, timing);
    assert MissedInARow(log.ticks, log.landings[i].tick + 1) <= timing.misses;
  }

  lemma EndsBefore(ticks: seq<Tick>, timing: Timing, k: nat, good: nat)
    requires Scheduled(ticks, timing) && good <= k < |ticks|
    ensures ticks[good].end <= ticks[k].end
  {
    assert InOrder(ticks[k], timing);
    if good < k {
      Spacing(ticks, timing, good, k);
      SwapMath.MulLe(0, k - good, timing.pollMin);
    }
  }

  /** Ticks that ended before `now` have refreshed what is in force at `now`. */
  lemma PastTickRefreshes(log: Log, timing: Timing, n: nat, now: nat, k: nat, good: nat)
    requires Healthy(log, timing) && InForce(log, n, now)
    requires good < k < |log.ticks| && log.ticks[k - 1].end < now && !log.ticks[good].missed
    ensures log.ticks[good].begin < LastUpdate(log, n) + MIN_UPDATE_INTERVAL + timing.lag
  {
    EndsBefore(log.ticks, timing, k - 1, good);
    TickRefreshes(log, timing, good, n);
  }

  lemma UpdateSince(log: Log, timing: Timing, n: nat) returns (from: nat)
    requires Healthy(log, timing) && 1 <= n <= |log.landings|
    ensures from < |log.ticks|
    ensures log.ticks[from].begin <= LastUpdate(log, n) <= log.ticks[from].end + Lateness(timing)
  {
    var i := StoredRuns(log, n);
    LandingSince(log, timing, i);
    from := log.landings[i].tick;
  }

  lemma MissedAtMost(log: Log, timing: Timing, k: nat)
    requires Healthy(log, timing) && k <= |log.ticks|
    ensures MissedInARow(log.ticks, k) <= timing.misses
  {
  }

  lemma RunIsSince(log: Log, timing: Timing, n: nat, now: nat, k: nat, missed: nat, last: nat) returns (from: nat)
    requires Healthy(log, timing) && InForce(log, n, now) && last == LastUpdate(log, n)
    requires k < |log.ticks| && (k > 0 ==> log.ticks[k - 1].end < now) && missed == MissedInARow(log.ticks, k)
    ensures Since(log.ticks, timing, k, missed, from, last)
  {
    from := UpdateSince(log, timing, n);
    MissedAtMost(log, timing, k);
    if missed < k {
      PastTickRefreshes(log, timing, n, now, k, k - 1 - missed);
    }
  }

  /** In a healthy stretch the rate in force is younger than both bounds at every moment:
      `4h + lag + (misses + 1) * (poll + tick) + tick`, and, since no poll is shorter than
      `pollMin`, `(ceil((4h + lag + late) / pollMin) + misses) * (poll + tick) + tick`. */
  lemma AgeIsBounded(log: Log, timing: Timing, n: nat, now: nat)
    requires Healthy(log, timing) && InForce(log, n, now)
    ensures now < LastUpdate(log, n) + AgeByThrottle(timing)
    ensures timing.pollMin > 0 ==> now <= LastUpdate(log, n) + AgeByPolls(timing)
  {
    var k := CurrentTick(log.ticks, now, |log.ticks| - 1);
    var missed, last := MissedInARow(log.ticks, k), LastUpdate(log, n);
    var from := RunIsSince(log, timing, n, now, k, missed, last);
    AgeFromThrottle(log.ticks, timing, k, missed, from, last);
    if timing.pollMin > 0 {
      AgeFromPolls(log.ticks, timing, k, missed, from, last);
    }
  }

  // ---------------------------------------------------------------- staleness

  predicate UsableAt(log: Log, n: nat, now: nat, maxAge: nat)
    requires n <= |log.landings|
  {
    Window.EnsureOracleUsable(now, Oracle.QueryState(Stored(log, n)), maxAge).Ok?
  }

  /** So the window never sees a stale oracle when either bound is within its maximum age. */
  lemma NeverStale(log: Log, timing: Timing, maxAge: nat, n: nat, now: nat)
    requires Healthy(log, timing) && InForce(log, n, now)
    requires AgeByThrottle(timing) <= maxAge + 1 || (timing.pollMin > 0 && AgeByPolls(timing) <= maxAge)
    ensures UsableAt(log, n, now, maxAge)
  {
    AgeIsBounded(log, timing, n, now);
    var _ := StoredRuns(log, n);
  }

  /** The timing never lets the window refuse the oracle. */
  ghost predicate Tolerated(timing: Timing, maxAge: nat) {
    forall log: Log, n: nat, now: nat :: Healthy(log, timing) && InForce(log, n, now) ==> UsableAt(log, n, now, maxAge)
  }

  /** The deployed defaults: a one-hour poll sleep and two-minute ticks. */
  function Defaults(lag: nat, late: nat, misses: nat): Timing {
    Timing(3_600, 3_600, 120, lag, late, misses)
  }

  lemma DefaultAge(lag: nat, late: nat, misses: nat)
    requires (misses == 0 && lag <= 3_600) || (misses == 1 && lag == 0 && late == 0)
    ensures AgeByPolls(Defaults(lag, late, misses)) <= 5 * (3_600 + 120) + 120
  {
    var timing := Defaults(lag, late, misses);
    assert PollsToThrottle(timing) + misses <= 5;
    SwapMath.MulLe(PollsToThrottle(timing) + misses, 5, 3_600 + 120);
  }

  /** Seven hourly ticks. The update of the first lands `late` after it; the clock lags by
      `lag`; the fifth and the sixth are missed unless the throttle already holds them back. */
  function Straggling(lag: nat, late: nat): Log
    requires lag <= DAY
  {
    Log(Seeded(), seq(7, i requires 0 <= i < 7 => HourlyTick(lag, late, i)),
        [Landing(0, DAY + late, RATE_SCALE), Landing(6, DAY + 6 * 3_600 + 120, RATE_SCALE)])
  }

  function HourlyTick(lag: nat, late: nat, i: nat): Tick
    requires lag <= DAY
  {
    var b := DAY + i * 3_600;
    Tick(b, b, if i == 0 then 0 else 1, b, b - lag, if i == 6 then b + 120 else b, RATE_SCALE, IsMissed(lag, late, i))
  }

  predicate IsMissed(lag: nat, late: nat, i: nat) {
    (i == 0 && late > 0) || (i == 4 && lag + late == 0) || (i == 5 && lag + late <= 3_600)
  }

  function Seeded(): Oracle.Store {
    Oracle.Store(Oracle.Config(Addr("gov"), Addr("op"), false), Oracle.State(RATE_SCALE, 0, 1, RATE_SCALE), None)
  }

  lemma StragglingStored(lag: nat, late: nat)
    requires lag <= DAY && late <= 3_600
    ensures Stored(Straggling(lag, late), 0) == Seeded()
    ensures Stored(Straggling(lag, late), 1) == Seeded().(st := Oracle.State(RATE_SCALE, DAY + late, 1, RATE_SCALE))
  {
    assert Stored(Straggling(lag, late), 1) == Land(Seeded(), Landing(0, DAY + late, RATE_SCALE));
  }

  lemma StragglingTick(lag: nat, late: nat, k: nat)
    requires lag <= 3_601 && late <= 1 && k < 7
    ensures var log := Straggling(lag, late);
      var t := HourlyTick(lag, late, k);
      && log.ticks[k] == t
      && (Submits(log, t) <==> k == 0 || k * 3_600 >= lag + late + MIN_UPDATE_INTERVAL)
      && (k > 0 ==> Favourable(log, t))
      && Reads(log, t)
  {
    StragglingStored(lag, late);
  }

  lemma StragglingIncluded(lag: nat, late: nat, late': nat)
    requires lag <= 3_601 && late <= 1 && late <= late'
    ensures Included(Straggling(lag, late), late')
  {
    var log := Straggling(lag, late);
    forall k: nat | k < 7
      ensures Reads(log, log.ticks[k])
      ensures !log.ticks[k].missed && Submits(log, log.ticks[k]) ==> Lands(log, k)
    {
      StragglingTick(lag, late, k);
      assert log.landings[0].tick == 0 && log.landings[1].tick == 6;
    }
    StragglingTick(lag, late, 0);
    StragglingTick(lag, late, 6);
    assert IsSubmission(log, 0, late') && IsSubmission(log, 1, late');
  }

  function MissesOf(lag: nat, late: nat): nat {
    if lag + late == 0 then 2 else if lag + late <= 3_600 || late > 0 then 1 else 0
  }

  lemma {:induction false} StragglingMisses(lag: nat, late: nat, k: nat)
    requires lag <= DAY && k <= 7
    ensures MissedInARow(Straggling(lag, late).ticks, k) <= MissesOf(lag, late)
    ensures k > 0 && !IsMissed(lag, late, k - 1) ==> MissedInARow(Straggling(lag, late).ticks, k) == 0
    ensures k <= 5 && k > 1 ==> MissedInARow(Straggling(lag, late).ticks, k) <= 1
  {
    if k > 0 {
      StragglingMisses(lag, late, k - 1);
    }
  }

  lemma StragglingScheduled(lag: nat, late: nat, lag': nat, late': nat, misses: nat)
    requires lag <= DAY && lag <= lag'
    ensures Scheduled(Straggling(lag, late).ticks, Defaults(lag', late', misses))
  {
  }

  lemma StragglingIsHealthy(lag: nat, late: nat, lag': nat, late': nat, misses: nat)
    requires lag <= 3_601 && late <= 1 && lag <= lag' && late <= late' && MissesOf(lag, late) <= misses
    ensures Healthy(Straggling(lag, late), Defaults(lag', late', misses))
  {
    var log, timing := Straggling(lag, late), Defaults(lag', late', misses);
    StragglingStored(lag, late);
    StragglingIncluded(lag, late, late');
    StragglingScheduled(lag, late, lag', late', misses);
    forall k: nat | k <= 7
      ensures MissedInARow(log.ticks, k) <= misses
    {
      StragglingMisses(lag, late, k);
    }
    forall k: nat | k < 7
      ensures log.ticks[k].seen > 0 ==> Favourable(log, log.ticks[k])
    {
      StragglingTick(lag, late, k);
    }
  }

  lemma StragglingEnds(lag: nat, late: nat, now: nat)
    requires lag <= DAY && late <= 1 && now == DAY + 6 * 3_600 + 120
    ensures InForce(Straggling(lag, late), 1, now)
    ensures !UsableAt(Straggling(lag, late), 1, now, DEFAULT_MAX_ORACLE_AGE)
  {
    StragglingStored(lag, late);
  }

  /** The straggling stretch is possible at the defaults, and ends with a stale oracle. */
  lemma StragglingIsStale(lag: nat, late: nat, lag': nat, late': nat, misses: nat)
    requires lag <= 3_601 && late <= 1 && lag <= lag' && late <= late' && MissesOf(lag, late) <= misses
    ensures !Tolerated(Defaults(lag', late', misses), DEFAULT_MAX_ORACLE_AGE)
  {
    var log, timing := Straggling(lag, late), Defaults(lag', late', misses);
    var n, now := 1, DAY + 6 * 3_600 + 120;
    StragglingIsHealthy(lag, late, lag', late', misses);
    StragglingEnds(lag, late, now);
    assert Healthy(log, timing) && InForce(log, n, now) && !UsableAt(log, n, now, DEFAULT_MAX_ORACLE_AGE);
  }

  /** With the defaults and a maximum age of six hours the window never refuses the oracle
      if and only if no tick is missed and the service's clock lags by at most one hour, or
      no two ticks in a row are missed, the clock does not lag and nothing lands late. */
  lemma DefaultsTolerateIff(lag: nat, late: nat, misses: nat)
    ensures Tolerated(Defaults(lag, late, misses), DEFAULT_MAX_ORACLE_AGE) <==>
            (misses == 0 && lag <= 3_600) || (misses == 1 && lag == 0 && late == 0)
  {
    var timing := Defaults(lag, late, misses);
    if (misses == 0 && lag <= 3_600) || (misses == 1 && lag == 0 && late == 0) {
      DefaultAge(lag, late, misses);
      forall log: Log, n: nat, now: nat | Healthy(log, timing) && InForce(log, n, now)
        ensures UsableAt(log, n, now, DEFAULT_MAX_ORACLE_AGE)
      {
        NeverStale(log, timing, DEFAULT_MAX_ORACLE_AGE, n, now);
      }
    } else if misses == 0 {
      StragglingIsStale(3_601, 0, lag, late, misses);
    } else if misses >= 2 {
      StragglingIsStale(0, 0, lag, late, misses);
    } else if lag > 0 {
      StragglingIsStale(1, 0, lag, late, misses);
    } else {
      StragglingIsStale(0, 1, lag, late, misses);
    }
  }
}
