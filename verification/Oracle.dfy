/** The rate oracle contract: its entry points, and what every run of it keeps. */
module Oracle {
  import opened Units
  import opened OraclePolicy

  datatype Config = Config(governance: Addr, operator: Addr, paused: bool)

  datatype State = State(rate: Uint128, lastUpdateSec: nat, utcDayId: nat, dayBaselineRate: Uint128)

  /** Everything the contract stores; `pending` is a governance address proposed but not yet
      accepted. */
  datatype Store = Store(cfg: Config, st: State, pending: Option<Addr>)

  /** The answer to the `State` query; the pause flag comes from the configuration. */
  datatype StateResponse = StateResponse(
    rate: Uint128, lastUpdateSec: nat, utcDayId: nat, dayBaselineRate: Uint128, paused: bool)

  datatype OracleError =
    | Paused | Unauthorized | NoPendingGovernance | InvalidGovernanceProposal | Policy(error: PolicyError)

  datatype Msg =
    | UpdateRate(newRate: Uint128)
    | SetOracleOperator(address: Addr)
    | SetPaused(paused: bool)
    | ProposeGovernance(address: Addr)
    | AcceptGovernance

  function Instantiate(governance: Addr, operator: Addr, initialRate: Uint128, now: nat): Result<Store, OracleError> {
    if initialRate == 0 then Err(Policy(ZeroRate))
    else Ok(Store(Config(governance, operator, false), State(initialRate, 0, now / DAY, initialRate), None))
  }

  function ApplyUpdate(s: Store, now: nat, sender: Addr, newRate: Uint128): Result<Store, OracleError> {
    if s.cfg.paused then Err(Paused)
    else if sender != s.cfg.operator then Err(Unauthorized)
    else
      var (day, base) :- CheckRateUpdate(now, s.st.lastUpdateSec, s.st.rate, newRate, s.st.utcDayId,
                                         s.st.dayBaselineRate).MapErr(e => Policy(e));
      Ok(s.(st := State(newRate, now, day, base)))
  }

  function Execute(s: Store, now: nat, sender: Addr, msg: Msg): Result<Store, OracleError> {
    match msg
    case UpdateRate(newRate) => ApplyUpdate(s, now, sender, newRate)
    case SetOracleOperator(address) =>
      if sender != s.cfg.governance then Err(Unauthorized) else Ok(s.(cfg := s.cfg.(operator := address)))
    case SetPaused(paused) =>
      if sender != s.cfg.governance then Err(Unauthorized) else Ok(s.(cfg := s.cfg.(paused := paused)))
    case ProposeGovernance(address) =>
      if sender != s.cfg.governance then Err(Unauthorized) else Ok(s.(pending := Some(address)))
    case AcceptGovernance =>
      if s.pending.None? then Err(NoPendingGovernance)
      else if sender != s.pending.value then Err(InvalidGovernanceProposal)
      else Ok(s.(cfg := s.cfg.(governance := sender), pending := None))
  }

  function QueryState(s: Store): StateResponse {
    StateResponse(s.st.rate, s.st.lastUpdateSec, s.st.utcDayId, s.st.dayBaselineRate, s.cfg.paused)
  }

  /** The deployed contract: storage that its entry points overwrite field by field. */
  class Contract {
    var config: Config
    var state: State
    var pendingGovernance: Option<Addr>

    function View(): Store
      reads this
    {
      Store(config, state, pendingGovernance)
    }

    constructor (governance: Addr, operator: Addr, initialRate: Uint128, now: nat)
      requires initialRate > 0
      ensures Instantiate(governance, operator, initialRate, now) == Ok(View())
    {
      config := Config(governance, operator, false);
      state := State(initialRate, 0, now / DAY, initialRate);
      pendingGovernance := None;
    }

    /** Refuses a zero rate before anything is stored. */
    static method Create(governance: Addr, operator: Addr, initialRate: Uint128, now: nat)
      returns (r: Result<Contract, OracleError>)
      ensures r.Ok? ==> fresh(r.value) && Instantiate(governance, operator, initialRate, now) == Ok(r.value.View())
      ensures r.Err? ==> Instantiate(governance, operator, initialRate, now) == Err(r.error)
    {
      if initialRate == 0 {
        return Err(Policy(ZeroRate));
      }
      var c := new Contract(governance, operator, initialRate, now);
      r := Ok(c);
    }

    method ExecuteUpdateRate(now: nat, sender: Addr, newRate: Uint128) returns (r: Result<Uint128, OracleError>)
      modifies this
      ensures r.Ok? ==> ApplyUpdate(old(View()), now, sender, newRate) == Ok(View()) && r.value == newRate
      ensures r.Err? ==> ApplyUpdate(old(View()), now, sender, newRate) == Err(r.error) && View() == old(View())
    {
      if config.paused {
        return Err(Paused);
      }
      if sender != config.operator {
        return Err(Unauthorized);
      }
      var st := state;
      var checked := CheckRateUpdate(now, st.lastUpdateSec, st.rate, newRate, st.utcDayId, st.dayBaselineRate);
      if checked.Err? {
        return Err(Policy(checked.error));
      }
      var (day, base) := checked.value;
      st := st.(utcDayId := day);
      st := st.(dayBaselineRate := base);
      st := st.(rate := newRate);
      st := st.(lastUpdateSec := now);
      state := st;
      r := Ok(newRate);
    }

    method ExecuteSetOperator(sender: Addr, address: Addr) returns (r: Result<(), OracleError>)
      modifies this`config
      ensures forall now: nat ::
        Execute(old(View()), now, sender, SetOracleOperator(address)) == if r.Ok? then Ok(View()) else Err(r.error)
      ensures r.Err? ==> View() == old(View())
    {
      if sender != config.governance {
        return Err(Unauthorized);
      }
      config := config.(operator := address);
      r := Ok(());
    }

    method ExecuteSetPaused(sender: Addr, paused: bool) returns (r: Result<(), OracleError>)
      modifies this`config
      ensures forall now: nat ::
        Execute(old(View()), now, sender, SetPaused(paused)) == if r.Ok? then Ok(View()) else Err(r.error)
      ensures r.Err? ==> View() == old(View())
    {
      if sender != config.governance {
        return Err(Unauthorized);
      }
      config := config.(paused := paused);
      r := Ok(());
    }

    method ExecuteProposeGov(sender: Addr, address: Addr) returns (r: Result<(), OracleError>)
      modifies this`pendingGovernance
      ensures forall now: nat ::
        Execute(old(View()), now, sender, ProposeGovernance(address)) == if r.Ok? then Ok(View()) else Err(r.error)
      ensures r.Err? ==> View() == old(View())
    {
      if sender != config.governance {
        return Err(Unauthorized);
      }
      pendingGovernance := Some(address);
      r := Ok(());
    }

    method ExecuteAcceptGov(sender: Addr) returns (r: Result<(), OracleError>)
      modifies this`config, this`pendingGovernance
      ensures forall now: nat ::
        Execute(old(View()), now, sender, AcceptGovernance) == if r.Ok? then Ok(View()) else Err(r.error)
      ensures r.Err? ==> View() == old(View())
    {
      if pendingGovernance.None? {
        return Err(NoPendingGovernance);
      }
      if sender != pendingGovernance.value {
        return Err(InvalidGovernanceProposal);
      }
      config := config.(governance := pendingGovernance.value);
      pendingGovernance := None;
      r := Ok(());
    }
  }

  // ---------------------------------------------------------------- runs

  datatype Call = Call(time: nat, sender: Addr, msg: Msg)

  /** An accepted rate update. */
  datatype Update = Update(time: nat, rate: Uint128)

  /** A failed call reverts. */
  function Step(s: Store, c: Call): Store {
    match Execute(s, c.time, c.sender, c.msg)
    case Ok(s') => s'
    case Err(_) => s
  }

  function Run(s: Store, calls: seq<Call>): Store {
    if calls == [] then s else Step(Run(s, calls[..|calls| - 1]), calls[|calls| - 1])
  }

  predicate IsAccepted(s: Store, c: Call) {
    c.msg.UpdateRate? && Execute(s, c.time, c.sender, c.msg).Ok?
  }

  /** The accepted updates of a run, oldest first. */
  function Updates(s: Store, calls: seq<Call>): seq<Update> {
    if calls == [] then []
    else
      var init, last := calls[..|calls| - 1], calls[|calls| - 1];
      Updates(s, init) + if IsAccepted(Run(s, init), last) then [Update(last.time, last.msg.newRate)] else []
  }

  /** Block time is positive and never goes back. */
  predicate Timely(start: nat, calls: seq<Call>) {
    && start > 0
    && (forall i :: 0 <= i < |calls| ==> start <= calls[i].time)
    && (forall i, j :: 0 <= i < j < |calls| ==> calls[i].time <= calls[j].time)
  }

  function Now(start: nat, calls: seq<Call>): nat {
    if calls == [] then start else calls[|calls| - 1].time
  }

  ghost predicate Fresh(s: Store, start: nat) {
    exists gov, op, rate: Uint128 :: Instantiate(gov, op, rate, start) == Ok(s)
  }

  /** The stored state, described by the history of accepted updates. */
  ghost predicate Consistent(st: State, ups: seq<Update>, now: nat) {
    && 0 < st.dayBaselineRate <= st.rate
    && WithinCap(st.rate, st.dayBaselineRate)
    && st.lastUpdateSec <= now
    && st.utcDayId <= now / DAY
    && (ups == [] ==> st.lastUpdateSec == 0 && st.rate == st.dayBaselineRate)
    && (ups != [] ==>
          var u := ups[|ups| - 1];
          u.time > 0 && st.lastUpdateSec == u.time && st.rate == u.rate && st.utcDayId == u.time / DAY)
  }

  lemma StepKeepsConsistent(s: Store, ups: seq<Update>, now: nat, c: Call)
    requires Consistent(s.st, ups, now)
    requires 0 < now <= c.time
    ensures IsAccepted(s, c) ==> Consistent(Step(s, c).st, ups + [Update(c.time, c.msg.newRate)], c.time)
    ensures !IsAccepted(s, c) ==> Step(s, c).st == s.st && Consistent(s.st, ups, c.time)
  {
  }

  /** In every reachable state the stored fields agree with the accepted history: the rate
      and time are those of the last update, the day is its day, the baseline does not
      exceed the rate and the rate is within 2% of the baseline. */
  lemma {:induction false} RunIsConsistent(s: Store, start: nat, calls: seq<Call>)
    requires Fresh(s, start) && Timely(start, calls)
    ensures Consistent(Run(s, calls).st, Updates(s, calls), Now(start, calls))
  {
    if calls != [] {
      var init, last := calls[..|calls| - 1], calls[|calls| - 1];
      RunIsConsistent(s, start, init);
      StepKeepsConsistent(Run(s, init), Updates(s, init), Now(start, init), last);
    }
  }

  /** The rate in force when the UTC day of the last update began; the first update of all
      counts from its own rate. */
  function RateAtDayStart(ups: seq<Update>): Uint128
    requires ups != []
  {
    var last := |ups| - 1;
    if last == 0 then ups[0].rate
    else if ups[last - 1].time / DAY == ups[last].time / DAY then RateAtDayStart(ups[..last])
    else ups[last - 1].rate
  }

  /** The stored baseline, from which the daily cap is measured, is exactly that rate. */
  lemma {:induction false} BaselineIsDayStart(s: Store, start: nat, calls: seq<Call>)
    requires Fresh(s, start) && Timely(start, calls)
    ensures Updates(s, calls) != [] ==> Run(s, calls).st.dayBaselineRate == RateAtDayStart(Updates(s, calls))
  {
    if calls != [] {
      var init, last := calls[..|calls| - 1], calls[|calls| - 1];
      BaselineIsDayStart(s, start, init);
      RunIsConsistent(s, start, init);
      StepKeepsConsistent(Run(s, init), Updates(s, init), Now(start, init), last);
      if IsAccepted(Run(s, init), last) {
        BaselineAfter(Run(s, init), Updates(s, init), Now(start, init), last);
      } else {
        assert Updates(s, calls) == Updates(s, init);
      }
    }
  }

  lemma BaselineAfter(s: Store, ups: seq<Update>, now: nat, c: Call)
    requires Consistent(s.st, ups, now) && IsAccepted(s, c)
    requires ups != [] ==> s.st.dayBaselineRate == RateAtDayStart(ups)
    ensures Step(s, c).st.dayBaselineRate == RateAtDayStart(ups + [Update(c.time, c.msg.newRate)])
  {
    assert (ups + [Update(c.time, c.msg.newRate)])[..|ups|] == ups;
  }

  // ---------------------------------------------------------------- throttle

  predicate Spaced(ups: seq<Update>) {
    forall i :: 0 <= i < |ups| - 1 ==> ups[i].time + MIN_UPDATE_INTERVAL <= ups[i + 1].time
  }

  lemma {:induction false} UpdatesAreSpaced(s: Store, start: nat, calls: seq<Call>)
    requires Fresh(s, start) && Timely(start, calls)
    ensures Spaced(Updates(s, calls))
  {
    if calls != [] {
      var init, last := calls[..|calls| - 1], calls[|calls| - 1];
      UpdatesAreSpaced(s, start, init);
      RunIsConsistent(s, start, init);
      var before := Run(s, init);
      if IsAccepted(before, last) {
        AcceptedIff(last.time, before.st.lastUpdateSec, before.st.rate, last.msg.newRate,
                    before.st.utcDayId, before.st.dayBaselineRate);
      }
    }
  }

  /** How many updates have a time in `[from, to)`. */
  function CountIn(ups: seq<Update>, from: nat, to: nat): nat {
    if ups == [] then 0
    else
      var last := ups[|ups| - 1];
      CountIn(ups[..|ups| - 1], from, to) + if from <= last.time < to then 1 else 0
  }

  lemma {:induction false} SpacedFromLast(ups: seq<Update>, i: nat)
    requires Spaced(ups) && i < |ups| - 1
    ensures ups[i].time + MIN_UPDATE_INTERVAL <= ups[|ups| - 1].time
    decreases |ups| - i
  {
    if i + 1 < |ups| - 1 {
      SpacedFromLast(ups, i + 1);
    }
  }

  /** Moving the end of the interval across a stretch without updates changes nothing. */
  lemma {:induction false} CountSame(ups: seq<Update>, from: nat, to: nat, to': nat)
    requires forall u <- ups :: u.time < to <==> u.time < to'
    ensures CountIn(ups, from, to) == CountIn(ups, from, to')
  {
    if ups != [] {
      assert ups[|ups| - 1] in ups;
      CountSame(ups[..|ups| - 1], from, to, to');
    }
  }

  lemma {:induction false} CountNone(ups: seq<Update>, from: nat, to: nat)
    requires forall u <- ups :: !(from <= u.time < to)
    ensures CountIn(ups, from, to) == 0
  {
    if ups != [] {
      assert ups[|ups| - 1] in ups;
      CountNone(ups[..|ups| - 1], from, to);
    }
  }

  lemma {:induction false} SpacedCount(ups: seq<Update>, from: nat, to: nat)
    requires Spaced(ups) && from <= to
    ensures CountIn(ups, from, to) <= (to - from + MIN_UPDATE_INTERVAL - 1) / MIN_UPDATE_INTERVAL
  {
    if ups != [] {
      var init, last := ups[..|ups| - 1], ups[|ups| - 1];
      if !(from <= last.time < to) {
        SpacedCount(init, from, to);
      } else {
        forall u | u in init
          ensures u.time + MIN_UPDATE_INTERVAL <= last.time
        {
          var i :| 0 <= i < |init| && init[i] == u;
          SpacedFromLast(ups, i);
        }
        if last.time < from + MIN_UPDATE_INTERVAL {
          CountNone(init, from, to);
        } else {
          var to' := last.time - MIN_UPDATE_INTERVAL + 1;
          CountSame(init, from, to, to');
          SpacedCount(init, from, to');
        }
      }
    }
  }

  /** Over any run, the updates accepted in a closed span of `width` seconds number at most
      `width / 14400 + 1`, so at most six fall on one UTC day. */
  lemma ThrottleBoundsCount(s: Store, start: nat, calls: seq<Call>, from: nat, width: nat, day: nat)
    requires Fresh(s, start) && Timely(start, calls)
    ensures CountIn(Updates(s, calls), from, from + width + 1) <= width / MIN_UPDATE_INTERVAL + 1
    ensures CountIn(Updates(s, calls), day * DAY, (day + 1) * DAY) <= 6
  {
    UpdatesAreSpaced(s, start, calls);
    SpacedCount(Updates(s, calls), from, from + width + 1);
    SpacedCount(Updates(s, calls), day * DAY, (day + 1) * DAY);
  }

  // ---------------------------------------------------------------- multi-day growth

  function Pow(b: nat, n: nat): nat {
    if n == 0 then 1 else b * Pow(b, n - 1)
  }

  /** `rate <= r0 * 1.02^n`, over the integers. */
  predicate GrownAtMost(rate: nat, r0: nat, n: nat) {
    rate * Pow(CAP_DEN, n) <= r0 * Pow(CAP_NUM, n)
  }

  lemma GrowOnce(base: nat, rate: nat, r0: nat, n: nat)
    requires GrownAtMost(base, r0, n)
    requires rate * CAP_DEN <= base * CAP_NUM
    ensures GrownAtMost(rate, r0, n + 1)
  {
  }

  lemma {:induction false} GrownLonger(rate: nat, r0: nat, n: nat, m: nat)
    requires GrownAtMost(rate, r0, n) && n <= m
    ensures GrownAtMost(rate, r0, m)
    decreases m - n
  {
    if n < m {
      GrowOnce(rate, rate, r0, n);
      GrownLonger(rate, r0, n + 1, m);
    }
  }

  /** Growth of the stored rate and baseline since the first update of the history. */
  ghost predicate Grown(st: State, ups: seq<Update>)
    requires ups != []
  {
    var d0 := ups[0].time / DAY;
    && d0 <= st.utcDayId
    && GrownAtMost(st.dayBaselineRate, ups[0].rate, st.utcDayId - d0)
    && GrownAtMost(st.rate, ups[0].rate, st.utcDayId - d0 + 1)
  }

  lemma StepKeepsGrown(s: Store, ups: seq<Update>, now: nat, c: Call)
    requires Consistent(s.st, ups, now) && (ups != [] ==> Grown(s.st, ups))
    requires 0 < now <= c.time && IsAccepted(s, c)
    ensures Grown(Step(s, c).st, ups + [Update(c.time, c.msg.newRate)])
  {
    var st' := Step(s, c).st;
    var r0 := if ups == [] then c.msg.newRate else ups[0].rate;
    var d0 := if ups == [] then c.time / DAY else ups[0].time / DAY;
    StepKeepsConsistent(s, ups, now, c);
    assert (ups + [Update(c.time, c.msg.newRate)])[0] == if ups == [] then Update(c.time, c.msg.newRate) else ups[0];
    if ups == [] {
      assert GrownAtMost(st'.dayBaselineRate, r0, 0);
    } else if st'.utcDayId != s.st.utcDayId {
      GrownLonger(s.st.rate, r0, s.st.utcDayId - d0 + 1, st'.utcDayId - d0);
    }
    GrowOnce(st'.dayBaselineRate, st'.rate, r0, st'.utcDayId - d0);
  }

  lemma CallKeepsGrown(s: Store, ups: seq<Update>, now: nat, c: Call)
    requires Consistent(s.st, ups, now) && (ups != [] ==> Grown(s.st, ups))
    requires 0 < now <= c.time
    ensures var ups' := ups + if IsAccepted(s, c) then [Update(c.time, c.msg.newRate)] else [];
      ups' != [] ==> Grown(Step(s, c).st, ups')
  {
    if IsAccepted(s, c) {
      StepKeepsGrown(s, ups, now, c);
    } else {
      StepKeepsConsistent(s, ups, now, c);
      assert ups + [] == ups;
    }
  }

  lemma {:induction false} RunIsGrown(s: Store, start: nat, calls: seq<Call>)
    requires Fresh(s, start) && Timely(start, calls)
    ensures Updates(s, calls) != [] ==> Grown(Run(s, calls).st, Updates(s, calls))
  {
    if calls != [] {
      var init, last := calls[..|calls| - 1], calls[|calls| - 1];
      RunIsGrown(s, start, init);
      RunIsConsistent(s, start, init);
      CallKeepsGrown(Run(s, init), Updates(s, init), Now(start, init), last);
    }
  }

  lemma GrownByNow(st: State, ups: seq<Update>, now: nat)
    requires ups != [] && Consistent(st, ups, now) && Grown(st, ups)
    ensures ups[0].time / DAY <= now / DAY
    ensures GrownAtMost(st.rate, ups[0].rate, now / DAY - ups[0].time / DAY + 1)
  {
    var d0 := ups[0].time / DAY;
    GrownLonger(st.rate, ups[0].rate, st.utcDayId - d0 + 1, now / DAY - d0 + 1);
  }

  /** Once seeded at rate `r0` on UTC day `d0`, the rate of every reachable state on day `d`
      is at most `r0 * 1.02^(d - d0 + 1)`, whatever days are skipped and however many
      updates land on one day, and the baseline never exceeds the rate. */
  lemma MultiDayGrowth(s: Store, start: nat, calls: seq<Call>, now: nat, seed: Update, st: State)
    requires Fresh(s, start) && Timely(start, calls) && now == Now(start, calls)
    requires Updates(s, calls) != [] && seed == Updates(s, calls)[0] && st == Run(s, calls).st
    ensures seed.time / DAY <= now / DAY
    ensures GrownAtMost(st.rate, seed.rate, now / DAY - seed.time / DAY + 1)
    ensures st.dayBaselineRate <= st.rate
  {
    RunIsGrown(s, start, calls);
    RunIsConsistent(s, start, calls);
    GrownByNow(st, Updates(s, calls), now);
  }

  // ---------------------------------------------------------------- acceptance over time

  ghost predicate AcceptedFrom(s: Store, n: nat, proposed: Uint128) {
    forall t: nat :: t >= n ==> ApplyUpdate(s, t, s.cfg.operator, proposed).Ok?
  }

  /** A proposal that the policy accepts at time `n` in a reachable, unpaused state stays
      acceptable at every later block time, across any day roll, exactly when the oracle
      was never updated or the cap product of its current rate fits 128 bits. */
  lemma AcceptanceIsMonotone(s: Store, start: nat, calls: seq<Call>, n: nat, proposed: Uint128)
    requires Fresh(s, start) && Timely(start, calls)
    requires var o := Run(s, calls); !o.cfg.paused
    requires var st := Run(s, calls).st;
      CheckRateUpdate(n, st.lastUpdateSec, st.rate, proposed, st.utcDayId, st.dayBaselineRate).Ok?
    ensures var o := Run(s, calls);
      AcceptedFrom(o, n, proposed) <==> (o.st.lastUpdateSec == 0 || CapInRange(o.st.rate))
  {
    RunIsConsistent(s, start, calls);
    var o := Run(s, calls);
    var st := o.st;
    if st.lastUpdateSec == 0 || CapInRange(st.rate) {
      forall t: nat | t >= n
        ensures ApplyUpdate(o, t, o.cfg.operator, proposed).Ok?
      {
        AcceptedLater(st, n, t, proposed);
      }
    } else if AcceptedFrom(o, n, proposed) {
      var t := (n / DAY + st.utcDayId + 1) * DAY;
      assert ApplyUpdate(o, t, o.cfg.operator, proposed).Ok?;
      assert t / DAY == n / DAY + st.utcDayId + 1;
      AcceptedIff(t, st.lastUpdateSec, st.rate, proposed, st.utcDayId, st.dayBaselineRate);
    }
  }

  lemma AcceptedLater(st: State, n: nat, t: nat, proposed: Uint128)
    requires st.dayBaselineRate <= st.rate
    requires st.lastUpdateSec > 0 ==> CapInRange(st.rate) && st.utcDayId == st.lastUpdateSec / DAY
    requires n <= t
    requires CheckRateUpdate(n, st.lastUpdateSec, st.rate, proposed, st.utcDayId, st.dayBaselineRate).Ok?
    ensures CheckRateUpdate(t, st.lastUpdateSec, st.rate, proposed, st.utcDayId, st.dayBaselineRate).Ok?
  {
  }

  /** A same-rate refresh, four hours or more after the last update, is admitted exactly
      when the cap product of the baseline in force fits 128 bits; it always strictly
      advances the update time. So the 2% cap itself never blocks a refresh. */
  lemma HeartbeatIsAdmitted(s: Store, start: nat, calls: seq<Call>, t: nat)
    requires Fresh(s, start) && Timely(start, calls)
    requires var o := Run(s, calls);
      !o.cfg.paused && o.st.lastUpdateSec > 0 && t >= o.st.lastUpdateSec + MIN_UPDATE_INTERVAL
    ensures var o := Run(s, calls);
      var base := RollUtcDay(t, o.st.utcDayId, o.st.dayBaselineRate, o.st.rate).1;
      var r := ApplyUpdate(o, t, o.cfg.operator, o.st.rate);
      && (r.Ok? <==> CapInRange(base))
      && (CapInRange(o.st.rate) ==> r.Ok?)
      && (r.Ok? ==> r.value.st.rate == o.st.rate && r.value.st.lastUpdateSec == t > o.st.lastUpdateSec)
  {
    RunIsConsistent(s, start, calls);
    var st := Run(s, calls).st;
    AcceptedIff(t, st.lastUpdateSec, st.rate, st.rate, st.utcDayId, st.dayBaselineRate);
  }

  /** The condition is needed: two updates on one day reach a state from which no update,
      not even a refresh, is accepted on the next day. */
  lemma HeartbeatOverflowWitness()
    ensures var r0: Uint128 := U128_MAX / CAP_NUM;
      var r1: Uint128 := r0 / 100 * 101;
      exists s, calls ::
        && Fresh(s, DAY) && Timely(DAY, calls)
        && Run(s, calls).st == State(r1, DAY + MIN_UPDATE_INTERVAL, 1, r0)
        && !Run(s, calls).cfg.paused
        && ApplyUpdate(Run(s, calls), 2 * DAY, Run(s, calls).cfg.operator, r1) == Err(Policy(DailyCapExceeded))
  {
    var r0: Uint128 := U128_MAX / CAP_NUM;
    var r1: Uint128 := r0 / 100 * 101;
    var s := Instantiate(Addr("gov"), Addr("op"), r0, DAY).value;
    var c1 := Call(DAY, Addr("op"), UpdateRate(r0));
    var c2 := Call(DAY + MIN_UPDATE_INTERVAL, Addr("op"), UpdateRate(r1));
    var calls := [c1, c2];
    assert Fresh(s, DAY);
    assert calls[..1] == [c1] && [c1][..0] == [];
    assert Run(s, [c1]) == Step(s, c1);
    assert Run(s, calls) == Step(Step(s, c1), c2);
  }
}
