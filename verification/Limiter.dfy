/** The fixed-window volume counter of the swap window and of the native wrap, and what it
    guarantees about every sliding 24-hour interval. */
module Limiter {
  import opened Units

  datatype LimitError = PerTxLimit | RollingLimit | Overflow

  /** The stored counter. */
  datatype Rolling = Rolling(windowStart: nat, volume: Uint128)

  datatype Limits = Limits(perTx: Uint128, rolling: Uint128)

  const EMPTY := Rolling(0, 0)

  /** The counter after the window has been reopened, if it has run out. */
  function Reopened(roll: Rolling, now: nat): Rolling {
    if roll.windowStart == 0 || now >= roll.windowStart + DAY then Rolling(now, 0) else roll
  }

  function Admit(roll: Rolling, now: nat, limits: Limits, notional: Uint128): Result<Rolling, LimitError> {
    if notional > limits.perTx then Err(PerTxLimit)
    else
      var next := Reopened(roll, now).volume + notional;
      if next > U128_MAX then Err(Overflow)
      else if next > limits.rolling then Err(RollingLimit)
      else Ok(Rolling(Reopened(roll, now).windowStart, next))
  }

  /** The in-memory counter that the check mutates before the caller saves it. */
  class Counter {
    var windowStart: nat
    var volume: Uint128

    constructor (roll: Rolling)
      ensures View() == roll
    {
      windowStart, volume := roll.windowStart, roll.volume;
    }

    function View(): Rolling
      reads this
    {
      Rolling(windowStart, volume)
    }

    /** On a refusal by the rolling limit the object may already have been reopened; the
        callers drop it then, so nothing of it is stored. */
    method EnsureLimits(now: nat, limits: Limits, notional: Uint128) returns (r: Result<(), LimitError>)
      modifies this
      ensures r.Ok? ==> Admit(old(View()), now, limits, notional) == Ok(View())
      ensures r.Err? ==> Admit(old(View()), now, limits, notional) == Err(r.error)
      ensures r.Err? ==> View() == if r.error.PerTxLimit? then old(View()) else Reopened(old(View()), now)
    {
      if notional > limits.perTx {
        return Err(PerTxLimit);
      }
      if windowStart == 0 || now >= windowStart + DAY {
        windowStart := now;
        volume := 0;
      }
      if volume + notional > U128_MAX {
        return Err(Overflow);
      }
      var next: Uint128 := volume + notional;
      if next > limits.rolling {
        return Err(RollingLimit);
      }
      volume := next;
      r := Ok(());
    }
  }

  // ---------------------------------------------------------------- traces

  /** One request: when, under which limits, and for how much. */
  datatype Attempt = Attempt(time: nat, limits: Limits, notional: Uint128)

  /** An admitted amount. */
  datatype Entry = Entry(time: nat, amount: nat)

  /** The counter together with the history of what it admitted. */
  datatype Trace = Trace(roll: Rolling, log: seq<Entry>)

  /** A refused request leaves the stored counter as it was. */
  function Step(t: Trace, a: Attempt): Trace {
    match Admit(t.roll, a.time, a.limits, a.notional)
    case Ok(roll) => Trace(roll, t.log + [Entry(a.time, a.notional)])
    case Err(_) => t
  }

  function Run(attempts: seq<Attempt>): Trace {
    if attempts == [] then Trace(EMPTY, [])
    else Step(Run(attempts[..|attempts| - 1]), attempts[|attempts| - 1])
  }

  /** Total admitted at times in `[from, to)`. */
  function Total(log: seq<Entry>, from: int, to: int): nat {
    if log == [] then 0
    else
      var last := log[|log| - 1];
      Total(log[..|log| - 1], from, to) + if from <= last.time < to then last.amount else 0
  }

  /** Total admitted in the half-open day that starts at `from`. */
  function DayTotal(log: seq<Entry>, from: int): nat {
    Total(log, from, from + DAY)
  }

  /** Total admitted at or after `from`. */
  function Since(log: seq<Entry>, from: int): nat {
    if log == [] then 0
    else
      var last := log[|log| - 1];
      Since(log[..|log| - 1], from) + if from <= last.time then last.amount else 0
  }

  lemma {:induction false} TotalAppend(log: seq<Entry>, e: Entry, from: int, to: int)
    ensures Total(log + [e], from, to) == Total(log, from, to) + if from <= e.time < to then e.amount else 0
    ensures Since(log + [e], from) == Since(log, from) + if from <= e.time then e.amount else 0
  {
  }

  lemma {:induction false} TotalBounds(log: seq<Entry>, from: int, mid: int, to: int)
    requires from <= mid
    ensures Total(log, from, to) <= Total(log, from, mid) + Since(log, mid)
    ensures Total(log, from, to) <= Since(log, from)
  {
    if log != [] {
      TotalBounds(log[..|log| - 1], from, mid, to);
    }
  }

  lemma {:induction false} TotalNested(log: seq<Entry>, from: int, to: int, from': int, to': int)
    requires from' <= from && to <= to'
    ensures Total(log, from, to) <= Total(log, from', to')
  {
    if log != [] {
      TotalNested(log[..|log| - 1], from, to, from', to');
    }
  }

  lemma {:induction false} NothingAfter(log: seq<Entry>, from: int)
    requires forall e <- log :: e.time < from
    ensures Since(log, from) == 0
  {
    if log != [] {
      assert log[|log| - 1] in log;
      NothingAfter(log[..|log| - 1], from);
    }
  }

  /** The requests come at positive, nondecreasing times, each of at least `least`, and the
      rolling limit in force never exceeds `top`. */
  predicate Orderly(attempts: seq<Attempt>, least: nat, top: nat) {
    && (forall a <- attempts :: a.time > 0 && a.limits.rolling <= top && a.notional >= least)
    && (forall i, j :: 0 <= i < j < |attempts| ==> attempts[i].time <= attempts[j].time)
  }

  /** The counter refines its history: the stored volume is the sum of what was admitted
      since the stored window start. Beside that, the entries after the start leave room
      for the one that opened the window, and so does the day up to the start. */
  ghost predicate Refines(t: Trace, now: nat, least: nat, top: nat) {
    var s := t.roll.windowStart;
    && s <= now
    && (forall e <- t.log :: 0 < e.time <= now && e.time < s + DAY)
    && t.roll.volume == Since(t.log, s)
    && (t.log == [] ==> s == 0)
    && (t.log != [] ==>
          && s > 0
          && Since(t.log, s + 1) + least <= t.roll.volume <= top
          && Total(t.log, s - DAY + 1, s) + least <= top)
  }

  /** Every half-open day holds at most `2 * top - least`. */
  ghost predicate SlidingBound(log: seq<Entry>, least: nat, top: nat) {
    log != [] ==> forall a: int :: DayTotal(log, a) + least <= 2 * top
  }

  lemma {:induction false} SinceAntitone(log: seq<Entry>, from: int, from': int)
    requires from <= from'
    ensures Since(log, from') <= Since(log, from)
  {
    if log != [] {
      SinceAntitone(log[..|log| - 1], from, from');
    }
  }

  /** An amount admitted into the window that is open. */
  lemma SameWindow(t: Trace, e: Entry, now: nat, least: nat, top: nat)
    requires Refines(t, now, least, top) && t.log != []
    requires now <= e.time < t.roll.windowStart + DAY && least <= e.amount && t.roll.volume + e.amount <= top
    requires t.roll.volume + e.amount <= U128_MAX
    ensures Refines(Trace(Rolling(t.roll.windowStart, t.roll.volume + e.amount), t.log + [e]), e.time, least, top)
  {
    var s := t.roll.windowStart;
    TotalAppend(t.log, e, s, s);
    TotalAppend(t.log, e, s + 1, s);
    TotalAppend(t.log, e, s - DAY + 1, s);
  }

  /** An amount that opens a window: everything admitted so far lies in the one before. */
  lemma NewWindow(t: Trace, e: Entry, now: nat, least: nat, top: nat)
    requires Refines(t, now, least, top)
    requires 0 < e.time && now <= e.time && (t.log != [] ==> t.roll.windowStart + DAY <= e.time)
    requires least <= e.amount <= top && e.amount <= U128_MAX
    ensures Refines(Trace(Rolling(e.time, e.amount), t.log + [e]), e.time, least, top)
  {
    var s, s' := t.roll.windowStart, e.time;
    TotalAppend(t.log, e, s', s');
    TotalAppend(t.log, e, s' + 1, s');
    TotalAppend(t.log, e, s' - DAY + 1, s');
    NothingAfter(t.log, s');
    NothingAfter(t.log, s' + 1);
    TotalBounds(t.log, s' - DAY + 1, s' - DAY + 1, s');
    if t.log != [] {
      SinceAntitone(t.log, s + 1, s' - DAY + 1);
    }
  }

  lemma StepKeepsRefines(t: Trace, now: nat, a: Attempt, least: nat, top: nat)
    requires Refines(t, now, least, top)
    requires 0 < a.time && now <= a.time
    requires a.limits.rolling <= top && least <= a.notional
    ensures Refines(Step(t, a), a.time, least, top)
  {
    if Admit(t.roll, a.time, a.limits, a.notional).Ok? {
      if Reopened(t.roll, a.time) == t.roll && t.log != [] {
        SameWindow(t, Entry(a.time, a.notional), now, least, top);
      } else {
        NewWindow(t, Entry(a.time, a.notional), now, least, top);
      }
    }
  }

  lemma StepKeepsSlidingBound(t: Trace, now: nat, a: Attempt, least: nat, top: nat)
    requires Refines(t, now, least, top) && SlidingBound(t.log, least, top)
    requires 0 < a.time && now <= a.time
    requires a.limits.rolling <= top && least <= a.notional
    ensures SlidingBound(Step(t, a).log, least, top)
  {
    if Admit(t.roll, a.time, a.limits, a.notional).Ok? {
      var t' := Step(t, a);
      var s := t'.roll.windowStart;
      StepKeepsRefines(t, now, a, least, top);
      forall x: int
        ensures DayTotal(t'.log, x) + least <= 2 * top
      {
        if x <= a.time < x + DAY {
          if x <= s {
            TotalBounds(t'.log, x, s, x + DAY);
            TotalNested(t'.log, x, s, s - DAY + 1, s);
          } else {
            TotalBounds(t'.log, x, x, x + DAY);
            SinceAntitone(t'.log, s, x);
          }
        } else {
          TotalAppend(t.log, Entry(a.time, a.notional), x, x + DAY);
          assert t.log != [] ==> DayTotal(t.log, x) + least <= 2 * top;
          if t.log == [] {
            assert Total(t.log, x, x + DAY) == 0;
          }
        }
      }
    }
  }

  lemma {:induction false} RunRefines(attempts: seq<Attempt>, least: nat, top: nat)
    requires Orderly(attempts, least, top)
    ensures var now := if attempts == [] then 0 else attempts[|attempts| - 1].time;
      Refines(Run(attempts), now, least, top) && SlidingBound(Run(attempts).log, least, top)
  {
    if attempts != [] {
      var init, last := attempts[..|attempts| - 1], attempts[|attempts| - 1];
      assert last in attempts && forall a <- init :: a in attempts;
      RunRefines(init, least, top);
      var now := if init == [] then 0 else init[|init| - 1].time;
      StepKeepsRefines(Run(init), now, last, least, top);
      StepKeepsSlidingBound(Run(init), now, last, least, top);
    }
  }

  /** Over any accepted trace under a rolling limit of at most `top`, every half-open
      24-hour interval holds at most `2 * top`, and one atom fewer when no zero amount is
      admitted. The stored volume is the sum admitted since the stored window start. */
  lemma SlidingDayBound(attempts: seq<Attempt>, top: nat, from: int)
    requires Orderly(attempts, 0, top)
    ensures DayTotal(Run(attempts).log, from) <= 2 * top
    ensures Orderly(attempts, 1, top) && Run(attempts).log != [] ==>
              DayTotal(Run(attempts).log, from) <= 2 * top - 1
    ensures Run(attempts).roll.volume == Since(Run(attempts).log, Run(attempts).roll.windowStart) <= top
  {
    RunRefines(attempts, 0, top);
    if Orderly(attempts, 1, top) {
      RunRefines(attempts, 1, top);
    }
  }

  /** One atom, almost the limit a day later, and the limit again in the next window. */
  function Straddling(top: Uint128): seq<Attempt>
    requires top >= 2
  {
    var limits := Limits(top, top);
    [Attempt(DAY, limits, 1), Attempt(2 * DAY - 1, limits, top - 1), Attempt(2 * DAY, limits, top)]
  }

  function StraddlingLog(top: Uint128): seq<Entry>
    requires top >= 2
  {
    [Entry(DAY, 1), Entry(2 * DAY - 1, top - 1), Entry(2 * DAY, top)]
  }

  lemma StraddlingIsAdmitted(top: Uint128)
    requires top >= 2
    ensures Run(Straddling(top)).log == StraddlingLog(top)
  {
    var tries, log := Straddling(top), StraddlingLog(top);
    assert tries[..2][..1] == tries[..1] && tries[..1][..0] == [];
    assert Run(tries[..1]) == Trace(Rolling(DAY, 1), log[..1]);
    assert Run(tries[..2]) == Step(Run(tries[..1]), tries[1]) == Trace(Rolling(DAY, top), log[..2]);
    assert Run(tries) == Step(Run(tries[..2]), tries[2]);
  }

  lemma StraddlingTotal(top: Uint128)
    requires top >= 2
    ensures DayTotal(StraddlingLog(top), 2 * DAY - 1) == 2 * top - 1
  {
    var log := StraddlingLog(top);
    TotalAppend([], log[0], 2 * DAY - 1, 3 * DAY - 1);
    TotalAppend([log[0]], log[1], 2 * DAY - 1, 3 * DAY - 1);
    TotalAppend([log[0], log[1]], log[2], 2 * DAY - 1, 3 * DAY - 1);
    assert [] + [log[0]] == [log[0]] && [log[0]] + [log[1]] == [log[0], log[1]] && [log[0], log[1]] + [log[2]] == log;
  }

  /** The bound is reached for every limit of at least two: a rolling limit does not bound
      a sliding day, and nothing below `2 * top - 1` does. */
  lemma SlidingDayBoundIsTight(top: Uint128)
    requires top >= 2
    ensures exists attempts :: Orderly(attempts, 1, top)
                            && DayTotal(Run(attempts).log, 2 * DAY - 1) == 2 * top - 1
  {
    StraddlingIsAdmitted(top);
    StraddlingTotal(top);
    assert Orderly(Straddling(top), 1, top);
  }
}
