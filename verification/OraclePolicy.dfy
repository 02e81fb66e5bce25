/** The rate-update policy that the oracle contract and the operator service share. */
module OraclePolicy {
  import opened Units
  import SwapMath

  datatype PolicyError = ZeroRate | RateDecreased | DailyCapExceeded | UpdateTooSoon(minInterval: nat)

  /** The day id and baseline that a new rate is measured against at `now`. */
  function RollUtcDay(now: nat, dayId: nat, baseline: Uint128, currentRate: Uint128): (nat, Uint128) {
    var today := now / DAY;
    if today != dayId then (today, currentRate) else (dayId, baseline)
  }

  function SaturatingSub(a: nat, b: nat): nat {
    if a >= b then a - b else 0
  }

  /** The day id and baseline to store when `newRate` is acceptable at `now`. */
  function CheckRateUpdate(now: nat, lastUpdate: nat, oldRate: Uint128, newRate: Uint128, dayId: nat, baseline: Uint128)
    : Result<(nat, Uint128), PolicyError>
  {
    if newRate == 0 then Err(ZeroRate)
    else if lastUpdate > 0 && SaturatingSub(now, lastUpdate) < MIN_UPDATE_INTERVAL then
      Err(UpdateTooSoon(MIN_UPDATE_INTERVAL))
    else if newRate < oldRate then Err(RateDecreased)
    else
      var (today, base) := RollUtcDay(now, dayId, baseline, oldRate);
      if lastUpdate == 0 then Ok((today, newRate))
      else
        var cap :- SwapMath.MaxRateAfterDailyCap(base).MapErr(_ => DailyCapExceeded);
        if newRate > cap then Err(DailyCapExceeded) else Ok((today, base))
  }

  const CAP_NUM: nat := 10_200
  const CAP_DEN: nat := 10_000

  /** The cap product of a baseline fits the 128-bit integers the contract computes with. */
  predicate CapInRange(baseline: Uint128) {
    baseline * CAP_NUM <= U128_MAX
  }

  /** The rate is within the daily cap, compared without rounding. */
  predicate WithinCap(rate: Uint128, baseline: Uint128) {
    rate * CAP_DEN <= baseline * CAP_NUM
  }

  /** Which refusal it is: a zero rate before the throttle, the throttle before a decrease,
      and a decrease before the cap. */
  lemma RefusalIs(now: nat, lastUpdate: nat, oldRate: Uint128, newRate: Uint128, dayId: nat, baseline: Uint128)
    ensures var r := CheckRateUpdate(now, lastUpdate, oldRate, newRate, dayId, baseline);
      var base := if now / DAY == dayId then baseline else oldRate;
      var throttled := 0 < lastUpdate && now < lastUpdate + 14_400;
      && (r == Err(ZeroRate) <==> newRate == 0)
      && (r == Err(UpdateTooSoon(14_400)) <==> newRate != 0 && throttled)
      && (r == Err(RateDecreased) <==> newRate != 0 && !throttled && newRate < oldRate)
      && (r == Err(DailyCapExceeded) <==>
            && newRate != 0 && !throttled && oldRate <= newRate && 0 < lastUpdate
            && (base * 10_200 > U128_MAX || newRate * 10_000 > base * 10_200))
      && (r.Ok? ==> r.value == (now / DAY, if lastUpdate == 0 then newRate else base))
  {
    AcceptedIff(now, lastUpdate, oldRate, newRate, dayId, baseline);
  }

  /** Acceptance as one condition on exact integers: the rounded cap refuses nothing that
      the unrounded cap allows, and an overflow of the cap product is a refusal. */
  lemma AcceptedIff(now: nat, lastUpdate: nat, oldRate: Uint128, newRate: Uint128, dayId: nat, baseline: Uint128)
    ensures var r := CheckRateUpdate(now, lastUpdate, oldRate, newRate, dayId, baseline);
      var base := RollUtcDay(now, dayId, baseline, oldRate).1;
      r.Ok? <==>
        && newRate > 0
        && newRate >= oldRate
        && (lastUpdate > 0 ==>
              && now >= lastUpdate + MIN_UPDATE_INTERVAL
              && CapInRange(base)
              && WithinCap(newRate, base))
  {
  }
}
