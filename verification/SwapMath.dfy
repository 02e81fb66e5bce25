/** Swap arithmetic: two floors in each direction, a basis-point fee on the UST1 leg. */
module SwapMath {
  import opened Units

  datatype MathError = Overflow | DivisionByZero | InvalidFeeBps | TooLarge

  function ApplyFee(amount: Uint128, feeBps: nat): Result<Uint128, MathError> {
    if feeBps > BPS_DENOM then Err(InvalidFeeBps)
    else
      var num := amount * (BPS_DENOM - feeBps);
      if num > U128_MAX then Err(Overflow) else Ok(num / BPS_DENOM)
  }

  function FeeAmount(gross: Uint128, feeBps: nat): Result<Uint128, MathError> {
    var after :- ApplyFee(gross, feeBps);
    if after > gross then Err(Overflow) else Ok(gross - after)
  }

  /** The exact fee on `gross`, rounded up. */
  function Fee(gross: nat, feeBps: nat): nat {
    (gross * feeBps + BPS_DENOM - 1) / BPS_DENOM
  }

  function VfdusdToUst1(amount: Uint128, rate: Uint128): Result<Uint128, MathError> {
    var scaled := amount * rate / RATE_SCALE;
    if scaled > U128_MAX then Err(TooLarge) else Ok(scaled)
  }

  function Deposit(amount: Uint128, rate: Uint128, feeBps: nat): Result<Uint128, MathError> {
    var before :- VfdusdToUst1(amount, rate);
    ApplyFee(before, feeBps)
  }

  function AfterFeeToVfdusd(afterFee: Uint128, rate: Uint128): Result<Uint128, MathError> {
    if rate == 0 then Err(DivisionByZero)
    else
      var scaled := afterFee * RATE_SCALE / rate;
      if scaled > U128_MAX then Err(TooLarge) else Ok(scaled)
  }

  function Withdraw(gross: Uint128, rate: Uint128, feeBps: nat): Result<Uint128, MathError> {
    var after :- ApplyFee(gross, feeBps);
    AfterFeeToVfdusd(after, rate)
  }

  function MaxRateAfterDailyCap(baseline: Uint128): Result<Uint128, MathError> {
    var num := baseline * (10_000 + MAX_DAILY_INCREASE_BPS);
    if num > U128_MAX then Err(Overflow) else Ok(num / 10_000)
  }

  // ---------------------------------------------------------------- floors

  lemma DivBounds(n: nat, d: nat)
    requires d > 0
    ensures n / d * d <= n < (n / d + 1) * d
  {
  }

  /** A quotient is pinned by its two bounds. */
  lemma DivUnique(n: nat, d: nat, q: int)
    requires d > 0
    requires q * d <= n < (q + 1) * d
    ensures n / d == q
  {
    DivBounds(n, d);
    if q < n / d {
      MulLe(q + 1, n / d, d);
    } else if n / d < q {
      MulLe(n / d + 1, q, d);
    }
  }

  lemma MulLe(a: int, b: int, c: nat)
    requires a <= b
    ensures a * c <= b * c
  {
  }

  lemma CancelLe(a: int, b: int, c: nat)
    requires c > 0
    requires a * c <= b * c
    ensures a <= b
  {
    if a > b {
      MulLe(b + 1, a, c);
    }
  }

  lemma CancelLt(a: int, b: int, c: nat)
    requires a * c < b * c
    ensures a < b
  {
  }

  /** Flooring a sum loses at most one against the sum of the floors, and never gains. */
  lemma DivSum(a: nat, b: nat, d: nat)
    requires d > 0
    ensures a / d + b / d <= (a + b) / d <= a / d + b / d + 1
  {
    DivBounds(a, d);
    DivBounds(b, d);
    DivBounds(a + b, d);
    var qa, qb, q := a / d, b / d, (a + b) / d;
    assert (qa + qb) * d == qa * d + qb * d;
    assert (qa + 1) * d + (qb + 1) * d == (qa + qb + 2) * d;
    CancelLt(qa + qb, q + 1, d);
    CancelLt(q, qa + qb + 2, d);
  }

  // ---------------------------------------------------------------- one call

  /** What the fee step keeps, exactly: the two integer bounds that define the floor. */
  lemma ApplyFeeBounds(amount: Uint128, feeBps: nat)
    requires ApplyFee(amount, feeBps).Ok?
    ensures var out := ApplyFee(amount, feeBps).value;
      out <= amount
      && out * BPS_DENOM <= amount * (BPS_DENOM - feeBps) < (out + 1) * BPS_DENOM
  {
    var k := BPS_DENOM - feeBps;
    DivBounds(amount * k, BPS_DENOM);
    assert amount * k <= amount * BPS_DENOM by { MulLe(k, BPS_DENOM, amount); }
  }

  /** The withheld fee is the exact fee rounded up, and the fee step succeeds exactly
      when the fee is at most 100% and the product fits. */
  lemma FeeIsCeiling(gross: Uint128, feeBps: nat)
    ensures FeeAmount(gross, feeBps).Ok? <==>
            feeBps <= BPS_DENOM && gross * (BPS_DENOM - feeBps) <= U128_MAX
    ensures FeeAmount(gross, feeBps).Ok? ==>
              FeeAmount(gross, feeBps).value == Fee(gross, feeBps)
  {
  }

  /** A deposit never credits more UST1 than the vFDUSD is worth, fee included. */
  lemma DepositIsBacked(amount: Uint128, rate: Uint128, feeBps: nat)
    requires Deposit(amount, rate, feeBps).Ok?
    ensures var before := VfdusdToUst1(amount, rate).value;
      var out := Deposit(amount, rate, feeBps).value;
      out <= before
      && FeeAmount(before, feeBps) == Ok(before - out)
      && before * RATE_SCALE <= amount * rate < (before + 1) * RATE_SCALE
  {
  }

  /** A withdrawal never pays more vFDUSD than the after-fee UST1 is worth. */
  lemma WithdrawIsBacked(gross: Uint128, rate: Uint128, feeBps: nat)
    requires Withdraw(gross, rate, feeBps).Ok?
    ensures rate > 0
    ensures var after := ApplyFee(gross, feeBps).value;
      var out := Withdraw(gross, rate, feeBps).value;
      after <= gross && out * rate <= after * RATE_SCALE < (out + 1) * rate
  {
  }

  // ---------------------------------------------------------------- documented formula

  /** The documented one-line formula, with a single floor. */
  function DepositIdeal(amount: Uint128, rate: Uint128, feeBps: nat): nat
    requires feeBps <= BPS_DENOM
  {
    amount * rate * (BPS_DENOM - feeBps) / (RATE_SCALE * BPS_DENOM)
  }

  /** The code floors twice. It is never above the documented single floor, at most one
      atom below it, and equal to it exactly when the two discarded remainders together
      do not reach one atom. */
  lemma DepositVersusIdeal(amount: Uint128, rate: Uint128, feeBps: nat)
    requires Deposit(amount, rate, feeBps).Ok?
    ensures var out := Deposit(amount, rate, feeBps).value;
      var ideal := DepositIdeal(amount, rate, feeBps);
      var k := BPS_DENOM - feeBps;
      var rateDust := amount * rate % RATE_SCALE;
      var feeDust := VfdusdToUst1(amount, rate).value * k % BPS_DENOM;
      out <= ideal <= out + 1
      && (out == ideal <==> feeDust * RATE_SCALE + rateDust * k < RATE_SCALE * BPS_DENOM)
  {
    var k := BPS_DENOM - feeBps;
    var before := VfdusdToUst1(amount, rate).value;
    var rateDust := amount * rate % RATE_SCALE;
    var feeDust := before * k % BPS_DENOM;
    var out := Deposit(amount, rate, feeBps).value;
    var unit := RATE_SCALE * BPS_DENOM;
    var rest := feeDust * RATE_SCALE + rateDust * k;
    assert before * k == out * BPS_DENOM + feeDust;
    calc {
      amount * rate * k;
      (before * RATE_SCALE + rateDust) * k;
      before * RATE_SCALE * k + rateDust * k;
      { assert before * RATE_SCALE * k == before * k * RATE_SCALE; }
      before * k * RATE_SCALE + rateDust * k;
      (out * BPS_DENOM + feeDust) * RATE_SCALE + rateDust * k;
      out * unit + rest;
    }
    MulLe(k, BPS_DENOM, rateDust);
    assert 0 <= rest < 2 * unit;
    DivUnique(amount * rate * k, unit, if rest < unit then out else out + 1);
  }

  /** One atom at rate 1.5 with a 1 bp fee: the documented formula gives 1, the code 0. */
  lemma DepositBelowIdealWitness()
    ensures var rate := RATE_SCALE + RATE_SCALE / 2;
      Deposit(1, rate, 1) == Ok(0) && DepositIdeal(1, rate, 1) == 1
  {
  }

  // ---------------------------------------------------------------- round trip

  /** Depositing and withdrawing at one rate (at least par) and one fee returns the exact
      twice-taxed amount less fewer than four atoms, and never more than it. */
  lemma RoundTripBounds(x: Uint128, rate: Uint128, feeBps: nat)
    requires rate >= RATE_SCALE
    requires Deposit(x, rate, feeBps).Ok?
    requires Withdraw(Deposit(x, rate, feeBps).value, rate, feeBps).Ok?
    ensures var v := Withdraw(Deposit(x, rate, feeBps).value, rate, feeBps).value;
      var k := BPS_DENOM - feeBps;
      v * (BPS_DENOM * BPS_DENOM) <= x * (k * k) < (v + 4) * (BPS_DENOM * BPS_DENOM)
  {
    var before := VfdusdToUst1(x, rate).value;
    var out := Deposit(x, rate, feeBps).value;
    var after := ApplyFee(out, feeBps).value;
    var v := Withdraw(out, rate, feeBps).value;
    var k := BPS_DENOM - feeBps;
    DepositIsBacked(x, rate, feeBps);
    ApplyFeeBounds(before, feeBps);
    WithdrawIsBacked(out, rate, feeBps);
    ApplyFeeBounds(out, feeBps);
    TwiceTaxed(before, out, after, k);
    RoundTripUpper(x, rate, before, after, v, k * k);
    RoundTripLower(x, rate, before, after, v, k * k);
  }

  lemma TwiceTaxed(before: nat, out: nat, after: nat, k: nat)
    requires k <= BPS_DENOM
    requires out * BPS_DENOM <= before * k < (out + 1) * BPS_DENOM
    requires after * BPS_DENOM <= out * k < (after + 1) * BPS_DENOM
    ensures after * (BPS_DENOM * BPS_DENOM) <= before * (k * k)
    ensures (before + 1) * (k * k) < (after + 3) * (BPS_DENOM * BPS_DENOM)
  {
    var b := BPS_DENOM;
    assert before * (k * k) == before * k * k;
    assert out * b * k == out * k * b;
    MulLe(out * b, before * k, k);
    MulLe(before * k, out * b + (b - 1), k);
    assert (out * b + (b - 1)) * k == out * k * b + (b - 1) * k;
    MulLe(k, b, b - 1);
    MulLe(k, b, k);
    MulLe(k, b, b);
    assert (before + 1) * (k * k) == before * (k * k) + k * k;
  }

  lemma RoundTripUpper(x: nat, rate: nat, before: nat, after: nat, v: nat, kk: nat)
    requires rate > 0
    requires before * RATE_SCALE <= x * rate
    requires after * (BPS_DENOM * BPS_DENOM) <= before * kk
    requires v * rate <= after * RATE_SCALE
    ensures v * (BPS_DENOM * BPS_DENOM) <= x * kk
  {
  }

  lemma RoundTripLower(x: nat, rate: nat, before: nat, after: nat, v: nat, kk: nat)
    requires rate >= RATE_SCALE
    requires x * rate < (before + 1) * RATE_SCALE
    requires (before + 1) * kk < (after + 3) * (BPS_DENOM * BPS_DENOM)
    requires after * RATE_SCALE < (v + 1) * rate
    ensures x * kk < (v + 4) * (BPS_DENOM * BPS_DENOM)
  {
  }

  /** With no fee, a round trip at or above par loses at most one atom. */
  lemma RoundTripFreeLosesOne(x: Uint128, rate: Uint128)
    requires rate >= RATE_SCALE
    requires Deposit(x, rate, 0).Ok?
    requires Withdraw(Deposit(x, rate, 0).value, rate, 0).Ok?
    ensures x - 1 <= Withdraw(Deposit(x, rate, 0).value, rate, 0).value <= x
  {
    var before := Deposit(x, rate, 0).value;
    var v := Withdraw(before, rate, 0).value;
    DepositIsBacked(x, rate, 0);
    WithdrawIsBacked(before, rate, 0);
    ApplyFeeBounds(before, 0);
    CancelLe(v, x, rate);
    assert (v + 1) * rate + rate == (v + 2) * rate;
    CancelLt(x, v + 2, rate);
  }

  // ---------------------------------------------------------------- splitting

  function Sum(xs: seq<Uint128>): nat {
    if xs == [] then 0 else Sum(xs[..|xs| - 1]) + xs[|xs| - 1]
  }

  /** Total UST1 credited when every piece is deposited on its own. */
  function SumDeposits(xs: seq<Uint128>, rate: Uint128, feeBps: nat): nat
    requires forall i :: 0 <= i < |xs| ==> Deposit(xs[i], rate, feeBps).Ok?
  {
    if xs == [] then 0
    else SumDeposits(xs[..|xs| - 1], rate, feeBps) + Deposit(xs[|xs| - 1], rate, feeBps).value
  }

  lemma DepositMonotone(x: Uint128, y: Uint128, rate: Uint128, feeBps: nat)
    requires x <= y
    requires Deposit(y, rate, feeBps).Ok?
    ensures Deposit(x, rate, feeBps).Ok?
  {
    MulLe(x, y, rate);
    assert x * rate / RATE_SCALE <= y * rate / RATE_SCALE;
    MulLe(x * rate / RATE_SCALE, y * rate / RATE_SCALE, BPS_DENOM - feeBps);
  }

  /** The fee floor taken on a joint amount that is at most one above the two parts. */
  lemma FeeFloorJoin(p: nat, q: nat, joint: nat, k: nat)
    requires p + q <= joint <= p + q + 1
    requires k <= BPS_DENOM
    ensures p * k / BPS_DENOM + q * k / BPS_DENOM <= joint * k / BPS_DENOM
         <= p * k / BPS_DENOM + q * k / BPS_DENOM + 2
  {
  }

  /** Joining two deposits never loses and gains at most two atoms, one for each floor. */
  lemma DepositJoin(x: Uint128, y: Uint128, rate: Uint128, feeBps: nat)
    requires x + y <= U128_MAX
    requires Deposit(x + y, rate, feeBps).Ok?
    ensures Deposit(x, rate, feeBps).Ok? && Deposit(y, rate, feeBps).Ok?
    ensures var apart := Deposit(x, rate, feeBps).value + Deposit(y, rate, feeBps).value;
      apart <= Deposit(x + y, rate, feeBps).value <= apart + 2
  {
    DepositMonotone(x, x + y, rate, feeBps);
    DepositMonotone(y, x + y, rate, feeBps);
    assert (x + y) * rate == x * rate + y * rate;
    DivSum(x * rate, y * rate, RATE_SCALE);
    FeeFloorJoin(x * rate / RATE_SCALE, y * rate / RATE_SCALE, (x + y) * rate / RATE_SCALE, BPS_DENOM - feeBps);
  }

  /** Splitting a deposit into any number of pieces never gains, and costs at most two
      atoms for each extra piece. */
  lemma {:induction false} SplittingNeverGains(xs: seq<Uint128>, rate: Uint128, feeBps: nat)
    requires |xs| >= 1
    requires Sum(xs) <= U128_MAX
    requires Deposit(Sum(xs), rate, feeBps).Ok?
    ensures forall i :: 0 <= i < |xs| ==> Deposit(xs[i], rate, feeBps).Ok?
    ensures SumDeposits(xs, rate, feeBps)
         <= Deposit(Sum(xs), rate, feeBps).value
         <= SumDeposits(xs, rate, feeBps) + 2 * (|xs| - 1)
  {
    var init, last := xs[..|xs| - 1], xs[|xs| - 1];
    if init == [] {
      assert Sum(init) == 0 && Sum(xs) == last;
      assert SumDeposits(init, rate, feeBps) == 0;
    } else {
      DepositJoin(Sum(init), last, rate, feeBps);
      SplittingNeverGains(init, rate, feeBps);
      forall i | 0 <= i < |xs|
        ensures Deposit(xs[i], rate, feeBps).Ok?
      {
        if i < |xs| - 1 {
          assert xs[i] == init[i];
        }
      }
    }
  }
}
