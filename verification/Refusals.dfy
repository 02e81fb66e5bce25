/** Which check refuses a request, and with which error: for every input the first failing
    condition, on exact integers and in the order in which the contracts look at them. */
module Refusals {
  import opened Units
  import SwapMath
  import Oracle
  import Limiter
  import Window
  import NativeWrap
  import Consensus
  import opened Progress

  // ---------------------------------------------------------------- arithmetic

  /** A fee that cannot be taken. */
  function FeeError(amount: nat, feeBps: nat): Option<SwapMath.MathError> {
    if feeBps > 10_000 then Some(SwapMath.InvalidFeeBps)
    else if amount * (10_000 - feeBps) > U128_MAX then Some(SwapMath.Overflow)
    else None
  }

  /** Otherwise it is taken rounded up. */
  lemma FeeRefuses(amount: Uint128, feeBps: nat)
    ensures var r := SwapMath.ApplyFee(amount, feeBps);
      match FeeError(amount, feeBps)
      case Some(e) => r == Err(e)
      case None => FeeFits(amount, feeBps) && r == Ok(amount - SwapMath.Fee(amount, feeBps))
  {
    SwapMath.FeeIsCeiling(amount, feeBps);
    if FeeFits(amount, feeBps) {
      SwapMath.ApplyFeeBounds(amount, feeBps);
    }
  }

  /** The limits: the single amount first, then the sum in 128 bits, then the sum. */
  function LimitRefusal(roll: Limiter.Rolling, now: nat, limits: Limiter.Limits, amount: int)
    : Option<Limiter.LimitError>
  {
    var used := if 0 < roll.windowStart && now < roll.windowStart + 86_400 then roll.volume else 0;
    if amount > limits.perTx then Some(Limiter.PerTxLimit)
    else if used + amount > U128_MAX then Some(Limiter.Overflow)
    else if used + amount > limits.rolling then Some(Limiter.RollingLimit)
    else None
  }

  lemma LimitsRefuse(roll: Limiter.Rolling, now: nat, limits: Limiter.Limits, amount: Uint128)
    ensures var r := Limiter.Admit(roll, now, limits, amount);
      match LimitRefusal(roll, now, limits, amount)
      case Some(e) => r == Err(e)
      case None => r.Ok? && Room(roll, now, limits, amount)
  {
  }

  // ---------------------------------------------------------------- swap window

  function OracleRefusal(now: nat, o: Oracle.StateResponse, maxAge: nat): Option<Window.WindowError> {
    if o.paused then Some(Window.OraclePaused)
    else if o.lastUpdateSec == 0 || now > o.lastUpdateSec + maxAge then Some(Window.OracleStale)
    else None
  }

  function DepositRefusal(s: Window.Store, now: nat, o: Oracle.StateResponse, amount: Uint128, hook: Window.Hook)
    : Option<Window.WindowError>
  {
    var worth := amount * o.rate / RATE_SCALE;
    var out := worth - SwapMath.Fee(worth, s.cfg.feeBps);
    if !hook.DepositHook? then Some(Window.InvalidCw20Hook)
    else if OracleRefusal(now, o, s.cfg.maxOracleAge).Some? then OracleRefusal(now, o, s.cfg.maxOracleAge)
    else if amount * o.rate >= (U128_MAX + 1) * RATE_SCALE then Some(Window.Math(SwapMath.TooLarge))
    else if FeeError(worth, s.cfg.feeBps).Some? then Some(Window.Math(FeeError(worth, s.cfg.feeBps).value))
    else if out <= 0 then Some(Window.ZeroOutput)
    else if LimitRefusal(s.rolling, now, s.cfg.limits, out).Some? then
      Some(Window.Limit(LimitRefusal(s.rolling, now, s.cfg.limits, out).value))
    else None
  }

  lemma WorthFits(amount: Uint128, rate: Uint128)
    ensures amount * rate / RATE_SCALE > U128_MAX <==> amount * rate >= (U128_MAX + 1) * RATE_SCALE
  {
    SwapMath.DivBounds(amount * rate, RATE_SCALE);
  }

  lemma DepositRefuses(s: Window.Store, now: nat, o: Oracle.StateResponse, user: Addr, amount: Uint128,
                       hook: Window.Hook)
    ensures var r := Window.DoDeposit(s, now, o, user, amount, hook);
      match DepositRefusal(s, now, o, amount, hook)
      case Some(e) => r == Err(e)
      case None => r.Ok?
  {
    WorthFits(amount, o.rate);
    var worth := amount * o.rate / RATE_SCALE;
    if worth <= U128_MAX {
      FeeRefuses(worth, s.cfg.feeBps);
      if FeeFits(worth, s.cfg.feeBps) {
        SwapMath.ApplyFeeBounds(worth, s.cfg.feeBps);
        LimitsRefuse(s.rolling, now, s.cfg.limits, SwapMath.ApplyFee(worth, s.cfg.feeBps).value);
      }
    }
  }

  /** The payout is compared without rounding: `v` is paid when the after-fee amount is worth
      `v` but not `v + 1`. */
  function WithdrawRefusal(s: Window.Store, now: nat, o: Oracle.StateResponse, treasury: Uint128, gross: Uint128,
                           hook: Window.Hook)
    : Option<Window.WindowError>
  {
    var worth := (gross - SwapMath.Fee(gross, s.cfg.feeBps)) * RATE_SCALE;
    if !hook.WithdrawHook? then Some(Window.InvalidCw20Hook)
    else if OracleRefusal(now, o, s.cfg.maxOracleAge).Some? then OracleRefusal(now, o, s.cfg.maxOracleAge)
    else if FeeError(gross, s.cfg.feeBps).Some? then Some(Window.Math(FeeError(gross, s.cfg.feeBps).value))
    else if o.rate == 0 then Some(Window.Math(SwapMath.DivisionByZero))
    else if worth >= (U128_MAX + 1) * o.rate then Some(Window.Math(SwapMath.TooLarge))
    else if worth < o.rate then Some(Window.ZeroOutput)
    else if worth < hook.minVfdusdOut * o.rate then Some(Window.BelowMinimum)
    else if worth >= (treasury + 1) * o.rate then Some(Window.InsufficientVfdusd)
    else if LimitRefusal(s.rolling, now, s.cfg.limits, gross).Some? then
      Some(Window.Limit(LimitRefusal(s.rolling, now, s.cfg.limits, gross).value))
    else None
  }

  lemma WithdrawRefuses(s: Window.Store, now: nat, o: Oracle.StateResponse, treasury: Uint128, user: Addr,
                        gross: Uint128, hook: Window.Hook)
    ensures var r := Window.DoWithdraw(s, now, o, treasury, user, gross, hook);
      match WithdrawRefusal(s, now, o, treasury, gross, hook)
      case Some(e) => r == Err(e)
      case None => r.Ok?
  {
    FeeRefuses(gross, s.cfg.feeBps);
    LimitsRefuse(s.rolling, now, s.cfg.limits, gross);
    if hook.WithdrawHook? && FeeFits(gross, s.cfg.feeBps) && o.rate > 0 {
      SwapMath.ApplyFeeBounds(gross, s.cfg.feeBps);
      var after := SwapMath.ApplyFee(gross, s.cfg.feeBps).value;
      PayoutReaches(after, o.rate, U128_MAX + 1);
      PayoutReaches(after, o.rate, 1);
      PayoutReaches(after, o.rate, hook.minVfdusdOut);
      PayoutReaches(after, o.rate, treasury + 1);
    }
  }

  /** The hook of the window, whoever calls it. */
  lemma ReceiveRefuses(s: Window.Store, now: nat, o: Oracle.StateResponse, treasury: Uint128, token: Addr, user: Addr,
                       amount: Uint128, hook: Window.Hook)
    ensures var r := Window.Receive(s, now, o, treasury, token, user, amount, hook);
      var refusal := if s.cfg.paused then Some(Window.Paused)
                     else if hook.Unreadable? then Some(Window.BadHook)
                     else if token == s.cfg.vfdusdToken then DepositRefusal(s, now, o, amount, hook)
                     else if token == s.cfg.ust1Token then WithdrawRefusal(s, now, o, treasury, amount, hook)
                     else Some(Window.InvalidCw20Hook);
      match refusal
      case Some(e) => r == Err(e)
      case None => r.Ok?
  {
    DepositRefuses(s, now, o, user, amount, hook);
    WithdrawRefuses(s, now, o, treasury, user, amount, hook);
  }

  // ---------------------------------------------------------------- native wrap

  /** With the limits of the pair that is found by the coin's denom. */
  lemma WrapRefuses(s: NativeWrap.Store, now: nat, user: Addr, funds: seq<NativeWrap.Coin>)
    ensures var r := NativeWrap.DoWrap(s, now, user, funds);
      if s.cfg.paused then r == Err(NativeWrap.Paused)
      else if |funds| != 1 || funds[0].amount == 0 then r == Err(NativeWrap.InvalidNativeFunds)
      else
        match NativeWrap.FindDenom(s.cfg.pairs, funds[0].denom)
        case None => r == Err(NativeWrap.UnknownNativeDenom)
        case Some(i) =>
          var p, amount := s.cfg.pairs[i], funds[0].amount;
          if FeeError(amount, s.cfg.feeBps).Some? then r == Err(NativeWrap.Math(FeeError(amount, s.cfg.feeBps).value))
          else
            match LimitRefusal(NativeWrap.RollingOf(s, p.nativeDenom), now, p.limits,
                               amount - SwapMath.Fee(amount, s.cfg.feeBps))
            case Some(e) => r == Err(NativeWrap.Limit(e))
            case None => r.Ok?
  {
    if |funds| == 1 {
      var found := NativeWrap.FindDenom(s.cfg.pairs, funds[0].denom);
      FeeRefuses(funds[0].amount, s.cfg.feeBps);
      if found.Some? && FeeError(funds[0].amount, s.cfg.feeBps).None? {
        var p := s.cfg.pairs[found.value];
        LimitsRefuse(NativeWrap.RollingOf(s, p.nativeDenom), now, p.limits,
                     SwapMath.ApplyFee(funds[0].amount, s.cfg.feeBps).value);
      }
    }
  }

  /** With the limits of the pair that is found by its token. */
  lemma UnwrapRefuses(s: NativeWrap.Store, now: nat, bank: NativeWrap.Balances, token: Addr, user: Addr, gross: Uint128,
                      hook: NativeWrap.Hook)
    ensures var r := NativeWrap.DoUnwrap(s, now, bank, token, user, gross, hook);
      if s.cfg.paused then r == Err(NativeWrap.Paused)
      else
        match NativeWrap.FindToken(s.cfg.pairs, token)
        case None => r == Err(NativeWrap.UnknownWrappedToken)
        case Some(i) =>
          var p := s.cfg.pairs[i];
          var out := gross - SwapMath.Fee(gross, s.cfg.feeBps);
          if hook.Unreadable? then r == Err(NativeWrap.BadHook)
          else if FeeError(gross, s.cfg.feeBps).Some? then
            r == Err(NativeWrap.Math(FeeError(gross, s.cfg.feeBps).value))
          else if out < hook.minNativeOut then r == Err(NativeWrap.BelowMinimum)
          else if NativeWrap.Held(bank, p.nativeDenom) < out then r == Err(NativeWrap.InsufficientNative)
          else
            match LimitRefusal(NativeWrap.RollingOf(s, p.nativeDenom), now, p.limits, gross)
            case Some(e) => r == Err(NativeWrap.Limit(e))
            case None => r.Ok?
  {
    FeeRefuses(gross, s.cfg.feeBps);
    var found := NativeWrap.FindToken(s.cfg.pairs, token);
    if found.Some? {
      var p := s.cfg.pairs[found.value];
      LimitsRefuse(NativeWrap.RollingOf(s, p.nativeDenom), now, p.limits, gross);
    }
  }

  // ---------------------------------------------------------------- rate consensus

  predicate Answered(answers: seq<Result<Uint128, Consensus.ReadError>>, i: nat) {
    i < |answers| && answers[i].Ok?
  }

  /** When no pair agrees: two answers that differ are a mismatch, unless a third provider was
      there to decide and failed; anything less is too few reads. */
  lemma ConsensusRefuses(answers: seq<Result<Uint128, Consensus.ReadError>>)
    ensures var r := Consensus.RateConsensus(answers);
      && (r == Err(Consensus.TooFewUrls) <==> |answers| < 2)
      && (r == Err(Consensus.Mismatch) <==>
            && !Consensus.PairAgrees(answers, 0, 1) && !Consensus.PairAgrees(answers, 0, 2)
            && !Consensus.PairAgrees(answers, 1, 2)
            && if |answers| == 2 then Answered(answers, 0) && Answered(answers, 1)
               else Answered(answers, 2) && (Answered(answers, 0) || Answered(answers, 1)))
  {
  }
}
