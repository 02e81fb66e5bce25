/** The swap window contract: its cw20 hook and governance setters. */
module Window {
  import opened Units
  import opened SwapMath
  import OraclePolicy
  import Oracle
  import Limiter

  datatype Config = Config(
    governance: Addr, oracle: Addr, vfdusdToken: Addr, cmmTreasury: Addr, ust1Token: Addr,
    feeBps: nat, limits: Limiter.Limits, paused: bool, maxOracleAge: nat)

  /** Everything the contract stores. */
  datatype Store = Store(cfg: Config, rolling: Limiter.Rolling)

  /** The payload of a cw20 `Send`; `Unreadable` stands for a payload that does not parse. */
  datatype Hook = DepositHook | WithdrawHook(minVfdusdOut: Uint128) | Unreadable

  datatype Message =
    | MintCw20(token: Addr, recipient: Addr, amount: Uint128)
    | TransferCw20(token: Addr, recipient: Addr, amount: Uint128)
    | BurnCw20(token: Addr, amount: Uint128)
    | InstantWithdrawCw20(treasury: Addr, recipient: Addr, token: Addr, amount: Uint128)

  datatype Action = Deposited | Withdrew

  /** The messages and the event attributes of a successful swap. */
  datatype Response = Response(
    messages: seq<Message>, action: Action, out: Uint128, feeBps: nat, feeAmount: Uint128, feeAsset: Addr)

  datatype WindowError =
    | BadHook | Unauthorized | Paused | InvalidCw20Hook | Limit(limit: Limiter.LimitError)
    | InsufficientVfdusd | BelowMinimum | ZeroOutput | OracleStale | OraclePaused
    | MaxOracleAgeTooShort(minSeconds: nat) | Math(math: MathError) | ArithmeticOverflow

  datatype Outcome = Outcome(store: Store, response: Response)

  function Instantiate(cfg: Config): Result<Store, WindowError> {
    if cfg.feeBps > BPS_DENOM then Err(Math(InvalidFeeBps))
    else if cfg.maxOracleAge < MIN_UPDATE_INTERVAL then Err(MaxOracleAgeTooShort(MIN_UPDATE_INTERVAL))
    else Ok(Store(cfg.(paused := false), Limiter.EMPTY))
  }

  /** The pause flag is looked at before the age. */
  function EnsureOracleUsable(now: nat, oracle: Oracle.StateResponse, maxAge: nat): Result<(), WindowError> {
    if oracle.paused then Err(OraclePaused)
    else if oracle.lastUpdateSec == 0 then Err(OracleStale)
    else if OraclePolicy.SaturatingSub(now, oracle.lastUpdateSec) > maxAge then Err(OracleStale)
    else Ok(())
  }

  function DoDeposit(s: Store, now: nat, oracle: Oracle.StateResponse, beneficiary: Addr, amount: Uint128, hook: Hook)
    : Result<Outcome, WindowError>
  {
    if !hook.DepositHook? then Err(InvalidCw20Hook)
    else
      var _ :- EnsureOracleUsable(now, oracle, s.cfg.maxOracleAge);
      var before :- VfdusdToUst1(amount, oracle.rate).MapErr(e => Math(e));
      var out :- ApplyFee(before, s.cfg.feeBps).MapErr(e => Math(e));
      if out == 0 then Err(ZeroOutput)
      else if before < out then Err(ArithmeticOverflow)
      else
        var rolling :- Limiter.Admit(s.rolling, now, s.cfg.limits, out).MapErr(e => Limit(e));
        Ok(Outcome(
             s.(rolling := rolling),
             Response([MintCw20(s.cfg.ust1Token, beneficiary, out),
                       TransferCw20(s.cfg.vfdusdToken, s.cfg.cmmTreasury, amount)],
                      Deposited, out, s.cfg.feeBps, before - out, s.cfg.ust1Token)))
  }

  function DoWithdraw(s: Store, now: nat, oracle: Oracle.StateResponse, treasuryBalance: Uint128,
                      user: Addr, gross: Uint128, hook: Hook)
    : Result<Outcome, WindowError>
  {
    if !hook.WithdrawHook? then Err(InvalidCw20Hook)
    else
      var _ :- EnsureOracleUsable(now, oracle, s.cfg.maxOracleAge);
      var after :- ApplyFee(gross, s.cfg.feeBps).MapErr(e => Math(e));
      var out :- AfterFeeToVfdusd(after, oracle.rate).MapErr(e => Math(e));
      if out == 0 then Err(ZeroOutput)
      else if gross < after then Err(ArithmeticOverflow)
      else if out < hook.minVfdusdOut then Err(BelowMinimum)
      else if treasuryBalance < out then Err(InsufficientVfdusd)
      else
        var rolling :- Limiter.Admit(s.rolling, now, s.cfg.limits, gross).MapErr(e => Limit(e));
        Ok(Outcome(
             s.(rolling := rolling),
             Response([BurnCw20(s.cfg.ust1Token, gross),
                       InstantWithdrawCw20(s.cfg.cmmTreasury, user, s.cfg.vfdusdToken, out)],
                      Withdrew, out, s.cfg.feeBps, gross - after, s.cfg.ust1Token)))
  }

  /** `token` is the calling cw20 contract, `user` whose tokens it has moved here. */
  function Receive(s: Store, now: nat, oracle: Oracle.StateResponse, treasuryBalance: Uint128,
                   token: Addr, user: Addr, amount: Uint128, hook: Hook)
    : Result<Outcome, WindowError>
  {
    if s.cfg.paused then Err(Paused)
    else if hook.Unreadable? then Err(BadHook)
    else if token == s.cfg.vfdusdToken then DoDeposit(s, now, oracle, user, amount, hook)
    else if token == s.cfg.ust1Token then DoWithdraw(s, now, oracle, treasuryBalance, user, amount, hook)
    else Err(InvalidCw20Hook)
  }

  /** The window swaps for its two tokens only: an accepted call of the hook is a deposit from
      the vFDUSD token or a withdrawal from the UST1 token, with the hook that belongs to it
      and the outcome of that handler. Any other caller is refused. */
  lemma ReceiveIsASwap(s: Store, now: nat, oracle: Oracle.StateResponse, treasuryBalance: Uint128,
                       token: Addr, user: Addr, amount: Uint128, hook: Hook)
    ensures var r := Receive(s, now, oracle, treasuryBalance, token, user, amount, hook);
      && (r.Ok? ==> !s.cfg.paused)
      && (r.Ok? && r.value.response.action == Deposited ==>
            && token == s.cfg.vfdusdToken && hook.DepositHook?
            && r == DoDeposit(s, now, oracle, user, amount, hook))
      && (r.Ok? && r.value.response.action == Withdrew ==>
            && token == s.cfg.ust1Token != s.cfg.vfdusdToken && hook.WithdrawHook?
            && r == DoWithdraw(s, now, oracle, treasuryBalance, user, amount, hook))
      && (token != s.cfg.vfdusdToken && token != s.cfg.ust1Token ==>
            r == Err(if s.cfg.paused then Paused else if hook.Unreadable? then BadHook else InvalidCw20Hook))
  {
  }

  /** A deposit that the window accepts: the minted amount and the withheld fee together
      are backed by the vFDUSD sent, the mint goes to the sender and exactly the tokens
      received are forwarded to the treasury. */
  lemma DepositOutcome(s: Store, now: nat, oracle: Oracle.StateResponse, user: Addr, amount: Uint128, hook: Hook)
    requires DoDeposit(s, now, oracle, user, amount, hook).Ok?
    ensures var o := DoDeposit(s, now, oracle, user, amount, hook).value;
      var r := o.response;
      && r.out > 0 && r.action == Deposited
      && (r.out + r.feeAmount) * RATE_SCALE <= amount * oracle.rate < (r.out + r.feeAmount + 1) * RATE_SCALE
      && FeeAmount(r.out + r.feeAmount, s.cfg.feeBps) == Ok(r.feeAmount)
      && r.feeBps == s.cfg.feeBps && r.feeAsset == s.cfg.ust1Token
      && r.messages == [MintCw20(s.cfg.ust1Token, user, r.out),
                        TransferCw20(s.cfg.vfdusdToken, s.cfg.cmmTreasury, amount)]
      && Limiter.Admit(s.rolling, now, s.cfg.limits, r.out) == Ok(o.store.rolling)
      && o.store.cfg == s.cfg
  {
  }

  /** A withdrawal that the window accepts: the payout is backed by the UST1 sent less the
      withheld fee, exactly the UST1 received is burned, and the treasury pays the sender. */
  lemma WithdrawOutcome(s: Store, now: nat, oracle: Oracle.StateResponse, treasuryBalance: Uint128,
                        user: Addr, gross: Uint128, hook: Hook)
    requires DoWithdraw(s, now, oracle, treasuryBalance, user, gross, hook).Ok?
    ensures var o := DoWithdraw(s, now, oracle, treasuryBalance, user, gross, hook).value;
      var r := o.response;
      && gross > 0 && r.out > 0 && r.action == Withdrew && oracle.rate > 0
      && r.out >= hook.minVfdusdOut && r.out <= treasuryBalance
      && FeeAmount(gross, s.cfg.feeBps) == Ok(r.feeAmount)
      && r.feeBps == s.cfg.feeBps && r.feeAsset == s.cfg.ust1Token
      && r.out * oracle.rate <= (gross - r.feeAmount) * RATE_SCALE < (r.out + 1) * oracle.rate
      && r.messages == [BurnCw20(s.cfg.ust1Token, gross),
                        InstantWithdrawCw20(s.cfg.cmmTreasury, user, s.cfg.vfdusdToken, r.out)]
      && Limiter.Admit(s.rolling, now, s.cfg.limits, gross) == Ok(o.store.rolling)
      && o.store.cfg == s.cfg
  {
  }

  datatype Setting =
    | SetLimits(limits: Limiter.Limits)
    | SetPaused(paused: bool)
    | SetFeeBps(feeBps: nat)
    | SetMaxOracleAge(maxOracleAge: nat)

  /** Values are validated before the sender is. */
  function Configure(s: Store, sender: Addr, setting: Setting): Result<Store, WindowError> {
    if setting.SetFeeBps? && setting.feeBps > BPS_DENOM then Err(Math(InvalidFeeBps))
    else if setting.SetMaxOracleAge? && setting.maxOracleAge < MIN_UPDATE_INTERVAL then
      Err(MaxOracleAgeTooShort(MIN_UPDATE_INTERVAL))
    else if sender != s.cfg.governance then Err(Unauthorized)
    else
      Ok(s.(cfg := match setting
              case SetLimits(limits) => s.cfg.(limits := limits)
              case SetPaused(paused) => s.cfg.(paused := paused)
              case SetFeeBps(feeBps) => s.cfg.(feeBps := feeBps)
              case SetMaxOracleAge(maxOracleAge) => s.cfg.(maxOracleAge := maxOracleAge)))
  }

  /** Only governance changes a setting, one at a time and to a valid value; values are
      validated before the sender is. */
  lemma ConfigureIff(s: Store, sender: Addr, setting: Setting)
    ensures var r := Configure(s, sender, setting);
      var badFee := setting.SetFeeBps? && setting.feeBps > 10_000;
      var badAge := setting.SetMaxOracleAge? && setting.maxOracleAge < 14_400;
      && (r == Err(Math(InvalidFeeBps)) <==> badFee)
      && (r == Err(MaxOracleAgeTooShort(14_400)) <==> badAge)
      && (r == Err(Unauthorized) <==> !badFee && !badAge && sender != s.cfg.governance)
      && (r.Ok? <==> !badFee && !badAge && sender == s.cfg.governance)
      && (r.Ok? ==>
            var cfg' := r.value.cfg;
            && r.value.rolling == s.rolling
            && cfg'.governance == s.cfg.governance && cfg'.oracle == s.cfg.oracle
            && cfg'.vfdusdToken == s.cfg.vfdusdToken && cfg'.ust1Token == s.cfg.ust1Token
            && cfg'.cmmTreasury == s.cfg.cmmTreasury
            && cfg'.limits == (if setting.SetLimits? then setting.limits else s.cfg.limits)
            && cfg'.paused == (if setting.SetPaused? then setting.paused else s.cfg.paused)
            && cfg'.feeBps == (if setting.SetFeeBps? then setting.feeBps else s.cfg.feeBps)
            && cfg'.maxOracleAge == (if setting.SetMaxOracleAge? then setting.maxOracleAge else s.cfg.maxOracleAge))
  {
  }

  /** What the contract can be deployed with; it starts unpaused, with an empty counter. */
  lemma InstantiateIff(cfg: Config)
    ensures var r := Instantiate(cfg);
      && (r == Err(Math(InvalidFeeBps)) <==> cfg.feeBps > 10_000)
      && (r == Err(MaxOracleAgeTooShort(14_400)) <==> cfg.feeBps <= 10_000 && cfg.maxOracleAge < 14_400)
      && (r.Ok? <==> cfg.feeBps <= 10_000 && cfg.maxOracleAge >= 14_400)
      && (r.Ok? ==> r.value == Store(cfg.(paused := false), Limiter.Rolling(0, 0)))
  {
  }

  /** The deployed contract: two storage items that the entry points load, change and save. */
  class Contract {
    var config: Config
    var rolling: Limiter.Rolling

    constructor (cfg: Config)
      requires Instantiate(cfg).Ok?
      ensures Instantiate(cfg) == Ok(View())
    {
      config, rolling := cfg.(paused := false), Limiter.EMPTY;
    }

    /** Validates the configuration before anything is stored. */
    static method Create(cfg: Config) returns (r: Result<Contract, WindowError>)
      ensures r.Ok? ==> fresh(r.value) && Instantiate(cfg) == Ok(r.value.View())
      ensures r.Err? ==> Instantiate(cfg) == Err(r.error)
    {
      if cfg.feeBps > BPS_DENOM {
        return Err(Math(InvalidFeeBps));
      }
      if cfg.maxOracleAge < MIN_UPDATE_INTERVAL {
        return Err(MaxOracleAgeTooShort(MIN_UPDATE_INTERVAL));
      }
      var c := new Contract(cfg);
      r := Ok(c);
    }

    function View(): Store
      reads this
    {
      Store(config, rolling)
    }

    method ReceiveCw20(now: nat, oracle: Oracle.StateResponse, treasuryBalance: Uint128,
                       token: Addr, user: Addr, amount: Uint128, hook: Hook)
      returns (r: Result<Response, WindowError>)
      modifies this`rolling
      ensures var spec := Receive(old(View()), now, oracle, treasuryBalance, token, user, amount, hook);
        spec == if r.Ok? then Ok(Outcome(View(), r.value)) else Err(r.error)
      ensures r.Err? ==> View() == old(View())
    {
      var cfg := config;
      if cfg.paused {
        return Err(Paused);
      }
      if hook.Unreadable? {
        return Err(BadHook);
      }
      if token == cfg.vfdusdToken {
        r := DepositVfdusd(now, oracle, user, amount, hook);
        return;
      }
      if token == cfg.ust1Token {
        r := WithdrawUst1(now, oracle, treasuryBalance, user, amount, hook);
        return;
      }
      r := Err(InvalidCw20Hook);
    }

    method DepositVfdusd(now: nat, oracle: Oracle.StateResponse, beneficiary: Addr, amount: Uint128, hook: Hook)
      returns (r: Result<Response, WindowError>)
      modifies this`rolling
      ensures DoDeposit(old(View()), now, oracle, beneficiary, amount, hook)
           == if r.Ok? then Ok(Outcome(View(), r.value)) else Err(r.error)
      ensures r.Err? ==> View() == old(View())
    {
      var cfg := config;
      if !hook.DepositHook? {
        return Err(InvalidCw20Hook);
      }
      var usable := EnsureOracleUsable(now, oracle, cfg.maxOracleAge);
      if usable.Err? {
        return Err(usable.error);
      }
      var before := VfdusdToUst1(amount, oracle.rate);
      if before.Err? {
        return Err(Math(before.error));
      }
      var out := ApplyFee(before.value, cfg.feeBps);
      if out.Err? {
        return Err(Math(out.error));
      }
      if out.value == 0 {
        return Err(ZeroOutput);
      }
      if before.value < out.value {
        return Err(ArithmeticOverflow);
      }
      var feeAmount: Uint128 := before.value - out.value;

      var counter := new Limiter.Counter(rolling);
      var limited := counter.EnsureLimits(now, cfg.limits, out.value);
      if limited.Err? {
        return Err(Limit(limited.error));
      }
      rolling := counter.View();

      var mint := MintCw20(cfg.ust1Token, beneficiary, out.value);
      var forward := TransferCw20(cfg.vfdusdToken, cfg.cmmTreasury, amount);
      r := Ok(Response([mint, forward], Deposited, out.value, cfg.feeBps, feeAmount, cfg.ust1Token));
    }

    method WithdrawUst1(now: nat, oracle: Oracle.StateResponse, treasuryBalance: Uint128,
                        user: Addr, gross: Uint128, hook: Hook)
      returns (r: Result<Response, WindowError>)
      modifies this`rolling
      ensures DoWithdraw(old(View()), now, oracle, treasuryBalance, user, gross, hook)
           == if r.Ok? then Ok(Outcome(View(), r.value)) else Err(r.error)
      ensures r.Err? ==> View() == old(View())
    {
      var cfg := config;
      if !hook.WithdrawHook? {
        return Err(InvalidCw20Hook);
      }
      var usable := EnsureOracleUsable(now, oracle, cfg.maxOracleAge);
      if usable.Err? {
        return Err(usable.error);
      }
      var after := ApplyFee(gross, cfg.feeBps);
      if after.Err? {
        return Err(Math(after.error));
      }
      var out := AfterFeeToVfdusd(after.value, oracle.rate);
      if out.Err? {
        return Err(Math(out.error));
      }
      if out.value == 0 {
        return Err(ZeroOutput);
      }
      if gross < after.value {
        return Err(ArithmeticOverflow);
      }
      var feeAmount: Uint128 := gross - after.value;
      if out.value < hook.minVfdusdOut {
        return Err(BelowMinimum);
      }
      if treasuryBalance < out.value {
        return Err(InsufficientVfdusd);
      }

      var counter := new Limiter.Counter(rolling);
      var limited := counter.EnsureLimits(now, cfg.limits, gross);
      if limited.Err? {
        return Err(Limit(limited.error));
      }
      rolling := counter.View();

      var burn := BurnCw20(cfg.ust1Token, gross);
      var pull := InstantWithdrawCw20(cfg.cmmTreasury, user, cfg.vfdusdToken, out.value);
      r := Ok(Response([burn, pull], Withdrew, out.value, cfg.feeBps, feeAmount, cfg.ust1Token));
    }

    method ExecSetLimits(sender: Addr, limits: Limiter.Limits) returns (r: Result<(), WindowError>)
      modifies this`config
      ensures Configure(old(View()), sender, SetLimits(limits)) == if r.Ok? then Ok(View()) else Err(r.error)
      ensures r.Err? ==> View() == old(View())
    {
      var cfg := config;
      if sender != cfg.governance {
        return Err(Unauthorized);
      }
      cfg := cfg.(limits := cfg.limits.(perTx := limits.perTx));
      cfg := cfg.(limits := cfg.limits.(rolling := limits.rolling));
      config := cfg;
      r := Ok(());
    }

    method ExecSetPaused(sender: Addr, paused: bool) returns (r: Result<(), WindowError>)
      modifies this`config
      ensures Configure(old(View()), sender, SetPaused(paused)) == if r.Ok? then Ok(View()) else Err(r.error)
      ensures r.Err? ==> View() == old(View())
    {
      if sender != config.governance {
        return Err(Unauthorized);
      }
      config := config.(paused := paused);
      r := Ok(());
    }

    method ExecSetFeeBps(sender: Addr, feeBps: nat) returns (r: Result<(), WindowError>)
      modifies this`config
      ensures Configure(old(View()), sender, SetFeeBps(feeBps)) == if r.Ok? then Ok(View()) else Err(r.error)
      ensures r.Err? ==> View() == old(View())
    {
      if feeBps > BPS_DENOM {
        return Err(Math(InvalidFeeBps));
      }
      if sender != config.governance {
        return Err(Unauthorized);
      }
      config := config.(feeBps := feeBps);
      r := Ok(());
    }

    method ExecSetMaxOracleAge(sender: Addr, maxOracleAge: nat) returns (r: Result<(), WindowError>)
      modifies this`config
      ensures Configure(old(View()), sender,
                        SetMaxOracleAge(maxOracleAge)) == if r.Ok? then Ok(View()) else Err(r.error)
      ensures r.Err? ==> View() == old(View())
    {
      if maxOracleAge < MIN_UPDATE_INTERVAL {
        return Err(MaxOracleAgeTooShort(MIN_UPDATE_INTERVAL));
      }
      if sender != config.governance {
        return Err(Unauthorized);
      }
      config := config.(maxOracleAge := maxOracleAge);
      r := Ok(());
    }
  }
}
