/** The native wrap contract: a native coin in, a wrapped cw20 out, and back. */
module NativeWrap {
  import opened Units
  import SwapMath
  import Limiter

  /** A native denom: `uluna`, `uusd`, or a name the contract does not know. */
  datatype Denom = Uluna | Uusd | Foreign(name: string)

  datatype DenomPair = DenomPair(nativeDenom: Denom, wrappedToken: Addr, limits: Limiter.Limits)

  datatype Config = Config(governance: Addr, feeBps: nat, paused: bool, pairs: seq<DenomPair>)

  /** Everything the contract stores; a denom without an entry has never been used. */
  datatype Store = Store(cfg: Config, rolling: map<Denom, Limiter.Rolling>)

  /** What the bank says the contract holds. */
  datatype Balances = Balances(uluna: nat, uusd: nat)

  function Held(bank: Balances, denom: Denom): nat {
    match denom
    case Uluna => bank.uluna
    case Uusd => bank.uusd
    case Foreign(_) => 0
  }

  datatype Coin = Coin(denom: Denom, amount: Uint128)

  /** The payload of a cw20 `Send`; `Unreadable` stands for a payload that does not parse. */
  datatype Hook = Unwrap(minNativeOut: Uint128) | Unreadable

  datatype Message =
    | MintCw20(token: Addr, recipient: Addr, amount: Uint128)
    | BurnCw20(token: Addr, amount: Uint128)
    | BankSend(to: Addr, coin: Coin)

  datatype WrapError =
    | BadHook | Unauthorized | Paused | Limit(limit: Limiter.LimitError) | InsufficientNative | BelowMinimum
    | InvalidNativeFunds | UnknownNativeDenom | UnknownWrappedToken | InvalidPairCount | InvalidPairDenoms
    | DuplicateWrappedToken | Math(math: SwapMath.MathError)

  /** The new storage, and the messages in the order in which they are executed. */
  datatype WrapOutcome = WrapOutcome(store: Store, mint: Message)
  datatype UnwrapOutcome = UnwrapOutcome(store: Store, burn: Message, send: Message)

  function ValidatePairs(pairs: seq<DenomPair>): Result<(), WrapError> {
    if |pairs| != 2 then Err(InvalidPairCount)
    else
      var d0, d1 := pairs[0].nativeDenom, pairs[1].nativeDenom;
      if !((d0 == Uluna && d1 == Uusd) || (d0 == Uusd && d1 == Uluna)) then
        Err(InvalidPairDenoms)
      else if pairs[0].wrappedToken == pairs[1].wrappedToken then Err(DuplicateWrappedToken)
      else Ok(())
  }

  function Instantiate(cfg: Config): Result<Store, WrapError> {
    if cfg.feeBps > BPS_DENOM then Err(Math(SwapMath.InvalidFeeBps))
    else
      var _ :- ValidatePairs(cfg.pairs);
      Ok(Store(cfg.(paused := false), map[]))
  }

  /** The first pair, from position `i` on, with this denom. */
  function FindDenom(pairs: seq<DenomPair>, denom: Denom, i: nat := 0): (r: Option<nat>)
    requires i <= |pairs|
    ensures r.Some? ==> i <= r.value < |pairs| && pairs[r.value].nativeDenom == denom
                        && forall j :: i <= j < r.value ==> pairs[j].nativeDenom != denom
    ensures r.None? ==> forall j :: i <= j < |pairs| ==> pairs[j].nativeDenom != denom
    decreases |pairs| - i
  {
    if i == |pairs| then None
    else if pairs[i].nativeDenom == denom then Some(i)
    else FindDenom(pairs, denom, i + 1)
  }

  /** The first pair, from position `i` on, with this wrapped token. */
  function FindToken(pairs: seq<DenomPair>, token: Addr, i: nat := 0): (r: Option<nat>)
    requires i <= |pairs|
    ensures r.Some? ==> i <= r.value < |pairs| && pairs[r.value].wrappedToken == token
                        && forall j :: i <= j < r.value ==> pairs[j].wrappedToken != token
    ensures r.None? ==> forall j :: i <= j < |pairs| ==> pairs[j].wrappedToken != token
    decreases |pairs| - i
  {
    if i == |pairs| then None
    else if pairs[i].wrappedToken == token then Some(i)
    else FindToken(pairs, token, i + 1)
  }

  /** The validated configuration maps denoms and wrapped tokens one to one: each pair is
      the one found by its denom and the one found by its token. */
  lemma PairsAreOneToOne(pairs: seq<DenomPair>, i: nat, j: nat)
    requires ValidatePairs(pairs).Ok?
    requires i < |pairs| && j < |pairs|
    ensures pairs[i].nativeDenom == pairs[j].nativeDenom <==> i == j
    ensures pairs[i].wrappedToken == pairs[j].wrappedToken <==> i == j
    ensures FindDenom(pairs, pairs[i].nativeDenom) == Some(i) && FindToken(pairs, pairs[i].wrappedToken) == Some(i)
    ensures !pairs[i].nativeDenom.Foreign?
  {
  }

  function RollingOf(s: Store, denom: Denom): Limiter.Rolling {
    if denom in s.rolling then s.rolling[denom] else Limiter.EMPTY
  }

  function DoWrap(s: Store, now: nat, sender: Addr, funds: seq<Coin>): Result<WrapOutcome, WrapError> {
    if s.cfg.paused then Err(Paused)
    else if |funds| != 1 then Err(InvalidNativeFunds)
    else
      var coin := funds[0];
      if coin.amount == 0 then Err(InvalidNativeFunds)
      else
        match FindDenom(s.cfg.pairs, coin.denom)
        case None => Err(UnknownNativeDenom)
        case Some(i) =>
          var pair := s.cfg.pairs[i];
          var minted :- SwapMath.ApplyFee(coin.amount, s.cfg.feeBps).MapErr(e => Math(e));
          var rolling :- Limiter.Admit(RollingOf(s, pair.nativeDenom), now, pair.limits, minted).MapErr(e => Limit(e));
          Ok(WrapOutcome(s.(rolling := s.rolling[pair.nativeDenom := rolling]),
                         MintCw20(pair.wrappedToken, sender, minted)))
  }

  /** `token` is the calling cw20 contract; `bank` answers the query for the contract's
      own balance of a denom. */
  function DoUnwrap(s: Store, now: nat, bank: Balances, token: Addr, user: Addr, gross: Uint128, hook: Hook)
    : Result<UnwrapOutcome, WrapError>
  {
    if s.cfg.paused then Err(Paused)
    else
      match FindToken(s.cfg.pairs, token)
      case None => Err(UnknownWrappedToken)
      case Some(i) =>
        if hook.Unreadable? then Err(BadHook)
        else
          var pair := s.cfg.pairs[i];
          var out :- SwapMath.ApplyFee(gross, s.cfg.feeBps).MapErr(e => Math(e));
          if out < hook.minNativeOut then Err(BelowMinimum)
          else if Held(bank, pair.nativeDenom) < out then Err(InsufficientNative)
          else
            var rolling :- Limiter.Admit(RollingOf(s, pair.nativeDenom), now, pair.limits, gross).MapErr(e => Limit(e));
            Ok(UnwrapOutcome(s.(rolling := s.rolling[pair.nativeDenom := rolling]),
                             BurnCw20(pair.wrappedToken, gross), BankSend(user, Coin(pair.nativeDenom, out))))
  }

  /** The contract unwraps the tokens of its pairs only: an accepted call of the hook comes
      from the wrapped token of a pair, and burns and pays in that pair's token and denom.
      Any other caller is refused. */
  lemma UnwrapIsOfAPair(s: Store, now: nat, bank: Balances, token: Addr, user: Addr, gross: Uint128, hook: Hook)
    ensures var r := DoUnwrap(s, now, bank, token, user, gross, hook);
      && (r.Ok? ==>
            && !s.cfg.paused && hook.Unwrap?
            && exists i :: 0 <= i < |s.cfg.pairs| && s.cfg.pairs[i].wrappedToken == token
                           && IsPaidFrom(s.cfg.pairs[i], user, gross, r.value))
      && ((forall i :: 0 <= i < |s.cfg.pairs| ==> s.cfg.pairs[i].wrappedToken != token) ==>
            r == Err(if s.cfg.paused then Paused else UnknownWrappedToken))
  {
    var found := FindToken(s.cfg.pairs, token);
    if DoUnwrap(s, now, bank, token, user, gross, hook).Ok? {
      assert IsPaidFrom(s.cfg.pairs[found.value], user, gross, DoUnwrap(s, now, bank, token, user, gross, hook).value);
    }
  }

  predicate IsPaidFrom(p: DenomPair, user: Addr, gross: Uint128, o: UnwrapOutcome) {
    && o.burn == BurnCw20(p.wrappedToken, gross)
    && o.send.BankSend? && o.send.to == user && o.send.coin.denom == p.nativeDenom
  }

  /** The contract wraps the denoms of its pairs only, one coin at a time. */
  lemma WrapIsOfAPair(s: Store, now: nat, sender: Addr, funds: seq<Coin>)
    ensures var r := DoWrap(s, now, sender, funds);
      && (r.Ok? ==>
            && !s.cfg.paused && |funds| == 1 && funds[0].amount > 0
            && exists i :: 0 <= i < |s.cfg.pairs| && s.cfg.pairs[i].nativeDenom == funds[0].denom
                           && IsMintedTo(s.cfg.pairs[i], sender, r.value))
      && (!s.cfg.paused && (|funds| != 1 || funds[0].amount == 0) ==> r == Err(InvalidNativeFunds))
      && (!s.cfg.paused && |funds| == 1 && funds[0].amount > 0
          && (forall i :: 0 <= i < |s.cfg.pairs| ==> s.cfg.pairs[i].nativeDenom != funds[0].denom) ==>
            r == Err(UnknownNativeDenom))
  {
    var r := DoWrap(s, now, sender, funds);
    if r.Ok? {
      assert IsMintedTo(s.cfg.pairs[FindDenom(s.cfg.pairs, funds[0].denom).value], sender, r.value);
    }
  }

  predicate IsMintedTo(p: DenomPair, user: Addr, o: WrapOutcome) {
    o.mint.MintCw20? && o.mint.token == p.wrappedToken && o.mint.recipient == user
  }

  /** Configurations that the contract can be deployed with: one pair for each of the two
      denoms, in either order, with different tokens, and a fee of at most 100%. It starts
      unpaused, with counters that have never been used. */
  lemma InstantiateIff(cfg: Config)
    ensures ValidatePairs(cfg.pairs).Ok? <==>
            && |cfg.pairs| == 2
            && (exists p <- cfg.pairs :: p.nativeDenom == Uluna) && (exists p <- cfg.pairs :: p.nativeDenom == Uusd)
            && cfg.pairs[0].wrappedToken != cfg.pairs[1].wrappedToken
    ensures Instantiate(cfg).Ok? <==> cfg.feeBps <= 10_000 && ValidatePairs(cfg.pairs).Ok?
    ensures Instantiate(cfg).Ok? ==>
              var s := Instantiate(cfg).value;
              && !s.cfg.paused && s.cfg.(paused := cfg.paused) == cfg
              && forall d :: RollingOf(s, d) == Limiter.Rolling(0, 0)
  {
    if |cfg.pairs| == 2 {
      assert forall p :: p in cfg.pairs <==> p == cfg.pairs[0] || p == cfg.pairs[1];
    }
  }

  datatype Setting =
    | SetPairLimits(denom: Denom, limits: Limiter.Limits)
    | SetPaused(paused: bool)
    | SetFeeBps(feeBps: nat)

  function Configure(s: Store, sender: Addr, setting: Setting): Result<Store, WrapError> {
    if setting.SetFeeBps? && setting.feeBps > BPS_DENOM then Err(Math(SwapMath.InvalidFeeBps))
    else if sender != s.cfg.governance then Err(Unauthorized)
    else
      match setting
      case SetPairLimits(denom, limits) =>
        (match FindDenom(s.cfg.pairs, denom)
         case None => Err(UnknownNativeDenom)
         case Some(i) => Ok(s.(cfg := s.cfg.(pairs := s.cfg.pairs[i := s.cfg.pairs[i].(limits := limits)]))))
      case SetPaused(paused) => Ok(s.(cfg := s.cfg.(paused := paused)))
      case SetFeeBps(feeBps) => Ok(s.(cfg := s.cfg.(feeBps := feeBps)))
  }

  /** Only governance changes a setting, one at a time; the fee is validated before the
      sender, the denom after it. */
  lemma ConfigureIff(s: Store, sender: Addr, setting: Setting)
    ensures var r := Configure(s, sender, setting);
      var badFee := setting.SetFeeBps? && setting.feeBps > 10_000;
      var noPair := setting.SetPairLimits? && forall p <- s.cfg.pairs :: p.nativeDenom != setting.denom;
      && (r == Err(Math(SwapMath.InvalidFeeBps)) <==> badFee)
      && (r == Err(Unauthorized) <==> !badFee && sender != s.cfg.governance)
      && (r == Err(UnknownNativeDenom) <==> sender == s.cfg.governance && noPair)
      && (r.Ok? <==> !badFee && !noPair && sender == s.cfg.governance)
      && (r.Ok? ==>
            var cfg' := r.value.cfg;
            && cfg'.paused == (if setting.SetPaused? then setting.paused else s.cfg.paused)
            && cfg'.feeBps == (if setting.SetFeeBps? then setting.feeBps else s.cfg.feeBps)
            && (setting.SetPairLimits? ==>
                  exists i ::
                    && 0 <= i < |s.cfg.pairs| && s.cfg.pairs[i].nativeDenom == setting.denom
                    && cfg'.pairs == s.cfg.pairs[i := s.cfg.pairs[i].(limits := setting.limits)])
            && (!setting.SetPairLimits? ==> cfg'.pairs == s.cfg.pairs))
  {
    if setting.SetPairLimits? {
      var found := FindDenom(s.cfg.pairs, setting.denom);
      assert found.Some? ==> s.cfg.pairs[found.value] in s.cfg.pairs;
    }
  }

  /** A configuration change never changes which token belongs to which denom. */
  lemma ConfigureKeepsPairs(s: Store, sender: Addr, setting: Setting)
    requires Configure(s, sender, setting).Ok?
    ensures var s' := Configure(s, sender, setting).value;
      && s'.rolling == s.rolling && s'.cfg.governance == s.cfg.governance
      && |s'.cfg.pairs| == |s.cfg.pairs|
      && forall i :: 0 <= i < |s.cfg.pairs| ==> s'.cfg.pairs[i].nativeDenom == s.cfg.pairs[i].nativeDenom
                                                && s'.cfg.pairs[i].wrappedToken == s.cfg.pairs[i].wrappedToken
  {
  }

  /** The deployed contract. */
  class Contract {
    var config: Config
    var rolling: map<Denom, Limiter.Rolling>

    constructor (cfg: Config)
      requires Instantiate(cfg).Ok?
      ensures Instantiate(cfg) == Ok(View())
    {
      config, rolling := cfg.(paused := false), map[];
    }

    /** Validates the configuration before anything is stored. */
    static method Create(cfg: Config) returns (r: Result<Contract, WrapError>)
      ensures r.Ok? ==> fresh(r.value) && Instantiate(cfg) == Ok(r.value.View())
      ensures r.Err? ==> Instantiate(cfg) == Err(r.error)
    {
      if cfg.feeBps > BPS_DENOM {
        return Err(Math(SwapMath.InvalidFeeBps));
      }
      var valid := ValidatePairs(cfg.pairs);
      if valid.Err? {
        return Err(valid.error);
      }
      var c := new Contract(cfg);
      r := Ok(c);
    }

    function View(): Store
      reads this
    {
      Store(config, rolling)
    }

    method ExecuteWrap(now: nat, sender: Addr, funds: seq<Coin>) returns (r: Result<seq<Message>, WrapError>)
      modifies this`rolling
      ensures match DoWrap(old(View()), now, sender, funds)
        case Ok(o) => r == Ok([o.mint]) && View() == o.store
        case Err(e) => r == Err(e)
      ensures r.Err? ==> View() == old(View())
    {
      var cfg := config;
      if cfg.paused {
        return Err(Paused);
      }
      if |funds| != 1 {
        return Err(InvalidNativeFunds);
      }
      var coin := funds[0];
      if coin.amount == 0 {
        return Err(InvalidNativeFunds);
      }
      var found := FindDenom(cfg.pairs, coin.denom);
      if found.None? {
        return Err(UnknownNativeDenom);
      }
      var pair := cfg.pairs[found.value];
      var minted := SwapMath.ApplyFee(coin.amount, cfg.feeBps);
      if minted.Err? {
        return Err(Math(minted.error));
      }
      var limited := CountAgainstLimits(now, pair, minted.value);
      if limited.Err? {
        return Err(Limit(limited.error));
      }
      r := Ok([MintCw20(pair.wrappedToken, sender, minted.value)]);
    }

    method ReceiveCw20(now: nat, bank: Balances, token: Addr, user: Addr, gross: Uint128, hook: Hook)
      returns (r: Result<seq<Message>, WrapError>)
      modifies this`rolling
      ensures match DoUnwrap(old(View()), now, bank, token, user, gross, hook)
        case Ok(o) => r == Ok([o.burn, o.send]) && View() == o.store
        case Err(e) => r == Err(e)
      ensures r.Err? ==> View() == old(View())
    {
      var cfg := config;
      if cfg.paused {
        return Err(Paused);
      }
      var found := FindToken(cfg.pairs, token);
      if found.None? {
        return Err(UnknownWrappedToken);
      }
      var pair := cfg.pairs[found.value];
      if hook.Unreadable? {
        return Err(BadHook);
      }
      var out := SwapMath.ApplyFee(gross, cfg.feeBps);
      if out.Err? {
        return Err(Math(out.error));
      }
      if out.value < hook.minNativeOut {
        return Err(BelowMinimum);
      }
      if Held(bank, pair.nativeDenom) < out.value {
        return Err(InsufficientNative);
      }
      var limited := CountAgainstLimits(now, pair, gross);
      if limited.Err? {
        return Err(Limit(limited.error));
      }
      r := Ok([BurnCw20(pair.wrappedToken, gross), BankSend(user, Coin(pair.nativeDenom, out.value))]);
    }

    /** Loads the denom's counter, charges it and saves it when the limits admit the amount. */
    method CountAgainstLimits(now: nat, pair: DenomPair, notional: Uint128) returns (r: Result<(), Limiter.LimitError>)
      modifies this`rolling
      ensures Limiter.Admit(RollingOf(old(View()), pair.nativeDenom), now, pair.limits, notional)
           == if r.Ok? then Ok(RollingOf(View(), pair.nativeDenom)) else Err(r.error)
      ensures r.Ok? ==> rolling == old(rolling)[pair.nativeDenom := RollingOf(View(), pair.nativeDenom)]
      ensures r.Err? ==> rolling == old(rolling)
    {
      var counter := new Limiter.Counter(RollingOf(View(), pair.nativeDenom));
      r := counter.EnsureLimits(now, pair.limits, notional);
      if r.Ok? {
        rolling := rolling[pair.nativeDenom := counter.View()];
      }
    }

    method ExecSetPairLimits(sender: Addr, denom: Denom, limits: Limiter.Limits) returns (r: Result<(), WrapError>)
      modifies this`config
      ensures Configure(old(View()), sender, SetPairLimits(denom, limits)) == if r.Ok? then Ok(View()) else Err(r.error)
      ensures r.Err? ==> View() == old(View())
    {
      if sender != config.governance {
        return Err(Unauthorized);
      }
      var found := FindDenom(config.pairs, denom);
      if found.None? {
        return Err(UnknownNativeDenom);
      }
      var pair := config.pairs[found.value].(limits := limits);
      config := config.(pairs := config.pairs[found.value := pair]);
      r := Ok(());
    }

    method ExecSetPaused(sender: Addr, paused: bool) returns (r: Result<(), WrapError>)
      modifies this`config
      ensures Configure(old(View()), sender, SetPaused(paused)) == if r.Ok? then Ok(View()) else Err(r.error)
      ensures r.Err? ==> View() == old(View())
    {
      if sender != config.governance {
        return Err(Unauthorized);
      }
      config := config.(paused := paused);
      r := Ok(());
    }

    method ExecSetFeeBps(sender: Addr, feeBps: nat) returns (r: Result<(), WrapError>)
      modifies this`config
      ensures Configure(old(View()), sender, SetFeeBps(feeBps)) == if r.Ok? then Ok(View()) else Err(r.error)
      ensures r.Err? ==> View() == old(View())
    {
      if feeBps > BPS_DENOM {
        return Err(Math(SwapMath.InvalidFeeBps));
      }
      if sender != config.governance {
        return Err(Unauthorized);
      }
      config := config.(feeBps := feeBps);
      r := Ok(());
    }
  }
}
