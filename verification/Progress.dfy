/** Exactly when a swap or an unwrap goes through: in every reachable state the ledgers and
    the treasury are never in the way of a holder. */
module Progress {
  import opened Units
  import SwapMath
  import Oracle
  import Limiter
  import Token
  import Window
  import NativeWrap
  import opened System
  import WrapSystem

  /** The limits leave room for `notional`; a counter older than a day counts for nothing. */
  predicate Room(roll: Limiter.Rolling, now: nat, limits: Limiter.Limits, notional: int) {
    var used := if 0 < roll.windowStart && now < roll.windowStart + DAY then roll.volume else 0;
    notional <= limits.perTx && used + notional <= limits.rolling
  }

  predicate Usable(o: Oracle.Store, now: nat, maxAge: nat) {
    !o.cfg.paused && 0 < o.st.lastUpdateSec && now <= o.st.lastUpdateSec + maxAge
  }

  /** The fee can be computed in 128 bits. */
  predicate FeeFits(gross: nat, feeBps: nat) {
    feeBps <= BPS_DENOM && gross * (BPS_DENOM - feeBps) <= U128_MAX
  }

  // ---------------------------------------------------------------- ledgers

  lemma TransferIff(l: Token.Ledger, from: Addr, to: Addr, amount: Uint128)
    requires Token.Conserved(l)
    ensures Token.Transfer(l, from, to, amount).Some? <==> amount <= Token.Balance(l, from)
  {
    Token.HoldingsWithinSupply(l, {from, to});
    Token.HoldingsTake(l, {from, to}, to);
    if from != to {
      Token.HoldingsTake(l, {from, to} - {to}, from);
    }
  }

  lemma SendAndBurnIff(l: Token.Ledger, from: Addr, keeper: Addr, amount: Uint128)
    requires Token.Conserved(l)
    ensures Token.SendAndBurn(l, from, keeper, amount).Some? <==> amount <= Token.Balance(l, from)
  {
    TransferIff(l, from, keeper, amount);
    if amount <= Token.Balance(l, from) {
      Token.TransferEffect(l, from, keeper, amount, {});
      Token.BalanceWithinSupply(Token.Transfer(l, from, keeper, amount).value, keeper);
    }
  }

  lemma MintIff(l: Token.Ledger, to: Addr, amount: Uint128)
    requires Token.Conserved(l)
    ensures Token.Mint(l, to, amount).Some? <==> l.supply + amount <= U128_MAX
  {
    Token.BalanceWithinSupply(l, to);
  }

  // ---------------------------------------------------------------- redemption

  /** The payout reaches `want` exactly when the after-fee amount is worth that much. */
  lemma PayoutReaches(after: nat, rate: nat, want: nat)
    requires rate > 0
    ensures after * RATE_SCALE / rate >= want <==> want * rate <= after * RATE_SCALE
  {
    var out := after * RATE_SCALE / rate;
    SwapMath.DivBounds(after * RATE_SCALE, rate);
    if want <= out {
      SwapMath.MulLe(want, out, rate);
    } else {
      SwapMath.MulLe(out + 1, want, rate);
    }
  }

  /** A redemption of part of a covered supply is computed without overflow, and is covered. */
  lemma PayoutIsCovered(after: nat, rate: nat, supply: nat, fees: nat, treasury: nat)
    requires rate > 0 && after <= supply
    requires treasury * rate >= (supply + fees) * RATE_SCALE
    ensures after * RATE_SCALE / rate <= treasury
  {
  }

  /** What the window asks of a redemption. */
  predicate Redeemable(c: Chain, gross: Uint128, hook: Window.Hook) {
    var cfg := c.window.cfg;
    && hook.WithdrawHook? && !cfg.paused
    && Usable(c.oracle, c.now, cfg.maxOracleAge)
    && FeeFits(gross, cfg.feeBps)
    && Max(1, hook.minVfdusdOut) * c.oracle.st.rate <= (gross - SwapMath.Fee(gross, cfg.feeBps)) * RATE_SCALE
    && Room(c.window.rolling, c.now, cfg.limits, gross)
  }

  lemma WithdrawAcceptedIff(c: Chain, user: Addr, gross: Uint128, hook: Window.Hook)
    requires Inv(c) && gross <= c.ust1.supply
    ensures Window.Receive(c.window, c.now, Oracle.QueryState(c.oracle), TreasuryVfdusd(c),
                           c.window.cfg.ust1Token, user, gross, hook).Ok?
            <==> Redeemable(c, gross, hook)
  {
    var cfg, rate := c.window.cfg, c.oracle.st.rate;
    SwapMath.FeeIsCeiling(gross, cfg.feeBps);
    if hook.WithdrawHook? && FeeFits(gross, cfg.feeBps) {
      SwapMath.ApplyFeeBounds(gross, cfg.feeBps);
      var after := SwapMath.ApplyFee(gross, cfg.feeBps).value;
      assert after == gross - SwapMath.Fee(gross, cfg.feeBps);
      PayoutIsCovered(after, rate, c.ust1.supply, c.fees, TreasuryVfdusd(c));
      PayoutReaches(after, rate, 1);
      PayoutReaches(after, rate, hook.minVfdusdOut);
    }
  }

  lemma WithdrawDispatches(c: Chain, user: Addr, gross: Uint128, hook: Window.Hook)
    requires Inv(c) && user !in {c.self, Treasury(c)}
    requires Token.Transfer(c.ust1, user, c.self, gross).Some?
    requires Token.SendAndBurn(c.ust1, user, c.self, gross).Some?
    requires Window.DoWithdraw(c.window, c.now, Oracle.QueryState(c.oracle), TreasuryVfdusd(c), user, gross, hook).Ok?
    requires !c.window.cfg.paused
    ensures Execute(c, Send(c.window.cfg.ust1Token, user, gross, hook, true)).Ok?
  {
    var c1 := c.(ust1 := Token.Transfer(c.ust1, user, c.self, gross).value);
    var oracle := Oracle.QueryState(c.oracle);
    Window.WithdrawOutcome(c.window, c.now, oracle, TreasuryVfdusd(c), user, gross, hook);
    var o := Window.DoWithdraw(c.window, c.now, oracle, TreasuryVfdusd(c), user, gross, hook).value;
    var r := o.response;
    var c2 := c1.(window := o.store, fees := c.fees + r.feeAmount,
                  swaps := c.swaps + [Swap(c.now, gross, r.out, oracle.rate)]);
    DispatchTwo(c2, r.messages[0], r.messages[1]);
    TransferIff(c.vfdusd, Treasury(c), user, r.out);
  }

  /** In every reachable state a redemption goes through exactly when the treasury contract
      cooperates, the holder owns the amount and the window's own conditions hold: not
      paused, a usable oracle, room in the limits, and an after-fee amount worth at least one
      atom and the requested minimum. Neither the treasury's balance nor an overflow of the
      payout can stand in its way. */
  lemma RedemptionGoesThrough(c: Chain, txs: seq<Tx>, end: Chain, user: Addr, gross: Uint128, hook: Window.Hook,
                              accepted: bool)
    requires Deployed(c) && AllPermitted(c, txs) && end == Run(c, txs)
    requires user !in {end.self, Treasury(end)}
    ensures Execute(end, Send(end.window.cfg.ust1Token, user, gross, hook, accepted)).Ok? <==>
            accepted && gross <= Token.Balance(end.ust1, user) && Redeemable(end, gross, hook)
  {
    RunKeepsInv(c, txs);
    TransferIff(end.ust1, user, end.self, gross);
    SendAndBurnIff(end.ust1, user, end.self, gross);
    if gross <= Token.Balance(end.ust1, user) {
      Token.BalanceWithinSupply(end.ust1, user);
      WithdrawAcceptedIff(end, user, gross, hook);
      if Redeemable(end, gross, hook) {
        WithdrawDispatches(end, user, gross, hook);
      }
    }
  }

  // ---------------------------------------------------------------- deposit

  /** What the window and the two tokens ask of a deposit. */
  predicate Depositable(c: Chain, amount: Uint128, hook: Window.Hook) {
    var cfg := c.window.cfg;
    var worth := amount * c.oracle.st.rate / RATE_SCALE;
    && hook.DepositHook? && !cfg.paused
    && Usable(c.oracle, c.now, cfg.maxOracleAge)
    && worth <= U128_MAX && FeeFits(worth, cfg.feeBps)
    && var out := worth - SwapMath.Fee(worth, cfg.feeBps);
    && 0 < out && Room(c.window.rolling, c.now, cfg.limits, out)
    && c.ust1.supply + out <= U128_MAX
  }

  lemma DepositAcceptedIff(c: Chain, user: Addr, amount: Uint128, hook: Window.Hook)
    ensures var r := Window.Receive(c.window, c.now, Oracle.QueryState(c.oracle), TreasuryVfdusd(c),
                                    c.window.cfg.vfdusdToken, user, amount, hook);
      r.Ok? && c.ust1.supply + r.value.response.out <= U128_MAX <==> Depositable(c, amount, hook)
  {
  }

  lemma ForwardSucceeds(l: Token.Ledger, user: Addr, self: Addr, treasury: Addr, amount: Uint128)
    requires Token.Conserved(l) && user != self && Token.Transfer(l, user, self, amount).Some?
    ensures Token.Transfer(Token.Transfer(l, user, self, amount).value, self, treasury, amount).Some?
  {
    var arrived := Token.Transfer(l, user, self, amount).value;
    Token.TransferEffect(l, user, self, amount, {});
    TransferIff(arrived, self, treasury, amount);
  }

  lemma DepositDispatches(c: Chain, user: Addr, amount: Uint128, hook: Window.Hook)
    requires Inv(c) && user !in {c.self, Treasury(c)}
    requires Token.Transfer(c.vfdusd, user, c.self, amount).Some?
    requires Window.DoDeposit(c.window, c.now, Oracle.QueryState(c.oracle), user, amount, hook).Ok?
    requires !c.window.cfg.paused
    ensures Execute(c, Send(c.window.cfg.vfdusdToken, user, amount, hook, true)).Ok? <==>
            c.ust1.supply + Window.DoDeposit(c.window, c.now, Oracle.QueryState(c.oracle), user, amount,
                                             hook).value.response.out
            <= U128_MAX
  {
    var c1 := c.(vfdusd := Token.Transfer(c.vfdusd, user, c.self, amount).value);
    var oracle := Oracle.QueryState(c.oracle);
    Window.DepositOutcome(c.window, c.now, oracle, user, amount, hook);
    var o := Window.DoDeposit(c.window, c.now, oracle, user, amount, hook).value;
    var r := o.response;
    var c2 := c1.(window := o.store, fees := c.fees + r.feeAmount,
                  swaps := c.swaps + [Swap(c.now, r.out, 0, oracle.rate)]);
    DispatchTwo(c2, r.messages[0], r.messages[1]);
    MintIff(c.ust1, user, r.out);
    ForwardSucceeds(c.vfdusd, user, c.self, Treasury(c), amount);
  }

  /** In every reachable state a deposit goes through exactly when the token contracts
      cooperate, the sender owns the amount and the conditions above hold. */
  lemma DepositGoesThrough(c: Chain, txs: seq<Tx>, end: Chain, user: Addr, amount: Uint128, hook: Window.Hook,
                           accepted: bool)
    requires Deployed(c) && AllPermitted(c, txs) && end == Run(c, txs)
    requires user !in {end.self, Treasury(end)}
    ensures Execute(end, Send(end.window.cfg.vfdusdToken, user, amount, hook, accepted)).Ok? <==>
            accepted && amount <= Token.Balance(end.vfdusd, user) && Depositable(end, amount, hook)
  {
    RunKeepsInv(c, txs);
    TransferIff(end.vfdusd, user, end.self, amount);
    if amount <= Token.Balance(end.vfdusd, user) {
      DepositAcceptedIff(end, user, amount, hook);
      if Window.DoDeposit(end.window, end.now, Oracle.QueryState(end.oracle), user, amount, hook).Ok?
          && !end.window.cfg.paused {
        DepositDispatches(end, user, amount, hook);
      }
    }
  }

  // ---------------------------------------------------------------- native wrap

  predicate Unwrappable(s: NativeWrap.Store, now: nat, p: NativeWrap.DenomPair, gross: Uint128, hook: NativeWrap.Hook) {
    && hook.Unwrap? && !s.cfg.paused
    && FeeFits(gross, s.cfg.feeBps)
    && hook.minNativeOut <= gross - SwapMath.Fee(gross, s.cfg.feeBps)
    && Room(NativeWrap.RollingOf(s, p.nativeDenom), now, p.limits, gross)
  }

  /** An unwrap is accepted exactly under these conditions; it charges the denom's counter
      with the amount sent, burns exactly that amount and pays the sender the rest of it
      after the fee, rounded up. */
  lemma UnwrapAcceptedIff(s: NativeWrap.Store, now: nat, bank: NativeWrap.Balances, i: nat, user: Addr, gross: Uint128,
                          hook: NativeWrap.Hook)
    requires NativeWrap.ValidatePairs(s.cfg.pairs).Ok? && i < |s.cfg.pairs|
    requires gross <= NativeWrap.Held(bank, s.cfg.pairs[i].nativeDenom)
    ensures var p := s.cfg.pairs[i];
      var r := NativeWrap.DoUnwrap(s, now, bank, p.wrappedToken, user, gross, hook);
      && (r.Ok? <==> Unwrappable(s, now, p, gross, hook))
      && (r.Ok? ==>
            && Limiter.Admit(NativeWrap.RollingOf(s, p.nativeDenom), now, p.limits, gross)
               == Ok(NativeWrap.RollingOf(r.value.store, p.nativeDenom))
            && r.value.burn == NativeWrap.BurnCw20(p.wrappedToken, gross)
            && r.value.send
               == NativeWrap.BankSend(user, NativeWrap.Coin(p.nativeDenom, gross - SwapMath.Fee(gross, s.cfg.feeBps))))
  {
  }

  /** Once the contract has accepted an unwrap, its messages succeed. */
  lemma UnwrapDispatches(c: WrapSystem.Chain, i: nat, user: Addr, gross: Uint128, hook: NativeWrap.Hook)
    requires WrapSystem.ValidPairs(c) && i < |c.store.cfg.pairs|
    requires var p := c.store.cfg.pairs[i];
      && NativeWrap.DoUnwrap(c.store, c.now, WrapSystem.Bank(c), p.wrappedToken, user, gross, hook).Ok?
      && Token.SendAndBurn(WrapSystem.AccountOf(c, p.nativeDenom).wrapped, user, c.self, gross).Some?
    ensures var p := c.store.cfg.pairs[i];
      WrapSystem.ExecuteUnwrap(c, p.nativeDenom, p.wrappedToken, user, gross, hook, true).Ok?
  {
  }

  /** In every reachable state an unwrap goes through exactly when the holder owns the
      amount and the contract's own conditions hold; the native balance is never in its way. */
  lemma UnwrapGoesThrough(c: WrapSystem.Chain, txs: seq<WrapSystem.Tx>, end: WrapSystem.Chain, i: nat,
                          user: Addr, gross: Uint128, hook: NativeWrap.Hook, accepted: bool)
    requires WrapSystem.Deployed(c) && end == WrapSystem.Run(c, txs)
    requires i < |end.store.cfg.pairs|
    ensures var p := end.store.cfg.pairs[i];
      WrapSystem.ExecuteUnwrap(end, p.nativeDenom, p.wrappedToken, user, gross, hook, accepted).Ok? <==>
      && accepted
      && gross <= Token.Balance(WrapSystem.AccountOf(end, p.nativeDenom).wrapped, user)
      && Unwrappable(end.store, end.now, p, gross, hook)
  {
    WrapSystem.RunKeepsInv(c, txs);
    var p := end.store.cfg.pairs[i];
    NativeWrap.PairsAreOneToOne(end.store.cfg.pairs, i, i);
    var l := WrapSystem.AccountOf(end, p.nativeDenom).wrapped;
    TransferIff(l, user, end.self, gross);
    SendAndBurnIff(l, user, end.self, gross);
    if gross <= Token.Balance(l, user) {
      Token.BalanceWithinSupply(l, user);
      UnwrapAcceptedIff(end.store, end.now, WrapSystem.Bank(end), i, user, gross, hook);
      if Unwrappable(end.store, end.now, p, gross, hook) {
        UnwrapDispatches(end, i, user, gross, hook);
      }
    }
  }

  /** A wrap of one coin is accepted exactly under these conditions; it charges the denom's
      counter with what it mints, and mints the coin less the fee, rounded up, to the sender. */
  lemma WrapAcceptedIff(s: NativeWrap.Store, now: nat, i: nat, user: Addr, amount: Uint128)
    requires NativeWrap.ValidatePairs(s.cfg.pairs).Ok? && i < |s.cfg.pairs|
    ensures var p := s.cfg.pairs[i];
      var r := NativeWrap.DoWrap(s, now, user, [NativeWrap.Coin(p.nativeDenom, amount)]);
      var out := amount - SwapMath.Fee(amount, s.cfg.feeBps);
      && (r.Ok? <==> !s.cfg.paused && 0 < amount && FeeFits(amount, s.cfg.feeBps)
                     && Room(NativeWrap.RollingOf(s, p.nativeDenom), now, p.limits, out))
      && (r.Ok? ==>
            && Limiter.Admit(NativeWrap.RollingOf(s, p.nativeDenom), now, p.limits, out)
               == Ok(NativeWrap.RollingOf(r.value.store, p.nativeDenom))
            && r.value.mint == NativeWrap.MintCw20(p.wrappedToken, user, out))
  {
  }

  predicate Wrappable(c: WrapSystem.Chain, p: NativeWrap.DenomPair, amount: Uint128) {
    && !c.store.cfg.paused && 0 < amount
    && FeeFits(amount, c.store.cfg.feeBps)
    && var out := amount - SwapMath.Fee(amount, c.store.cfg.feeBps);
    && Room(NativeWrap.RollingOf(c.store, p.nativeDenom), c.now, p.limits, out)
    && WrapSystem.AccountOf(c, p.nativeDenom).wrapped.supply + out <= U128_MAX
  }

  lemma WrapDispatches(c: WrapSystem.Chain, i: nat, user: Addr, amount: Uint128, accepted: bool)
    requires WrapSystem.ValidPairs(c) && WrapSystem.AllBalanced(c) && i < |c.store.cfg.pairs|
    ensures WrapSystem.ExecuteWrap(c, user, [NativeWrap.Coin(c.store.cfg.pairs[i].nativeDenom, amount)],
                                   accepted).Ok? <==>
            accepted && Wrappable(c, c.store.cfg.pairs[i], amount)
  {
    var denom := c.store.cfg.pairs[i].nativeDenom;
    NativeWrap.PairsAreOneToOne(c.store.cfg.pairs, i, i);
    WrapAcceptedIff(c.store, c.now, i, user, amount);
    var o := NativeWrap.DoWrap(c.store, c.now, user, [NativeWrap.Coin(denom, amount)]);
    if o.Ok? {
      MintIff(WrapSystem.AccountOf(c, denom).wrapped, user, o.value.mint.amount);
    }
  }

  /** In every reachable state a wrap of one coin goes through exactly when the token
      contract cooperates and the contract's own conditions hold. */
  lemma WrapGoesThrough(c: WrapSystem.Chain, txs: seq<WrapSystem.Tx>, end: WrapSystem.Chain, i: nat,
                        user: Addr, amount: Uint128, accepted: bool)
    requires WrapSystem.Deployed(c) && end == WrapSystem.Run(c, txs)
    requires i < |end.store.cfg.pairs|
    ensures WrapSystem.ExecuteWrap(end, user, [NativeWrap.Coin(end.store.cfg.pairs[i].nativeDenom, amount)],
                                   accepted).Ok? <==>
            accepted && Wrappable(end, end.store.cfg.pairs[i], amount)
  {
    WrapSystem.RunKeepsInv(c, txs);
    WrapDispatches(end, i, user, amount, accepted);
  }
}
