/** What the rolling limits of the native wrap guarantee over whole runs, denom by denom. */
module WrapLimits {
  import opened Units
  import Limiter
  import NativeWrap
  import Token
  import opened WrapSystem

  function RollingLimit(s: NativeWrap.Store, denom: NativeWrap.Denom): nat {
    match NativeWrap.FindDenom(s.cfg.pairs, denom)
    case Some(i) => s.cfg.pairs[i].limits.rolling
    case None => 0
  }

  predicate LimitAtMost(tx: Tx, denom: NativeWrap.Denom, top: nat) {
    tx.Configure? && tx.setting.SetPairLimits? && tx.setting.denom == denom ==> tx.setting.limits.rolling <= top
  }

  ghost predicate Limited(s: NativeWrap.Store, charged: seq<Limiter.Entry>, now: nat, denom: NativeWrap.Denom,
                          top: nat) {
    && now > 0
    && RollingLimit(s, denom) <= top
    && Limiter.Refines(Limiter.Trace(NativeWrap.RollingOf(s, denom), charged), now, 0, top)
    && Limiter.SlidingBound(charged, 0, top)
  }

  ghost predicate LimitedAt(c: Chain, denom: NativeWrap.Denom, top: nat) {
    Limited(c.store, AccountOf(c, denom).charged, c.now, denom, top)
  }

  lemma ChargeKeepsLimited(s: NativeWrap.Store, s': NativeWrap.Store, charged: seq<Limiter.Entry>, now: nat,
                           denom: NativeWrap.Denom, amount: Uint128, top: nat)
    requires Limited(s, charged, now, denom, top) && s'.cfg == s.cfg
    requires Charged(s, s', now, denom, amount)
    ensures Limited(s', charged + [Limiter.Entry(now, amount)], now, denom, top)
  {
    var i := NativeWrap.FindDenom(s.cfg.pairs, denom).value;
    var trace := Limiter.Trace(NativeWrap.RollingOf(s, denom), charged);
    var attempt := Limiter.Attempt(now, s.cfg.pairs[i].limits, amount);
    Limiter.StepKeepsRefines(trace, now, attempt, 0, top);
    Limiter.StepKeepsSlidingBound(trace, now, attempt, 0, top);
    assert Limiter.Step(trace, attempt)
        == Limiter.Trace(NativeWrap.RollingOf(s', denom), charged + [Limiter.Entry(now, amount)]);
  }

  lemma WrappedKeepsLimited(c: Chain, c': Chain, user: Addr, on: NativeWrap.Denom, amount: Uint128, fee: nat,
                            l: Token.Ledger, denom: NativeWrap.Denom, top: nat)
    requires LimitedAt(c, denom, top) && Wrapped(c, c', user, on, amount, fee, l)
    ensures LimitedAt(c', denom, top)
  {
    if denom == on {
      ChargeKeepsLimited(c.store, c'.store, AccountOf(c, denom).charged, c.now, denom, amount - fee, top);
    }
  }

  lemma UnwrappedKeepsLimited(c: Chain, c': Chain, user: Addr, on: NativeWrap.Denom, gross: Uint128, fee: nat,
                              l: Token.Ledger, denom: NativeWrap.Denom, top: nat)
    requires LimitedAt(c, denom, top) && Unwrapped(c, c', user, on, gross, fee, l)
    ensures LimitedAt(c', denom, top)
  {
    if denom == on {
      ChargeKeepsLimited(c.store, c'.store, AccountOf(c, denom).charged, c.now, denom, gross, top);
    }
  }

  lemma {:induction false} SamePairsFind(pairs: seq<NativeWrap.DenomPair>, pairs': seq<NativeWrap.DenomPair>,
                                         denom: NativeWrap.Denom, i: nat)
    requires |pairs'| == |pairs| && i <= |pairs|
    requires forall j :: 0 <= j < |pairs| ==> pairs'[j].nativeDenom == pairs[j].nativeDenom
    ensures NativeWrap.FindDenom(pairs', denom, i) == NativeWrap.FindDenom(pairs, denom, i)
    decreases |pairs| - i
  {
    if i < |pairs| {
      SamePairsFind(pairs, pairs', denom, i + 1);
    }
  }

  lemma ConfigureKeepsLimited(c: Chain, tx: Tx, denom: NativeWrap.Denom, top: nat)
    requires LimitedAt(c, denom, top) && LimitAtMost(tx, denom, top)
    requires tx.Configure? && Execute(c, tx).Ok?
    ensures LimitedAt(Step(c, tx), denom, top)
  {
    NativeWrap.ConfigureKeepsPairs(c.store, tx.sender, tx.setting);
    SamePairsFind(c.store.cfg.pairs, Step(c, tx).store.cfg.pairs, denom, 0);
  }

  lemma StepKeepsLimited(c: Chain, tx: Tx, denom: NativeWrap.Denom, top: nat)
    requires ValidPairs(c) && LimitedAt(c, denom, top) && LimitAtMost(tx, denom, top)
    ensures LimitedAt(Step(c, tx), denom, top)
  {
    if Execute(c, tx).Ok? {
      match tx
      case Wrap(_, _, _) =>
        var fee, l := WrapTxEffect(c, tx);
        WrappedKeepsLimited(c, Step(c, tx), tx.user, tx.funds[0].denom, tx.funds[0].amount, fee, l, denom, top);
      case SendWrapped(_, _, _, _, _) =>
        var fee, l := SendEffect(c, tx);
        UnwrappedKeepsLimited(c, Step(c, tx), tx.user, DenomOf(c, tx.token).value, tx.amount, fee, l, denom, top);
      case OnAccount(_, _) =>
      case Configure(_, _) => ConfigureKeepsLimited(c, tx, denom, top);
      case Advance(_) =>
    }
  }

  lemma {:induction false} RunKeepsLimited(c: Chain, txs: seq<Tx>, denom: NativeWrap.Denom, top: nat)
    requires ValidPairs(c) && AllBalanced(c) && LimitedAt(c, denom, top)
    requires forall tx <- txs :: LimitAtMost(tx, denom, top)
    ensures LimitedAt(Run(c, txs), denom, top)
  {
    if txs != [] {
      var init, last := txs[..|txs| - 1], txs[|txs| - 1];
      assert last in txs && forall tx <- init :: tx in txs;
      RunKeepsLimited(c, init, denom, top);
      RunKeepsInv(c, init);
      StepKeepsLimited(Run(c, init), last, denom, top);
    }
  }

  /** For each denom, over any run whose rolling limit for it never exceeds `top`, what was
      charged in any half-open 24-hour interval totals at most `2 * top`, and the stored
      volume is what was charged since the stored window start. */
  lemma SlidingDay(c: Chain, txs: seq<Tx>, denom: NativeWrap.Denom, top: nat, from: int)
    requires Deployed(c)
    requires RollingLimit(c.store, denom) <= top && forall tx <- txs :: LimitAtMost(tx, denom, top)
    ensures var end := Run(c, txs);
      var charged, roll := AccountOf(end, denom).charged, NativeWrap.RollingOf(end.store, denom);
      && Limiter.DayTotal(charged, from) <= 2 * top
      && roll.volume == Limiter.Since(charged, roll.windowStart)
  {
    RunKeepsLimited(c, txs, denom, top);
  }
}
