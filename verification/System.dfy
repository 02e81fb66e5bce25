/** The whole protocol on chain: window, oracle, both token ledgers and the treasury, run
    as one state machine in which a failed transaction reverts. */
module System {
  import opened Units
  import SwapMath
  import OraclePolicy
  import Oracle
  import Limiter
  import Token
  import Window

  /** An accepted swap: the UST1 notional counted against the limits and the vFDUSD paid out. */
  datatype Swap = Swap(time: nat, notional: Uint128, vfdusdOut: Uint128, rate: Uint128)

  /** `fees` adds up every `fee_amount` attribute emitted so far; `swaps` is the history. */
  datatype Chain = Chain(
    now: nat, self: Addr, oracle: Oracle.Store, window: Window.Store,
    ust1: Token.Ledger, vfdusd: Token.Ledger, fees: nat, swaps: seq<Swap>)

  datatype Tx =
    /** A cw20 `Send` to the window, from one of the two tokens or from any other contract
        that calls the window's hook; the balances of the latter are not followed. `accepted`
        is false when a contract outside this model refuses one of the messages, such as the
        treasury refusing the pull. */
    | Send(token: Addr, user: Addr, amount: Uint128, hook: Window.Hook, accepted: bool)
    | TransferUst1(from: Addr, to: Addr, amount: Uint128)
    | TransferVfdusd(from: Addr, to: Addr, amount: Uint128)
    | BurnUst1(holder: Addr, amount: Uint128)
    | BridgeInVfdusd(to: Addr, amount: Uint128)
    | BridgeOutVfdusd(holder: Addr, amount: Uint128)
    | CallOracle(sender: Addr, msg: Oracle.Msg)
    | ConfigureWindow(sender: Addr, setting: Window.Setting)
    | Advance(seconds: nat)

  datatype ChainError = Window(e: Window.WindowError) | Oracle(o: Oracle.OracleError) | Funds | Refused

  function Treasury(c: Chain): Addr {
    c.window.cfg.cmmTreasury
  }

  function TreasuryVfdusd(c: Chain): Uint128 {
    Token.Balance(c.vfdusd, Treasury(c))
  }

  /** One message of the window's response, executed with the window as its sender. */
  function Dispatch(c: Chain, m: Window.Message): Result<Chain, ChainError> {
    match m
    case MintCw20(_, recipient, amount) =>
      var ust1 :- Token.Mint(c.ust1, recipient, amount).ToResult(Funds);
      Ok(c.(ust1 := ust1))
    case TransferCw20(_, recipient, amount) =>
      var vfdusd :- Token.Transfer(c.vfdusd, c.self, recipient, amount).ToResult(Funds);
      Ok(c.(vfdusd := vfdusd))
    case BurnCw20(_, amount) =>
      var ust1 :- Token.Burn(c.ust1, c.self, amount).ToResult(Funds);
      Ok(c.(ust1 := ust1))
    case InstantWithdrawCw20(treasury, recipient, _, amount) =>
      var vfdusd :- Token.Transfer(c.vfdusd, treasury, recipient, amount).ToResult(Funds);
      Ok(c.(vfdusd := vfdusd))
  }

  function DispatchAll(c: Chain, messages: seq<Window.Message>): Result<Chain, ChainError>
    decreases messages
  {
    if messages == [] then Ok(c)
    else
      var next :- Dispatch(c, messages[0]);
      DispatchAll(next, messages[1..])
  }

  /** The window's entry point together with its messages, after the tokens have arrived. */
  function ReceiveAndDispatch(c: Chain, token: Addr, user: Addr, amount: Uint128, hook: Window.Hook, accepted: bool)
    : Result<Chain, ChainError>
  {
    var oracle := Oracle.QueryState(c.oracle);
    var outcome :- Window.Receive(c.window, c.now, oracle, TreasuryVfdusd(c), token, user, amount, hook)
                   .MapErr(e => Window(e));
    if !accepted then Err(Refused)
    else
      var r := outcome.response;
      var swap := if r.action.Deposited? then Swap(c.now, r.out, 0, oracle.rate)
                  else Swap(c.now, amount, r.out, oracle.rate);
      DispatchAll(c.(window := outcome.store, fees := c.fees + r.feeAmount, swaps := c.swaps + [swap]), r.messages)
  }

  function Execute(c: Chain, tx: Tx): Result<Chain, ChainError> {
    match tx
    case Send(token, user, amount, hook, accepted) =>
      if token == c.window.cfg.vfdusdToken then
        var vfdusd :- Token.Transfer(c.vfdusd, user, c.self, amount).ToResult(Funds);
        ReceiveAndDispatch(c.(vfdusd := vfdusd), token, user, amount, hook, accepted)
      else if token == c.window.cfg.ust1Token then
        var ust1 :- Token.Transfer(c.ust1, user, c.self, amount).ToResult(Funds);
        ReceiveAndDispatch(c.(ust1 := ust1), token, user, amount, hook, accepted)
      else ReceiveAndDispatch(c, token, user, amount, hook, accepted)
    case TransferUst1(from, to, amount) =>
      var ust1 :- Token.Transfer(c.ust1, from, to, amount).ToResult(Funds);
      Ok(c.(ust1 := ust1))
    case TransferVfdusd(from, to, amount) =>
      var vfdusd :- Token.Transfer(c.vfdusd, from, to, amount).ToResult(Funds);
      Ok(c.(vfdusd := vfdusd))
    case BurnUst1(holder, amount) =>
      var ust1 :- Token.Burn(c.ust1, holder, amount).ToResult(Funds);
      Ok(c.(ust1 := ust1))
    case BridgeInVfdusd(to, amount) =>
      var vfdusd :- Token.Mint(c.vfdusd, to, amount).ToResult(Funds);
      Ok(c.(vfdusd := vfdusd))
    case BridgeOutVfdusd(holder, amount) =>
      var vfdusd :- Token.Burn(c.vfdusd, holder, amount).ToResult(Funds);
      Ok(c.(vfdusd := vfdusd))
    case CallOracle(sender, msg) =>
      var oracle :- Oracle.Execute(c.oracle, c.now, sender, msg).MapErr(e => Oracle(e));
      Ok(c.(oracle := oracle))
    case ConfigureWindow(sender, setting) =>
      var window :- Window.Configure(c.window, sender, setting).MapErr(e => Window(e));
      Ok(c.(window := window))
    case Advance(seconds) => Ok(c.(now := c.now + seconds))
  }

  /** A failed transaction reverts. */
  function Step(c: Chain, tx: Tx): Chain {
    match Execute(c, tx)
    case Ok(c') => c'
    case Err(_) => c
  }

  function Run(c: Chain, txs: seq<Tx>): Chain {
    if txs == [] then c else Step(Run(c, txs[..|txs| - 1]), txs[|txs| - 1])
  }

  // ---------------------------------------------------------------- standing assumptions

  /** Window, treasury and the two tokens are distinct addresses. */
  predicate Wired(c: Chain) {
    && c.self != Treasury(c)
    && c.window.cfg.vfdusdToken != c.window.cfg.ust1Token
  }

  /** The window and the treasury act only through their own code: neither signs a token
      transaction, so the window is the treasury's only puller and UST1's only minter. */
  predicate Permitted(c: Chain, tx: Tx) {
    var own := {c.self, Treasury(c)};
    match tx
    case Send(_, user, _, _, _) => user !in own
    case TransferUst1(from, _, _) => from !in own
    case TransferVfdusd(from, _, _) => from !in own
    case BurnUst1(holder, _) => holder !in own
    case BridgeOutVfdusd(holder, _) => holder !in own
    case _ => true
  }

  /** A deployment: freshly instantiated contracts and no counted UST1 yet. */
  ghost predicate Deployed(c: Chain) {
    && c.now > 0
    && Wired(c)
    && Oracle.Fresh(c.oracle, c.now)
    && Window.Instantiate(c.window.cfg) == Ok(c.window)
    && Token.Conserved(c.ust1) && Token.Conserved(c.vfdusd)
    && c.ust1.supply == 0 && c.fees == 0 && c.swaps == []
  }

  predicate AllPermitted(c: Chain, txs: seq<Tx>) {
    forall tx <- txs :: Permitted(c, tx)
  }

  // ---------------------------------------------------------------- solvency

  /** The treasury's vFDUSD, at the current rate, covers all UST1 and every fee withheld. */
  predicate Solvent(c: Chain) {
    TreasuryVfdusd(c) * c.oracle.st.rate >= (c.ust1.supply + c.fees) * RATE_SCALE
  }

  ghost predicate Inv(c: Chain) {
    && Wired(c)
    && c.now > 0
    && c.oracle.st.rate > 0
    && Token.Conserved(c.ust1) && Token.Conserved(c.vfdusd)
    && Solvent(c)
  }

  predicate SameDeployment(c: Chain, c': Chain) {
    && c'.self == c.self
    && Treasury(c') == Treasury(c)
    && c'.window.cfg.vfdusdToken == c.window.cfg.vfdusdToken
    && c'.window.cfg.ust1Token == c.window.cfg.ust1Token
  }

  lemma TransferMoves(l: Token.Ledger, l': Token.Ledger, from: Addr, to: Addr, amount: Uint128, who: Addr)
    requires from != to && Token.Transfer(l, from, to, amount) == Some(l')
    ensures Token.Balance(l', who) == Token.Balance(l, who) - (if who == from then amount else 0)
                                                            + (if who == to then amount else 0)
  {
  }

  /** The three token movements of a deposit: in from the user, minted to the user, on to
      the treasury. */
  lemma DepositLedgers(ust1: Token.Ledger, ust1': Token.Ledger, vfdusd: Token.Ledger, arrived: Token.Ledger,
                       vfdusd': Token.Ledger, self: Addr, treasury: Addr, user: Addr,
                       amount: Uint128, out: Uint128, who: set<Addr>)
    requires Token.Conserved(ust1) && Token.Conserved(vfdusd)
    requires self != treasury && user != self && user != treasury
    requires Token.Transfer(vfdusd, user, self, amount) == Some(arrived)
    requires Token.Mint(ust1, user, out) == Some(ust1')
    requires Token.Transfer(arrived, self, treasury, amount) == Some(vfdusd')
    ensures ust1'.supply == ust1.supply + out
    ensures Token.Balance(vfdusd', treasury) == Token.Balance(vfdusd, treasury) + amount
    ensures Token.Conserved(ust1') && Token.Conserved(vfdusd')
    ensures Token.Holdings(ust1', who) == Token.Holdings(ust1, who) + Token.Moved(who, user, out)
    ensures self !in who && treasury !in who ==>
              Token.Holdings(vfdusd', who) == Token.Holdings(vfdusd, who) - Token.Moved(who, user, amount)
  {
    TransferMoves(vfdusd, arrived, user, self, amount, treasury);
    TransferMoves(arrived, vfdusd', self, treasury, amount, treasury);
    Token.TransferEffect(vfdusd, user, self, amount, who);
    Token.MintEffect(ust1, user, out, who);
    Token.TransferEffect(arrived, self, treasury, amount, who);
  }

  /** The three token movements of a withdrawal: in from the user, burned, paid by the
      treasury. */
  lemma WithdrawLedgers(ust1: Token.Ledger, arrived: Token.Ledger, ust1': Token.Ledger, vfdusd: Token.Ledger,
                        vfdusd': Token.Ledger, self: Addr, treasury: Addr, user: Addr,
                        gross: Uint128, out: Uint128, who: set<Addr>)
    requires Token.Conserved(ust1) && Token.Conserved(vfdusd)
    requires self != treasury && user != self && user != treasury
    requires Token.Transfer(ust1, user, self, gross) == Some(arrived)
    requires Token.Burn(arrived, self, gross) == Some(ust1')
    requires Token.Transfer(vfdusd, treasury, user, out) == Some(vfdusd')
    ensures ust1'.supply == ust1.supply - gross
    ensures Token.Balance(vfdusd', treasury) == Token.Balance(vfdusd, treasury) - out
    ensures Token.Conserved(ust1') && Token.Conserved(vfdusd')
    ensures self !in who ==>
              Token.Holdings(ust1', who) == Token.Holdings(ust1, who) - Token.Moved(who, user, gross)
    ensures treasury !in who ==>
              Token.Holdings(vfdusd', who) == Token.Holdings(vfdusd, who) + Token.Moved(who, user, out)
  {
    TransferMoves(vfdusd, vfdusd', treasury, user, out, treasury);
    Token.TransferEffect(ust1, user, self, gross, who);
    Token.BurnEffect(arrived, self, gross, who);
    Token.TransferEffect(vfdusd, treasury, user, out, who);
  }

  /** A two-message response runs its messages one after the other. */
  lemma DispatchTwo(c: Chain, m1: Window.Message, m2: Window.Message)
    ensures DispatchAll(c, [m1, m2])
         == match Dispatch(c, m1)
            case Ok(c1) => Dispatch(c1, m2)
            case Err(e) => Err(e)
  {
    assert [m1, m2][1..] == [m2] && [m2][1..] == [];
    if Dispatch(c, m1).Ok? {
      var c1 := Dispatch(c, m1).value;
      assert DispatchAll(c1, [m2]) == match Dispatch(c1, m2) case Ok(c2) => DispatchAll(c2, []) case Err(e) => Err(e);
    }
  }

  /** A swap, in ledger terms: `credited` UST1 was minted and `amount` vFDUSD reached the
      treasury, or `amount` UST1 was burned and `out` vFDUSD left the treasury. */
  datatype Effect =
    | DepositEffect(user: Addr, amount: Uint128, credited: Uint128, fee: Uint128)
    | WithdrawEffect(user: Addr, amount: Uint128, out: Uint128, fee: Uint128)

  predicate SendEffect(c: Chain, c': Chain, e: Effect) {
    && c' == c.(window := c.window.(rolling := c'.window.rolling), ust1 := c'.ust1, vfdusd := c'.vfdusd,
                fees := c.fees + e.fee, swaps := c'.swaps)
    && match e
       case DepositEffect(user, amount, credited, fee) =>
         && credited > 0
         && (credited + fee) * RATE_SCALE <= amount * c.oracle.st.rate
         && c'.swaps == c.swaps + [Swap(c.now, credited, 0, c.oracle.st.rate)]
         && Limiter.Admit(c.window.rolling, c.now, c.window.cfg.limits, credited) == Ok(c'.window.rolling)
         && Token.Mint(c.ust1, user, credited) == Some(c'.ust1)
         && Token.Transfer(c.vfdusd, user, c.self, amount).Some?
         && Token.Transfer(Token.Transfer(c.vfdusd, user, c.self, amount).value, c.self, Treasury(c), amount)
            == Some(c'.vfdusd)
       case WithdrawEffect(user, gross, out, fee) =>
         && gross > 0 && out > 0 && fee <= gross
         && out * c.oracle.st.rate <= (gross - fee) * RATE_SCALE
         && c'.swaps == c.swaps + [Swap(c.now, gross, out, c.oracle.st.rate)]
         && Limiter.Admit(c.window.rolling, c.now, c.window.cfg.limits, gross) == Ok(c'.window.rolling)
         && Token.Transfer(c.ust1, user, c.self, gross).Some?
         && Token.Burn(Token.Transfer(c.ust1, user, c.self, gross).value, c.self, gross) == Some(c'.ust1)
         && Token.Transfer(c.vfdusd, Treasury(c), user, out) == Some(c'.vfdusd)
  }

  lemma DepositHasEffect(c: Chain, user: Addr, amount: Uint128, hook: Window.Hook, accepted: bool) returns (e: Effect)
    requires var c1 := Token.Transfer(c.vfdusd, user, c.self, amount);
      c1.Some? && ReceiveAndDispatch(c.(vfdusd := c1.value), c.window.cfg.vfdusdToken, user, amount, hook, accepted).Ok?
    ensures e.DepositEffect? && e.user == user && e.amount == amount && hook.DepositHook?
    ensures SendEffect(c, Execute(c, Send(c.window.cfg.vfdusdToken, user, amount, hook, accepted)).value, e)
  {
    var c1 := c.(vfdusd := Token.Transfer(c.vfdusd, user, c.self, amount).value);
    var oracle := Oracle.QueryState(c.oracle);
    Window.DepositOutcome(c.window, c.now, oracle, user, amount, hook);
    var o := Window.DoDeposit(c.window, c.now, oracle, user, amount, hook).value;
    var r := o.response;
    var c2 := c1.(window := o.store, fees := c.fees + r.feeAmount,
                  swaps := c.swaps + [Swap(c.now, r.out, 0, oracle.rate)]);
    DispatchTwo(c2, r.messages[0], r.messages[1]);
    e := DepositEffect(user, amount, r.out, r.feeAmount);
  }

  lemma WithdrawHasEffect(c: Chain, user: Addr, gross: Uint128, hook: Window.Hook, accepted: bool) returns (e: Effect)
    requires Wired(c)
    requires var c1 := Token.Transfer(c.ust1, user, c.self, gross);
      c1.Some? && ReceiveAndDispatch(c.(ust1 := c1.value), c.window.cfg.ust1Token, user, gross, hook, accepted).Ok?
    ensures e.WithdrawEffect? && e.user == user && e.amount == gross
    ensures hook.WithdrawHook? && hook.minVfdusdOut <= e.out
    ensures SendEffect(c, Execute(c, Send(c.window.cfg.ust1Token, user, gross, hook, accepted)).value, e)
  {
    var c1 := c.(ust1 := Token.Transfer(c.ust1, user, c.self, gross).value);
    var oracle := Oracle.QueryState(c.oracle);
    Window.WithdrawOutcome(c.window, c.now, oracle, TreasuryVfdusd(c), user, gross, hook);
    var o := Window.DoWithdraw(c.window, c.now, oracle, TreasuryVfdusd(c), user, gross, hook).value;
    var r := o.response;
    var c2 := c1.(window := o.store, fees := c.fees + r.feeAmount,
                  swaps := c.swaps + [Swap(c.now, gross, r.out, oracle.rate)]);
    DispatchTwo(c2, r.messages[0], r.messages[1]);
    e := WithdrawEffect(user, gross, r.out, r.feeAmount);
  }

  /** Every successful `Send` to the window is a deposit or a withdrawal. */
  lemma SendHasEffect(c: Chain, tx: Tx) returns (e: Effect)
    requires Wired(c) && tx.Send? && Execute(c, tx).Ok?
    ensures e.user == tx.user && e.amount == tx.amount && SendEffect(c, Execute(c, tx).value, e)
    ensures if e.DepositEffect? then tx.token == c.window.cfg.vfdusdToken && tx.hook.DepositHook?
            else tx.token == c.window.cfg.ust1Token && tx.hook.WithdrawHook? && tx.hook.minVfdusdOut <= e.out
  {
    if tx.token == c.window.cfg.vfdusdToken {
      e := DepositHasEffect(c, tx.user, tx.amount, tx.hook, tx.accepted);
    } else {
      Window.ReceiveIsASwap(c.window, c.now, Oracle.QueryState(c.oracle), TreasuryVfdusd(c), tx.token, tx.user,
                            tx.amount, tx.hook);
      e := WithdrawHasEffect(c, tx.user, tx.amount, tx.hook, tx.accepted);
    }
  }

  /** Any oracle call keeps a positive, nondecreasing rate. */
  lemma OracleCallKeepsRate(o: Oracle.Store, now: nat, sender: Addr, msg: Oracle.Msg)
    requires Oracle.Execute(o, now, sender, msg).Ok?
    ensures Oracle.Execute(o, now, sender, msg).value.st.rate >= o.st.rate
  {
  }

  lemma SendKeepsInv(c: Chain, c': Chain, e: Effect)
    requires Inv(c) && e.user !in {c.self, Treasury(c)}
    requires SendEffect(c, c', e)
    ensures Inv(c')
  {
    match e
    case DepositEffect(user, amount, credited, fee) =>
      var arrived := Token.Transfer(c.vfdusd, user, c.self, amount).value;
      DepositLedgers(c.ust1, c'.ust1, c.vfdusd, arrived, c'.vfdusd, c.self, Treasury(c), user, amount, credited, {});
      SolventAfterDeposit(TreasuryVfdusd(c), c.oracle.st.rate, c.ust1.supply + c.fees, amount,
                          c'.ust1.supply + c'.fees);
    case WithdrawEffect(user, gross, out, fee) =>
      var arrived := Token.Transfer(c.ust1, user, c.self, gross).value;
      WithdrawLedgers(c.ust1, arrived, c'.ust1, c.vfdusd, c'.vfdusd, c.self, Treasury(c), user, gross, out, {});
      SolventAfterWithdraw(TreasuryVfdusd(c), c.oracle.st.rate, c.ust1.supply + c.fees, out, c'.ust1.supply + c'.fees);
  }

  /** More vFDUSD in the treasury, a higher rate or less UST1 keeps solvency. */
  lemma MoreIsSolvent(treasury: nat, rate: nat, owed: nat, treasury': nat, rate': nat, owed': nat)
    requires treasury <= treasury' && rate <= rate' && owed' <= owed
    requires treasury * rate >= owed * RATE_SCALE
    ensures treasury' * rate' >= owed' * RATE_SCALE
  {
  }

  /** Everything but a swap moves the parts of the solvency inequality in its favour. */
  lemma OtherEffect(c: Chain, tx: Tx)
    requires Wired(c) && Permitted(c, tx) && !tx.Send? && Execute(c, tx).Ok?
    requires Token.Conserved(c.ust1) && Token.Conserved(c.vfdusd)
    ensures var c' := Step(c, tx);
      && SameDeployment(c, c') && c'.now >= c.now && c'.fees == c.fees
      && Token.Conserved(c'.ust1) && Token.Conserved(c'.vfdusd)
      && TreasuryVfdusd(c) <= TreasuryVfdusd(c') && c.oracle.st.rate <= c'.oracle.st.rate
      && c'.ust1.supply <= c.ust1.supply
  {
    match tx
    case TransferUst1(from, to, amount) => Token.TransferEffect(c.ust1, from, to, amount, {});
    case TransferVfdusd(from, to, amount) => Token.TransferEffect(c.vfdusd, from, to, amount, {});
    case BurnUst1(holder, amount) => Token.BurnEffect(c.ust1, holder, amount, {});
    case BridgeInVfdusd(to, amount) => Token.MintEffect(c.vfdusd, to, amount, {});
    case BridgeOutVfdusd(holder, amount) => Token.BurnEffect(c.vfdusd, holder, amount, {});
    case CallOracle(sender, msg) => OracleCallKeepsRate(c.oracle, c.now, sender, msg);
    case ConfigureWindow(_, _) =>
    case Advance(_) =>
  }

  lemma OtherKeepsInv(c: Chain, tx: Tx)
    requires Inv(c) && Permitted(c, tx) && !tx.Send? && Execute(c, tx).Ok?
    ensures Inv(Step(c, tx)) && SameDeployment(c, Step(c, tx))
  {
    var c' := Step(c, tx);
    OtherEffect(c, tx);
    MoreIsSolvent(TreasuryVfdusd(c), c.oracle.st.rate, c.ust1.supply + c.fees,
                  TreasuryVfdusd(c'), c'.oracle.st.rate, c'.ust1.supply + c'.fees);
  }

  lemma StepKeepsInv(c: Chain, tx: Tx)
    requires Inv(c) && Permitted(c, tx)
    ensures Inv(Step(c, tx)) && SameDeployment(c, Step(c, tx))
  {
    if Execute(c, tx).Ok? {
      if tx.Send? {
        var e := SendHasEffect(c, tx);
        SendKeepsInv(c, Step(c, tx), e);
      } else {
        OtherKeepsInv(c, tx);
      }
    }
  }

  lemma SolventAfterDeposit(treasury: nat, rate: nat, owed: nat, amount: nat, owed': int)
    requires treasury * rate >= owed * RATE_SCALE
    requires (owed' - owed) * RATE_SCALE <= amount * rate
    ensures (treasury + amount) * rate >= owed' * RATE_SCALE
  {
  }

  lemma SolventAfterWithdraw(treasury: nat, rate: nat, owed: nat, out: nat, owed': int)
    requires treasury * rate >= owed * RATE_SCALE
    requires out * rate <= (owed - owed') * RATE_SCALE
    ensures (treasury - out) * rate >= owed' * RATE_SCALE
  {
  }

  lemma {:induction false} RunKeepsInv(c: Chain, txs: seq<Tx>)
    requires Inv(c) && AllPermitted(c, txs)
    ensures Inv(Run(c, txs)) && SameDeployment(c, Run(c, txs))
  {
    if txs != [] {
      var init, last := txs[..|txs| - 1], txs[|txs| - 1];
      assert last in txs && forall tx <- init :: tx in txs;
      RunKeepsInv(c, init);
      StepKeepsInv(Run(c, init), last);
    }
  }

  lemma ReachableInv(c: Chain, txs: seq<Tx>, end: Chain)
    requires Deployed(c) && AllPermitted(c, txs) && end == Run(c, txs)
    ensures Inv(end)
  {
    RunKeepsInv(c, txs);
  }

  /** Solvency with fees over every run: whatever the interleaving of swaps, rate updates,
      governance changes, burns, transfers and reverted transactions, the treasury covers
      the whole UST1 supply and every fee ever emitted. */
  lemma SolventForever(c: Chain, txs: seq<Tx>)
    requires Deployed(c) && AllPermitted(c, txs)
    ensures var end := Run(c, txs);
      TreasuryVfdusd(end) * end.oracle.st.rate >= (end.ust1.supply + end.fees) * RATE_SCALE
  {
    RunKeepsInv(c, txs);
  }

  // ---------------------------------------------------------------- governance and pauses

  /** Settings of the window change only by governance's own transaction, and the oracle only
      by a call to it; a swap changes neither. */
  lemma OnlyGovernanceConfigures(c: Chain, tx: Tx)
    requires Wired(c)
    ensures Step(c, tx).window.cfg != c.window.cfg ==> tx.ConfigureWindow? && tx.sender == c.window.cfg.governance
    ensures Step(c, tx).oracle != c.oracle ==> tx.CallOracle?
    ensures Step(c, tx).swaps != c.swaps ==> tx.Send?
  {
    if tx.Send? && Execute(c, tx).Ok? {
      var _ := SendHasEffect(c, tx);
    }
  }

  /** While the window is paused, or the oracle is, no swap is accepted. */
  lemma PausedRefusesSwaps(c: Chain, tx: Tx)
    requires Wired(c) && tx.Send? && (c.window.cfg.paused || c.oracle.cfg.paused)
    ensures Execute(c, tx).Err?
  {
    if Execute(c, tx).Ok? {
      var _ := SendHasEffect(c, tx);
    }
  }

  /** A pause of the window lasts, and stops every swap, until governance lifts it; a pause of
      the oracle stops every swap and every update of the rate. */
  lemma {:induction false} PauseStopsSwaps(c: Chain, txs: seq<Tx>)
    requires Inv(c) && AllPermitted(c, txs) && (c.window.cfg.paused || c.oracle.cfg.paused)
    requires c.window.cfg.paused ==> forall tx <- txs :: tx.ConfigureWindow? ==> tx.setting != Window.SetPaused(false)
    requires !c.window.cfg.paused ==> forall tx <- txs :: tx.CallOracle? ==> tx.msg != Oracle.SetPaused(false)
    ensures Run(c, txs).swaps == c.swaps
    ensures c.window.cfg.paused ==> Run(c, txs).window.cfg.paused
    ensures !c.window.cfg.paused ==> Run(c, txs).oracle.cfg.paused && Run(c, txs).oracle.st == c.oracle.st
  {
    if txs != [] {
      var init, last := txs[..|txs| - 1], txs[|txs| - 1];
      assert last in txs && forall tx <- init :: tx in txs;
      PauseStopsSwaps(c, init);
      RunKeepsInv(c, init);
      PausedStep(Run(c, init), last);
    }
  }

  lemma PausedStep(c: Chain, tx: Tx)
    requires Wired(c) && (c.window.cfg.paused || c.oracle.cfg.paused)
    ensures Step(c, tx).swaps == c.swaps
    ensures c.window.cfg.paused && (tx.ConfigureWindow? ==> tx.setting != Window.SetPaused(false)) ==>
              Step(c, tx).window.cfg.paused
    ensures c.oracle.cfg.paused && (tx.CallOracle? ==> tx.msg != Oracle.SetPaused(false)) ==>
              Step(c, tx).oracle.cfg.paused && Step(c, tx).oracle.st == c.oracle.st
  {
    if tx.Send? {
      PausedRefusesSwaps(c, tx);
    }
  }

  // ---------------------------------------------------------------- redemption

  lemma CoveredPayout(treasury: nat, rate: nat, supply: nat, fees: nat, gross: nat, paid: nat)
    requires rate > 0 && gross <= supply
    requires treasury * rate >= (supply + fees) * RATE_SCALE
    requires paid * rate <= gross * RATE_SCALE
    ensures paid <= treasury
  {
  }

  /** The treasury check of a withdrawal passes when the UST1 sent is part of a covered supply. */
  lemma CoveredWithdrawal(w: Window.Store, now: nat, oracle: Oracle.StateResponse, treasury: Uint128,
                          user: Addr, gross: Uint128, hook: Window.Hook, supply: nat, fees: nat)
    requires oracle.rate > 0 && gross <= supply
    requires treasury * oracle.rate >= (supply + fees) * RATE_SCALE
    ensures Window.DoWithdraw(w, now, oracle, treasury, user, gross, hook) != Err(Window.InsufficientVfdusd)
  {
    if SwapMath.Withdraw(gross, oracle.rate, w.cfg.feeBps).Ok? {
      SwapMath.WithdrawIsBacked(gross, oracle.rate, w.cfg.feeBps);
      CoveredPayout(treasury, oracle.rate, supply, fees, gross,
                    SwapMath.Withdraw(gross, oracle.rate, w.cfg.feeBps).value);
    }
  }

  lemma {:induction false} DispatchFailsForFunds(c: Chain, messages: seq<Window.Message>)
    ensures DispatchAll(c, messages).Ok? || DispatchAll(c, messages) == Err(Funds)
    decreases messages
  {
    if messages != [] && Dispatch(c, messages[0]).Ok? {
      DispatchFailsForFunds(Dispatch(c, messages[0]).value, messages[1..]);
    }
  }

  /** Whatever fails after the window has accepted is not an error of the window. */
  lemma ReceiveErrors(c: Chain, token: Addr, user: Addr, amount: Uint128, hook: Window.Hook, accepted: bool)
    ensures var received := Window.Receive(c.window, c.now, Oracle.QueryState(c.oracle), TreasuryVfdusd(c),
                                           token, user, amount, hook);
      var r := ReceiveAndDispatch(c, token, user, amount, hook, accepted);
      r.Ok? || r == Err(Funds) || r == Err(Refused) || (received.Err? && r == Err(Window(received.error)))
  {
    var received := Window.Receive(c.window, c.now, Oracle.QueryState(c.oracle), TreasuryVfdusd(c),
                                   token, user, amount, hook);
    if received.Ok? && accepted {
      var r := received.value.response;
      var swap := if r.action.Deposited? then Swap(c.now, r.out, 0, c.oracle.st.rate)
                  else Swap(c.now, amount, r.out, c.oracle.st.rate);
      DispatchFailsForFunds(c.(window := received.value.store, fees := c.fees + r.feeAmount,
                               swaps := c.swaps + [swap]), r.messages);
    }
  }

  lemma WithdrawNeverInsufficient(c: Chain, user: Addr, gross: Uint128, hook: Window.Hook, accepted: bool)
    requires Inv(c) && Token.Transfer(c.ust1, user, c.self, gross).Some?
    ensures var c1 := c.(ust1 := Token.Transfer(c.ust1, user, c.self, gross).value);
      ReceiveAndDispatch(c1, c.window.cfg.ust1Token, user, gross, hook, accepted)
      != Err(Window(Window.InsufficientVfdusd))
  {
    var c1 := c.(ust1 := Token.Transfer(c.ust1, user, c.self, gross).value);
    Token.BalanceWithinSupply(c.ust1, user);
    CoveredWithdrawal(c.window, c.now, Oracle.QueryState(c.oracle), TreasuryVfdusd(c), user, gross, hook,
                      c.ust1.supply, c.fees);
    ReceiveErrors(c1, c.window.cfg.ust1Token, user, gross, hook, accepted);
  }

  lemma SendNeverInsufficient(c: Chain, tx: Tx)
    requires Inv(c) && tx.Send?
    ensures Execute(c, tx) != Err(Window(Window.InsufficientVfdusd))
  {
    if tx.token == c.window.cfg.vfdusdToken {
      var arrived := Token.Transfer(c.vfdusd, tx.user, c.self, tx.amount);
      if arrived.Some? {
        ReceiveErrors(c.(vfdusd := arrived.value), tx.token, tx.user, tx.amount, tx.hook, tx.accepted);
      }
    } else if tx.token == c.window.cfg.ust1Token && Token.Transfer(c.ust1, tx.user, c.self, tx.amount).Some? {
      WithdrawNeverInsufficient(c, tx.user, tx.amount, tx.hook, tx.accepted);
    }
  }

  /** No withdrawal in any run is refused for lack of vFDUSD in the treasury. */
  lemma NeverInsufficient(c: Chain, txs: seq<Tx>, tx: Tx)
    requires Deployed(c) && AllPermitted(c, txs)
    ensures Execute(Run(c, txs), tx) != Err(Window(Window.InsufficientVfdusd))
  {
    RunKeepsInv(c, txs);
    if tx.Send? {
      SendNeverInsufficient(Run(c, txs), tx);
    }
  }

  /** A redemption, with the rate and fee in force when it executes. */
  datatype Redemption = Redemption(gross: Uint128, rate: Uint128, feeBps: nat)

  /** What a redemption pays; one that the arithmetic refuses reverts and pays nothing. */
  function Payout(r: Redemption): nat {
    match SwapMath.Withdraw(r.gross, r.rate, r.feeBps)
    case Ok(out) => out
    case Err(_) => 0
  }

  predicate RatesAtLeast(rs: seq<Redemption>, rate: nat) {
    forall r <- rs :: r.rate >= rate
  }

  function GrossTotal(rs: seq<Redemption>): nat {
    if rs == [] then 0 else rs[0].gross + GrossTotal(rs[1..])
  }

  function PaidTotal(rs: seq<Redemption>): nat {
    if rs == [] then 0 else Payout(rs[0]) + PaidTotal(rs[1..])
  }

  lemma BackedTogether(out: nat, gross: nat, rest: nat, restGross: nat, rate: nat)
    requires out * rate <= gross * RATE_SCALE
    requires rest * rate <= restGross * RATE_SCALE
    ensures (out + rest) * rate <= (gross + restGross) * RATE_SCALE
  {
  }

  lemma PayoutIsBacked(r: Redemption, rate: nat)
    requires r.rate >= rate
    ensures Payout(r) * rate <= r.gross * RATE_SCALE
  {
    if SwapMath.Withdraw(r.gross, r.rate, r.feeBps).Ok? {
      SwapMath.WithdrawIsBacked(r.gross, r.rate, r.feeBps);
      SwapMath.MulLe(rate, r.rate, Payout(r));
    }
  }

  lemma {:induction false} PaidIsBacked(rs: seq<Redemption>, rate: nat)
    requires RatesAtLeast(rs, rate)
    ensures PaidTotal(rs) * rate <= GrossTotal(rs) * RATE_SCALE
  {
    if rs != [] {
      PayoutIsBacked(rs[0], rate);
      PaidIsBacked(rs[1..], rate);
      BackedTogether(Payout(rs[0]), rs[0].gross, PaidTotal(rs[1..]), GrossTotal(rs[1..]), rate);
    }
  }

  lemma RedeemableWhenSolvent(s: Chain, rs: seq<Redemption>)
    requires Inv(s) && RatesAtLeast(rs, s.oracle.st.rate)
    requires GrossTotal(rs) <= s.ust1.supply
    ensures PaidTotal(rs) <= TreasuryVfdusd(s)
  {
    var rate := s.oracle.st.rate;
    PaidIsBacked(rs, rate);
    CoveredPayout(TreasuryVfdusd(s), rate, s.ust1.supply, s.fees, GrossTotal(rs), PaidTotal(rs));
  }

  /** Always redeemable: in every reachable state, any list of redemptions of at most the
      supply, in any order and split, at the current or later rates and at any fees, pays
      out no more vFDUSD than the treasury holds. */
  lemma AlwaysRedeemable(c: Chain, txs: seq<Tx>, end: Chain, rs: seq<Redemption>)
    requires Deployed(c) && AllPermitted(c, txs) && end == Run(c, txs)
    requires RatesAtLeast(rs, end.oracle.st.rate)
    requires GrossTotal(rs) <= end.ust1.supply
    ensures PaidTotal(rs) <= TreasuryVfdusd(end)
  {
    RunKeepsInv(c, txs);
    RedeemableWhenSolvent(end, rs);
  }

  // ---------------------------------------------------------------- no value extraction

  /** The transaction brings nothing into the group from outside it, swaps excepted. */
  predicate Isolated(tx: Tx, who: set<Addr>) {
    match tx
    case TransferUst1(from, to, _) => to in who ==> from in who
    case TransferVfdusd(from, to, _) => to in who ==> from in who
    case BridgeInVfdusd(to, _) => to !in who
    case _ => true
  }

  /** The group's UST1 is covered by the vFDUSD it has parted with, at the current rate. */
  ghost predicate NoGain(c: Chain, who: set<Addr>, initial: nat) {
    && Token.Holdings(c.vfdusd, who) <= initial
    && Token.Holdings(c.ust1, who) * RATE_SCALE
       <= (initial - Token.Holdings(c.vfdusd, who)) * c.oracle.st.rate
  }

  lemma DepositKeepsNoGain(c: Chain, c': Chain, e: Effect, who: set<Addr>, initial: nat)
    requires Inv(c) && e.user !in {c.self, Treasury(c)} && e.DepositEffect?
    requires who !! {c.self, Treasury(c)}
    requires NoGain(c, who, initial) && SendEffect(c, c', e)
    ensures NoGain(c', who, initial)
  {
    assert c.self !in who && Treasury(c) !in who;
    var arrived := Token.Transfer(c.vfdusd, e.user, c.self, e.amount).value;
    DepositLedgers(c.ust1, c'.ust1, c.vfdusd, arrived, c'.vfdusd, c.self, Treasury(c), e.user, e.amount, e.credited,
                   who);
    if e.user in who {
      NoGainAfterDeposit(initial, Token.Holdings(c.vfdusd, who), Token.Holdings(c.ust1, who), c.oracle.st.rate,
                         e.amount, e.credited, e.fee);
    }
  }

  lemma WithdrawKeepsNoGain(c: Chain, c': Chain, e: Effect, who: set<Addr>, initial: nat)
    requires Inv(c) && e.user !in {c.self, Treasury(c)} && e.WithdrawEffect?
    requires who !! {c.self, Treasury(c)}
    requires NoGain(c, who, initial) && SendEffect(c, c', e)
    ensures NoGain(c', who, initial)
  {
    assert c.self !in who && Treasury(c) !in who;
    var arrived := Token.Transfer(c.ust1, e.user, c.self, e.amount).value;
    WithdrawLedgers(c.ust1, arrived, c'.ust1, c.vfdusd, c'.vfdusd, c.self, Treasury(c), e.user, e.amount, e.out, who);
    if e.user in who {
      NoGainAfterWithdraw(initial, Token.Holdings(c.vfdusd, who), Token.Holdings(c.ust1, who), c.oracle.st.rate,
                          e.amount, e.out, e.fee);
    }
  }

  lemma NoGainAfterDeposit(initial: nat, w: nat, u: nat, rate: nat, amount: nat, credited: nat, fee: nat)
    requires w <= initial && u * RATE_SCALE <= (initial - w) * rate
    requires (credited + fee) * RATE_SCALE <= amount * rate
    ensures (u + credited) * RATE_SCALE <= (initial - (w - amount)) * rate
  {
  }

  lemma NoGainAfterWithdraw(initial: nat, w: nat, u: nat, rate: nat, gross: nat, out: nat, fee: nat)
    requires rate > 0 && gross <= u && w <= initial
    requires u * RATE_SCALE <= (initial - w) * rate
    requires out * rate <= (gross - fee) * RATE_SCALE
    ensures w + out <= initial
    ensures (u - gross) * RATE_SCALE <= (initial - (w + out)) * rate
  {
  }

  lemma NoGainAfterLess(initial: nat, w: nat, w': nat, u: nat, u': nat, rate: nat, rate': nat)
    requires w' <= w <= initial && u' <= u && rate <= rate'
    requires u * RATE_SCALE <= (initial - w) * rate
    ensures u' * RATE_SCALE <= (initial - w') * rate'
  {
  }

  /** Everything but a swap leaves an isolated group with no more than it had. */
  lemma OtherHoldings(c: Chain, tx: Tx, who: set<Addr>)
    requires Isolated(tx, who) && !tx.Send? && Execute(c, tx).Ok?
    ensures Token.Holdings(Step(c, tx).vfdusd, who) <= Token.Holdings(c.vfdusd, who)
    ensures Token.Holdings(Step(c, tx).ust1, who) <= Token.Holdings(c.ust1, who)
  {
    match tx
    case TransferUst1(from, to, amount) => Token.TransferEffect(c.ust1, from, to, amount, who);
    case TransferVfdusd(from, to, amount) => Token.TransferEffect(c.vfdusd, from, to, amount, who);
    case BurnUst1(holder, amount) => Token.BurnEffect(c.ust1, holder, amount, who);
    case BridgeInVfdusd(to, amount) => Token.MintEffect(c.vfdusd, to, amount, who);
    case BridgeOutVfdusd(holder, amount) => Token.BurnEffect(c.vfdusd, holder, amount, who);
    case CallOracle(_, _) =>
    case ConfigureWindow(_, _) =>
    case Advance(_) =>
  }

  lemma OtherKeepsNoGain(c: Chain, tx: Tx, who: set<Addr>, initial: nat)
    requires Inv(c) && Isolated(tx, who) && !tx.Send? && Execute(c, tx).Ok?
    requires NoGain(c, who, initial)
    ensures NoGain(Step(c, tx), who, initial)
  {
    var c' := Step(c, tx);
    OtherHoldings(c, tx, who);
    assert c'.oracle.st.rate >= c.oracle.st.rate by {
      if tx.CallOracle? {
        OracleCallKeepsRate(c.oracle, c.now, tx.sender, tx.msg);
      }
    }
    NoGainAfterLess(initial, Token.Holdings(c.vfdusd, who), Token.Holdings(c'.vfdusd, who),
                    Token.Holdings(c.ust1, who), Token.Holdings(c'.ust1, who), c.oracle.st.rate, c'.oracle.st.rate);
  }

  lemma StepKeepsNoGain(c: Chain, tx: Tx, who: set<Addr>, initial: nat)
    requires Inv(c) && Permitted(c, tx) && Isolated(tx, who)
    requires who !! {c.self, Treasury(c)}
    requires NoGain(c, who, initial)
    ensures NoGain(Step(c, tx), who, initial)
  {
    if Execute(c, tx).Ok? {
      if tx.Send? {
        var e := SendHasEffect(c, tx);
        if e.DepositEffect? {
          DepositKeepsNoGain(c, Step(c, tx), e, who, initial);
        } else {
          WithdrawKeepsNoGain(c, Step(c, tx), e, who, initial);
        }
      } else {
        OtherKeepsNoGain(c, tx, who, initial);
      }
    }
  }

  lemma {:induction false} RunKeepsNoGain(c: Chain, txs: seq<Tx>, who: set<Addr>, initial: nat)
    requires Inv(c) && AllPermitted(c, txs) && forall tx <- txs :: Isolated(tx, who)
    requires who !! {c.self, Treasury(c)}
    requires NoGain(c, who, initial)
    ensures NoGain(Run(c, txs), who, initial)
  {
    if txs != [] {
      var init, last := txs[..|txs| - 1], txs[|txs| - 1];
      assert last in txs && forall tx <- init :: tx in txs;
      RunKeepsNoGain(c, init, who, initial);
      RunKeepsInv(c, init);
      StepKeepsNoGain(Run(c, init), last, who, initial);
    }
  }

  lemma NoGainAtFirst(c: Chain, who: set<Addr>)
    requires Token.Holdings(c.ust1, who) == 0
    ensures NoGain(c, who, Token.Holdings(c.vfdusd, who))
  {
  }

  lemma NoGainFrom(start: Chain, after: seq<Tx>, end: Chain, who: set<Addr>)
    requires Inv(start) && AllPermitted(start, after) && end == Run(start, after)
    requires who !! {start.self, Treasury(start)}
    requires Token.Holdings(start.ust1, who) == 0
    requires forall tx <- after :: Isolated(tx, who)
    ensures NoGain(end, who, Token.Holdings(start.vfdusd, who))
  {
    NoGainAtFirst(start, who);
    RunKeepsNoGain(start, after, who, Token.Holdings(start.vfdusd, who));
  }

  /** No value extraction: from any reachable state in which a group of accounts holds no
      UST1, after any further run in which nothing but swaps brings value into the group
      (transfers out, other users' swaps, rate and fee changes included), the group holds
      at most the vFDUSD it started with, and its UST1 is worth at most what it parted with. */
  lemma NoValueExtraction(c: Chain, before: seq<Tx>, start: Chain, after: seq<Tx>, end: Chain, who: set<Addr>)
    requires Deployed(c) && AllPermitted(c, before) && start == Run(c, before)
    requires AllPermitted(start, after) && end == Run(start, after)
    requires who !! {start.self, Treasury(start)}
    requires Token.Holdings(start.ust1, who) == 0
    requires forall tx <- after :: Isolated(tx, who)
    ensures NoGain(end, who, Token.Holdings(start.vfdusd, who))
  {
    ReachableInv(c, before, start);
    NoGainFrom(start, after, end, who);
  }

  // ---------------------------------------------------------------- sliding day

  function Entries(swaps: seq<Swap>): seq<Limiter.Entry> {
    seq(|swaps|, i requires 0 <= i < |swaps| => Limiter.Entry(swaps[i].time, swaps[i].notional))
  }

  /** Total vFDUSD paid out at times in `[from, to)`. */
  function PaidOut(swaps: seq<Swap>, from: int, to: int): nat {
    if swaps == [] then 0
    else
      var last := swaps[|swaps| - 1];
      PaidOut(swaps[..|swaps| - 1], from, to) + if from <= last.time < to then last.vfdusdOut else 0
  }

  predicate LimitsAtMost(txs: seq<Tx>, top: nat) {
    forall tx <- txs :: tx.ConfigureWindow? && tx.setting.SetLimits? ==> tx.setting.limits.rolling <= top
  }

  ghost predicate Limited(c: Chain, top: nat) {
    && c.window.cfg.limits.rolling <= top
    && Limiter.Refines(Limiter.Trace(c.window.rolling, Entries(c.swaps)), c.now, 1, top)
    && Limiter.SlidingBound(Entries(c.swaps), 1, top)
  }

  /** Swap prices never pay more than the notional is worth, and use a past rate. */
  predicate SwapsBacked(c: Chain) {
    forall s <- c.swaps :: s.vfdusdOut * s.rate <= s.notional * RATE_SCALE
  }

  lemma SendKeepsLimited(c: Chain, c': Chain, e: Effect, top: nat)
    requires c.now > 0 && SendEffect(c, c', e)
    requires Limited(c, top) && SwapsBacked(c)
    ensures Limited(c', top) && SwapsBacked(c')
  {
    var swap := c'.swaps[|c'.swaps| - 1];
    var trace := Limiter.Trace(c.window.rolling, Entries(c.swaps));
    var attempt := Limiter.Attempt(c.now, c.window.cfg.limits, swap.notional);
    Limiter.StepKeepsRefines(trace, c.now, attempt, 1, top);
    Limiter.StepKeepsSlidingBound(trace, c.now, attempt, 1, top);
    assert Entries(c'.swaps) == Entries(c.swaps) + [Limiter.Entry(swap.time, swap.notional)];
    assert Limiter.Step(trace, attempt) == Limiter.Trace(c'.window.rolling, Entries(c'.swaps));
  }

  lemma StepKeepsLimited(c: Chain, tx: Tx, top: nat)
    requires Inv(c) && Permitted(c, tx)
    requires tx.ConfigureWindow? && tx.setting.SetLimits? ==> tx.setting.limits.rolling <= top
    requires Limited(c, top) && SwapsBacked(c)
    ensures Limited(Step(c, tx), top) && SwapsBacked(Step(c, tx))
  {
    if tx.Send? && Execute(c, tx).Ok? {
      var e := SendHasEffect(c, tx);
      SendKeepsLimited(c, Step(c, tx), e, top);
    }
  }

  lemma {:induction false} RunKeepsLimited(c: Chain, txs: seq<Tx>, top: nat)
    requires Inv(c) && AllPermitted(c, txs) && LimitsAtMost(txs, top)
    requires Limited(c, top) && SwapsBacked(c)
    ensures Limited(Run(c, txs), top) && SwapsBacked(Run(c, txs))
  {
    if txs != [] {
      var init, last := txs[..|txs| - 1], txs[|txs| - 1];
      assert last in txs && forall tx <- init :: tx in txs;
      RunKeepsLimited(c, init, top);
      RunKeepsInv(c, init);
      StepKeepsLimited(Run(c, init), last, top);
    }
  }

  lemma AddBacked(paid: nat, total: nat, s: Swap, floorRate: nat)
    requires paid * floorRate <= total * RATE_SCALE
    requires s.rate >= floorRate && s.vfdusdOut * s.rate <= s.notional * RATE_SCALE
    ensures (paid + s.vfdusdOut) * floorRate <= (total + s.notional) * RATE_SCALE
  {
  }

  lemma {:induction false} PaidOutIsBacked(swaps: seq<Swap>, from: int, to: int, floorRate: nat)
    requires forall s <- swaps :: s.vfdusdOut * s.rate <= s.notional * RATE_SCALE
    requires forall s <- swaps :: from <= s.time < to ==> s.rate >= floorRate
    ensures PaidOut(swaps, from, to) * floorRate <= Limiter.Total(Entries(swaps), from, to) * RATE_SCALE
  {
    if swaps != [] {
      var init, last := swaps[..|swaps| - 1], swaps[|swaps| - 1];
      assert last in swaps && forall s <- init :: s in swaps;
      PaidOutIsBacked(init, from, to, floorRate);
      assert Entries(swaps)[..|swaps| - 1] == Entries(init);
      if from <= last.time < to {
        AddBacked(PaidOut(init, from, to), Limiter.Total(Entries(init), from, to), last, floorRate);
      }
    }
  }

  /** Over a whole run whose rolling limit never exceeds `top`, the swaps of any half-open
      24-hour interval total less than `2 * top` UST1, and when its own swaps are at rates of
      at least `floorRate` the vFDUSD paid out in it is worth no more than that. The stored volume
      is what was swapped since the stored window start. */
  lemma SlidingDay(c: Chain, txs: seq<Tx>, top: nat, from: int, floorRate: nat)
    requires Deployed(c) && AllPermitted(c, txs)
    requires c.window.cfg.limits.rolling <= top && LimitsAtMost(txs, top)
    requires forall s <- Run(c, txs).swaps :: from <= s.time < from + DAY ==> s.rate >= floorRate
    ensures var end := Run(c, txs);
      var total := Limiter.Total(Entries(end.swaps), from, from + DAY);
      && (end.swaps != [] ==> total <= 2 * top - 1)
      && (end.swaps == [] ==> total == 0)
      && PaidOut(end.swaps, from, from + DAY) * floorRate <= 2 * top * RATE_SCALE
      && end.window.rolling.volume == Limiter.Since(Entries(end.swaps), end.window.rolling.windowStart)
  {
    RunKeepsLimited(c, txs, top);
    var end := Run(c, txs);
    assert Limiter.DayTotal(Entries(end.swaps), from) == Limiter.Total(Entries(end.swaps), from, from + DAY);
    PaidOutIsBacked(end.swaps, from, from + DAY, floorRate);
  }
}
