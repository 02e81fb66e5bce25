/** The native wrap on chain: its native balances, the wrapped ledgers, and what every run
    keeps for each denom. */
module WrapSystem {
  import opened Units
  import SwapMath
  import Limiter
  import Token
  import NativeWrap

  /** Native coins held for one denom, its wrapped ledger, running totals of fees withheld,
      coins received outside `Wrap`, and wrapped tokens burned by holders, and the amounts
      charged to the limits so far. */
  datatype Account = Account(
    native: nat, wrapped: Token.Ledger, withheld: nat, donated: nat, burned: nat, charged: seq<Limiter.Entry>)

  /** One account for each of the two denoms the contract can be configured with. */
  datatype Chain = Chain(now: nat, self: Addr, store: NativeWrap.Store, lunc: Account, ustc: Account)

  datatype Tx =
    | Wrap(user: Addr, funds: seq<NativeWrap.Coin>, accepted: bool)
    | SendWrapped(token: Addr, user: Addr, amount: Uint128, hook: NativeWrap.Hook, accepted: bool)
    | OnAccount(denom: NativeWrap.Denom, op: Operation)
    | Configure(sender: Addr, setting: NativeWrap.Setting)
    | Advance(seconds: nat)

  /** What happens to one denom outside the contract's entry points. */
  datatype Operation =
    | TransferWrapped(from: Addr, to: Addr, amount: Uint128)
    | BurnWrapped(holder: Addr, amount: Uint128)
    | Donate(amount: Uint128)

  datatype ChainError = Contract(e: NativeWrap.WrapError) | Funds | Refused

  function AccountOf(c: Chain, denom: NativeWrap.Denom): Account {
    match denom
    case Uluna => c.lunc
    case Uusd => c.ustc
    case Foreign(_) => Account(0, Token.Ledger(map[], 0), 0, 0, 0, [])
  }

  /** Coins of a foreign denom are not followed: no entry point accepts or pays them. */
  function Put(c: Chain, denom: NativeWrap.Denom, a: Account): Chain {
    match denom
    case Uluna => c.(lunc := a)
    case Uusd => c.(ustc := a)
    case Foreign(_) => c
  }

  function Bank(c: Chain): NativeWrap.Balances {
    NativeWrap.Balances(c.lunc.native, c.ustc.native)
  }

  /** The denom whose wrapped token this is. */
  function DenomOf(c: Chain, token: Addr): Option<NativeWrap.Denom> {
    match NativeWrap.FindToken(c.store.cfg.pairs, token)
    case Some(i) => Some(c.store.cfg.pairs[i].nativeDenom)
    case None => None
  }

  /** One message of the contract, executed with the contract as its sender. */
  function Dispatch(c: Chain, m: NativeWrap.Message): Result<Chain, ChainError> {
    match m
    case MintCw20(token, recipient, amount) =>
      (match DenomOf(c, token)
       case None => Err(Funds)
       case Some(denom) =>
         var a := AccountOf(c, denom);
         var l :- Token.Mint(a.wrapped, recipient, amount).ToResult(Funds);
         Ok(Put(c, denom, a.(wrapped := l))))
    case BurnCw20(token, amount) =>
      (match DenomOf(c, token)
       case None => Err(Funds)
       case Some(denom) =>
         var a := AccountOf(c, denom);
         var l :- Token.Burn(a.wrapped, c.self, amount).ToResult(Funds);
         Ok(Put(c, denom, a.(wrapped := l))))
    case BankSend(_, coin) =>
      var a := AccountOf(c, coin.denom);
      if a.native < coin.amount then Err(Funds) else Ok(Put(c, coin.denom, a.(native := a.native - coin.amount)))
  }

  /** Bookkeeping of an accepted swap. */
  function Record(c: Chain, denom: NativeWrap.Denom, fee: nat, charge: nat): Chain {
    var a := AccountOf(c, denom);
    Put(c, denom, a.(withheld := a.withheld + fee, charged := a.charged + [Limiter.Entry(c.now, charge)]))
  }

  /** The bank moves the attached coin to the contract before its messages run; any other
      number of coins is refused, and the refusal returns them. */
  function ExecuteWrap(c: Chain, user: Addr, funds: seq<NativeWrap.Coin>, accepted: bool): Result<Chain, ChainError> {
    var o :- NativeWrap.DoWrap(c.store, c.now, user, funds).MapErr(e => Contract(e));
    if !accepted then Err(Refused)
    else
      var coin := funds[0];
      var a := AccountOf(c, coin.denom);
      var c1 := Put(c, coin.denom, a.(native := a.native + coin.amount)).(store := o.store);
      var c2 :- Dispatch(c1, o.mint);
      Ok(Record(c2, coin.denom, SwapMath.Fee(coin.amount, c.store.cfg.feeBps), o.mint.amount))
  }

  function ExecuteUnwrap(c: Chain, denom: NativeWrap.Denom, token: Addr, user: Addr, gross: Uint128,
                         hook: NativeWrap.Hook, accepted: bool)
    : Result<Chain, ChainError>
  {
    var a := AccountOf(c, denom);
    var l :- Token.Transfer(a.wrapped, user, c.self, gross).ToResult(Funds);
    var o :- NativeWrap.DoUnwrap(c.store, c.now, Bank(c), token, user, gross, hook).MapErr(e => Contract(e));
    if !accepted then Err(Refused)
    else
      var c1 := Put(c, denom, a.(wrapped := l)).(store := o.store);
      var c2 :- Dispatch(c1, o.burn);
      var c3 :- Dispatch(c2, o.send);
      Ok(Record(c3, denom, SwapMath.Fee(gross, c.store.cfg.feeBps), gross))
  }

  /** A call of the hook by a contract that is no configured token; whatever it moved is not
      followed. */
  function ExecuteStray(c: Chain, token: Addr, user: Addr, gross: Uint128, hook: NativeWrap.Hook, accepted: bool)
    : Result<Chain, ChainError>
  {
    var o :- NativeWrap.DoUnwrap(c.store, c.now, Bank(c), token, user, gross, hook).MapErr(e => Contract(e));
    if !accepted then Err(Refused)
    else
      var c1 :- Dispatch(c.(store := o.store), o.burn);
      Dispatch(c1, o.send)
  }

  function Operate(a: Account, op: Operation): Result<Account, ChainError> {
    match op
    case TransferWrapped(from, to, amount) =>
      var l :- Token.Transfer(a.wrapped, from, to, amount).ToResult(Funds);
      Ok(a.(wrapped := l))
    case BurnWrapped(holder, amount) =>
      var l :- Token.Burn(a.wrapped, holder, amount).ToResult(Funds);
      Ok(a.(wrapped := l, burned := a.burned + amount))
    case Donate(amount) => Ok(a.(native := a.native + amount, donated := a.donated + amount))
  }

  function Execute(c: Chain, tx: Tx): Result<Chain, ChainError> {
    match tx
    case Wrap(user, funds, accepted) => ExecuteWrap(c, user, funds, accepted)
    case SendWrapped(token, user, amount, hook, accepted) =>
      (match DenomOf(c, token)
       case None => ExecuteStray(c, token, user, amount, hook, accepted)
       case Some(denom) => ExecuteUnwrap(c, denom, token, user, amount, hook, accepted))
    case OnAccount(denom, op) =>
      var a :- Operate(AccountOf(c, denom), op);
      Ok(Put(c, denom, a))
    case Configure(sender, setting) =>
      var store :- NativeWrap.Configure(c.store, sender, setting).MapErr(e => Contract(e));
      Ok(c.(store := store))
    case Advance(seconds) => Ok(c.(now := c.now + seconds))
  }

  /** A failed transaction reverts. */
  function Step(c: Chain, tx: Tx): Chain {
    match Execute(c, tx)
    case Ok(c') => c'
    case Err(_) => c
  }

  function Run(c: Chain, txs: seq<Tx>): Chain {
    if txs == [] then c else Step(Run(c, txs[..|txs| - 1]), txs[|txs| - 1])
  }

  // ---------------------------------------------------------------- one swap

  predicate ValidPairs(c: Chain) {
    NativeWrap.ValidatePairs(c.store.cfg.pairs).Ok?
  }

  /** Only the counter of `denom` differs. */
  predicate OnlyCounter(s: NativeWrap.Store, s': NativeWrap.Store, denom: NativeWrap.Denom) {
    s'.cfg == s.cfg && s'.rolling == s.rolling[denom := NativeWrap.RollingOf(s', denom)]
  }

  /** Only the account of `denom`, now `a`, and its counter differ. */
  predicate OnlyDenom(c: Chain, c': Chain, denom: NativeWrap.Denom, a: Account) {
    && !denom.Foreign?
    && c' == Put(c, denom, a).(store := c'.store)
    && OnlyCounter(c.store, c'.store, denom)
  }

  function AfterWrap(a: Account, now: nat, amount: nat, fee: nat, wrapped: Token.Ledger): Account
    requires fee <= amount
  {
    a.(native := a.native + amount, withheld := a.withheld + fee, wrapped := wrapped,
       charged := a.charged + [Limiter.Entry(now, amount - fee)])
  }

  function AfterUnwrap(a: Account, now: nat, gross: nat, fee: nat, wrapped: Token.Ledger): Account
    requires fee <= gross <= a.native + fee
  {
    a.(native := a.native - (gross - fee), withheld := a.withheld + fee, wrapped := wrapped,
       charged := a.charged + [Limiter.Entry(now, gross)])
  }

  /** The counter of `denom` has admitted `amount` under the limits of its pair. */
  predicate Charged(s: NativeWrap.Store, s': NativeWrap.Store, now: nat, denom: NativeWrap.Denom, amount: Uint128) {
    var i := NativeWrap.FindDenom(s.cfg.pairs, denom);
    && i.Some?
    && Limiter.Admit(NativeWrap.RollingOf(s, denom), now, s.cfg.pairs[i.value].limits, amount)
       == Ok(NativeWrap.RollingOf(s', denom))
  }

  /** The coin stays, its amount less the fee is minted, nothing of another denom changes. */
  predicate Wrapped(c: Chain, c': Chain, user: Addr, denom: NativeWrap.Denom, amount: Uint128, fee: nat,
                    l: Token.Ledger) {
    var a := AccountOf(c, denom);
    && fee <= amount
    && Token.Mint(a.wrapped, user, amount - fee) == Some(l)
    && OnlyDenom(c, c', denom, AfterWrap(a, c.now, amount, fee, l))
    && Charged(c.store, c'.store, c.now, denom, amount - fee)
  }

  /** The whole amount is burned, the amount less the fee leaves in native coins, nothing of
      another denom changes. */
  predicate Unwrapped(c: Chain, c': Chain, user: Addr, denom: NativeWrap.Denom, gross: Uint128, fee: nat,
                      l: Token.Ledger) {
    var a := AccountOf(c, denom);
    && fee <= gross <= a.native + fee
    && Token.SendAndBurn(a.wrapped, user, c.self, gross) == Some(l)
    && OnlyDenom(c, c', denom, AfterUnwrap(a, c.now, gross, fee, l))
    && Charged(c.store, c'.store, c.now, denom, gross)
  }

  /** What the contract decides on a wrap: which denom, which fee, which mint. */
  lemma WrapDecision(s: NativeWrap.Store, now: nat, user: Addr, funds: seq<NativeWrap.Coin>) returns (i: nat)
    requires NativeWrap.ValidatePairs(s.cfg.pairs).Ok? && NativeWrap.DoWrap(s, now, user, funds).Ok?
    ensures |funds| == 1 && i < |s.cfg.pairs| && s.cfg.pairs[i].nativeDenom == funds[0].denom
    ensures var o := NativeWrap.DoWrap(s, now, user, funds).value;
      var fee := SwapMath.Fee(funds[0].amount, s.cfg.feeBps);
      && fee <= funds[0].amount
      && o.mint == NativeWrap.MintCw20(s.cfg.pairs[i].wrappedToken, user, funds[0].amount - fee)
      && OnlyCounter(s, o.store, funds[0].denom)
      && Charged(s, o.store, now, funds[0].denom, funds[0].amount - fee)
  {
    SwapMath.ApplyFeeBounds(funds[0].amount, s.cfg.feeBps);
    i := NativeWrap.FindDenom(s.cfg.pairs, funds[0].denom).value;
  }

  /** What the contract decides on an unwrap. */
  lemma UnwrapDecision(s: NativeWrap.Store, now: nat, bank: NativeWrap.Balances, i: nat, user: Addr, gross: Uint128,
                       hook: NativeWrap.Hook)
    requires NativeWrap.ValidatePairs(s.cfg.pairs).Ok? && i < |s.cfg.pairs|
    requires NativeWrap.DoUnwrap(s, now, bank, s.cfg.pairs[i].wrappedToken, user, gross, hook).Ok?
    ensures var p := s.cfg.pairs[i];
      var o := NativeWrap.DoUnwrap(s, now, bank, p.wrappedToken, user, gross, hook).value;
      var fee := SwapMath.Fee(gross, s.cfg.feeBps);
      && fee <= gross <= NativeWrap.Held(bank, p.nativeDenom) + fee
      && o.burn == NativeWrap.BurnCw20(p.wrappedToken, gross)
      && o.send == NativeWrap.BankSend(user, NativeWrap.Coin(p.nativeDenom, gross - fee))
      && OnlyCounter(s, o.store, p.nativeDenom)
      && Charged(s, o.store, now, p.nativeDenom, gross)
  {
  }

  /** Every successful `Wrap` carries exactly one coin of a configured denom. */
  lemma WrapEffect(c: Chain, user: Addr, funds: seq<NativeWrap.Coin>, accepted: bool) returns (l: Token.Ledger)
    requires ValidPairs(c) && ExecuteWrap(c, user, funds, accepted).Ok?
    ensures |funds| == 1
    ensures Wrapped(c, ExecuteWrap(c, user, funds, accepted).value, user, funds[0].denom, funds[0].amount,
                    SwapMath.Fee(funds[0].amount, c.store.cfg.feeBps), l)
  {
    var i := WrapDecision(c.store, c.now, user, funds);
    NativeWrap.PairsAreOneToOne(c.store.cfg.pairs, i, i);
    var (denom, amount) := (funds[0].denom, funds[0].amount);
    l := Token.Mint(AccountOf(c, denom).wrapped, user, amount - SwapMath.Fee(amount, c.store.cfg.feeBps)).value;
  }

  /** Every successful unwrap burns and pays out of the account of the token's own denom. */
  lemma UnwrapEffect(c: Chain, i: nat, user: Addr, gross: Uint128, hook: NativeWrap.Hook, accepted: bool)
    returns (l: Token.Ledger)
    requires ValidPairs(c) && i < |c.store.cfg.pairs|
    requires ExecuteUnwrap(c, c.store.cfg.pairs[i].nativeDenom, c.store.cfg.pairs[i].wrappedToken, user, gross, hook,
                           accepted).Ok?
    ensures var p := c.store.cfg.pairs[i];
      Unwrapped(c, ExecuteUnwrap(c, p.nativeDenom, p.wrappedToken, user, gross, hook, accepted).value,
                user, p.nativeDenom, gross, SwapMath.Fee(gross, c.store.cfg.feeBps), l)
  {
    UnwrapDecision(c.store, c.now, Bank(c), i, user, gross, hook);
    NativeWrap.PairsAreOneToOne(c.store.cfg.pairs, i, i);
    l := Token.SendAndBurn(AccountOf(c, c.store.cfg.pairs[i].nativeDenom).wrapped, user, c.self, gross).value;
  }

  /** Every successful `SendWrapped` is an unwrap of the token's own denom. */
  lemma SendEffect(c: Chain, tx: Tx) returns (fee: nat, l: Token.Ledger)
    requires ValidPairs(c) && tx.SendWrapped? && Execute(c, tx).Ok?
    ensures DenomOf(c, tx.token).Some?
    ensures Unwrapped(c, Step(c, tx), tx.user, DenomOf(c, tx.token).value, tx.amount, fee, l)
  {
    NativeWrap.UnwrapIsOfAPair(c.store, c.now, Bank(c), tx.token, tx.user, tx.amount, tx.hook);
    var i := NativeWrap.FindToken(c.store.cfg.pairs, tx.token).value;
    l := UnwrapEffect(c, i, tx.user, tx.amount, tx.hook, tx.accepted);
    fee := SwapMath.Fee(tx.amount, c.store.cfg.feeBps);
  }

  lemma WrapTxEffect(c: Chain, tx: Tx) returns (fee: nat, l: Token.Ledger)
    requires ValidPairs(c) && tx.Wrap? && Execute(c, tx).Ok?
    ensures |tx.funds| == 1
    ensures Wrapped(c, Step(c, tx), tx.user, tx.funds[0].denom, tx.funds[0].amount, fee, l)
  {
    l := WrapEffect(c, tx.user, tx.funds, tx.accepted);
    fee := SwapMath.Fee(tx.funds[0].amount, c.store.cfg.feeBps);
  }

  // ---------------------------------------------------------------- conservation

  /** The native balance less the wrapped supply is exactly what was withheld, donated, or
      burned by holders; balances of the wrapped token add up to its supply. */
  ghost predicate Balanced(a: Account) {
    && Token.Conserved(a.wrapped)
    && a.native == a.wrapped.supply + a.withheld + a.donated + a.burned
  }

  ghost predicate AllBalanced(c: Chain) {
    Balanced(c.lunc) && Balanced(c.ustc)
  }

  /** A deployment: fresh storage, no wrapped tokens; coins already held count as donated. */
  ghost predicate Deployed(c: Chain) {
    && c.now > 0
    && NativeWrap.Instantiate(c.store.cfg) == Ok(c.store)
    && Unused(c.lunc) && Unused(c.ustc)
  }

  ghost predicate Unused(a: Account) {
    && Token.Conserved(a.wrapped) && a.wrapped.supply == 0 && a.charged == []
    && a.withheld == 0 && a.burned == 0 && a.native == a.donated
  }

  lemma WrapKeepsBalanced(a: Account, now: nat, user: Addr, amount: Uint128, fee: nat, l: Token.Ledger)
    requires Balanced(a) && fee <= amount && Token.Mint(a.wrapped, user, amount - fee) == Some(l)
    ensures Balanced(AfterWrap(a, now, amount, fee, l))
  {
    Token.MintEffect(a.wrapped, user, amount - fee, {});
  }

  lemma UnwrapKeepsBalanced(a: Account, now: nat, user: Addr, self: Addr, gross: Uint128, fee: nat, l: Token.Ledger)
    requires Balanced(a) && fee <= gross <= a.native + fee
    requires Token.SendAndBurn(a.wrapped, user, self, gross) == Some(l)
    ensures Balanced(AfterUnwrap(a, now, gross, fee, l))
  {
    Token.SendAndBurnEffect(a.wrapped, user, self, gross, {});
  }

  lemma OperateKeepsBalanced(a: Account, op: Operation)
    requires Balanced(a) && Operate(a, op).Ok?
    ensures Balanced(Operate(a, op).value)
  {
    match op
    case TransferWrapped(from, to, amount) => Token.TransferEffect(a.wrapped, from, to, amount, {});
    case BurnWrapped(holder, amount) => Token.BurnEffect(a.wrapped, holder, amount, {});
    case Donate(_) =>
  }

  lemma WrappedKeepsBalanced(c: Chain, c': Chain, user: Addr, denom: NativeWrap.Denom, amount: Uint128, fee: nat,
                             l: Token.Ledger)
    requires AllBalanced(c) && Wrapped(c, c', user, denom, amount, fee, l)
    ensures AllBalanced(c')
  {
    WrapKeepsBalanced(AccountOf(c, denom), c.now, user, amount, fee, l);
  }

  lemma UnwrappedKeepsBalanced(c: Chain, c': Chain, user: Addr, denom: NativeWrap.Denom, gross: Uint128, fee: nat,
                               l: Token.Ledger)
    requires AllBalanced(c) && Unwrapped(c, c', user, denom, gross, fee, l)
    ensures AllBalanced(c')
  {
    UnwrapKeepsBalanced(AccountOf(c, denom), c.now, user, c.self, gross, fee, l);
  }

  lemma WrapTxKeepsInv(c: Chain, tx: Tx)
    requires ValidPairs(c) && AllBalanced(c) && tx.Wrap? && Execute(c, tx).Ok?
    ensures Step(c, tx).store.cfg == c.store.cfg && AllBalanced(Step(c, tx))
  {
    var fee, l := WrapTxEffect(c, tx);
    WrappedKeepsBalanced(c, Step(c, tx), tx.user, tx.funds[0].denom, tx.funds[0].amount, fee, l);
  }

  lemma SendTxKeepsInv(c: Chain, tx: Tx)
    requires ValidPairs(c) && AllBalanced(c) && tx.SendWrapped? && Execute(c, tx).Ok?
    ensures Step(c, tx).store.cfg == c.store.cfg && AllBalanced(Step(c, tx))
  {
    var fee, l := SendEffect(c, tx);
    UnwrappedKeepsBalanced(c, Step(c, tx), tx.user, DenomOf(c, tx.token).value, tx.amount, fee, l);
  }

  lemma OnAccountKeepsInv(c: Chain, denom: NativeWrap.Denom, op: Operation)
    requires AllBalanced(c) && Operate(AccountOf(c, denom), op).Ok?
    ensures AllBalanced(Put(c, denom, Operate(AccountOf(c, denom), op).value))
  {
    OperateKeepsBalanced(AccountOf(c, denom), op);
  }

  lemma StepKeepsInv(c: Chain, tx: Tx)
    requires ValidPairs(c) && AllBalanced(c)
    ensures ValidPairs(Step(c, tx)) && AllBalanced(Step(c, tx))
  {
    if Execute(c, tx).Ok? {
      match tx
      case Wrap(_, _, _) => WrapTxKeepsInv(c, tx);
      case SendWrapped(_, _, _, _, _) => SendTxKeepsInv(c, tx);
      case OnAccount(denom, op) => OnAccountKeepsInv(c, denom, op);
      case Configure(sender, setting) => NativeWrap.ConfigureKeepsPairs(c.store, sender, setting);
      case Advance(_) =>
    }
  }

  lemma {:induction false} RunKeepsInv(c: Chain, txs: seq<Tx>)
    requires ValidPairs(c) && AllBalanced(c)
    ensures ValidPairs(Run(c, txs)) && AllBalanced(Run(c, txs))
  {
    if txs != [] {
      RunKeepsInv(c, txs[..|txs| - 1]);
      StepKeepsInv(Run(c, txs[..|txs| - 1]), txs[|txs| - 1]);
    }
  }

  /** Exact conservation in every run, for each denom. */
  lemma ExactConservation(c: Chain, txs: seq<Tx>, denom: NativeWrap.Denom)
    requires Deployed(c)
    ensures var a := AccountOf(Run(c, txs), denom);
      a.native == a.wrapped.supply + a.withheld + a.donated + a.burned
  {
    RunKeepsInv(c, txs);
  }

  /** The balance check of an unwrap passes when the tokens sent are part of a covered supply. */
  lemma CoveredUnwrap(s: NativeWrap.Store, now: nat, bank: NativeWrap.Balances, i: nat, user: Addr,
                      gross: Uint128, hook: NativeWrap.Hook)
    requires NativeWrap.ValidatePairs(s.cfg.pairs).Ok? && i < |s.cfg.pairs|
    requires gross <= NativeWrap.Held(bank, s.cfg.pairs[i].nativeDenom)
    ensures NativeWrap.DoUnwrap(s, now, bank, s.cfg.pairs[i].wrappedToken, user, gross, hook)
         != Err(NativeWrap.InsufficientNative)
  {
  }

  /** Whatever fails after the contract has accepted is not an error of the contract. */
  lemma UnwrapErrors(c: Chain, denom: NativeWrap.Denom, token: Addr, user: Addr, gross: Uint128,
                     hook: NativeWrap.Hook, accepted: bool)
    ensures var decided := NativeWrap.DoUnwrap(c.store, c.now, Bank(c), token, user, gross, hook);
      var r := ExecuteUnwrap(c, denom, token, user, gross, hook, accepted);
      r.Ok? || r == Err(Funds) || r == Err(Refused) || (decided.Err? && r == Err(Contract(decided.error)))
  {
  }

  lemma UnwrapNeverInsufficient(c: Chain, i: nat, user: Addr, gross: Uint128, hook: NativeWrap.Hook, accepted: bool)
    requires ValidPairs(c) && AllBalanced(c) && i < |c.store.cfg.pairs|
    ensures ExecuteUnwrap(c, c.store.cfg.pairs[i].nativeDenom, c.store.cfg.pairs[i].wrappedToken, user, gross, hook,
                          accepted)
         != Err(Contract(NativeWrap.InsufficientNative))
  {
    var p := c.store.cfg.pairs[i];
    var a := AccountOf(c, p.nativeDenom);
    if Token.Transfer(a.wrapped, user, c.self, gross).Some? {
      Token.BalanceWithinSupply(a.wrapped, user);
      NativeWrap.PairsAreOneToOne(c.store.cfg.pairs, i, i);
      CoveredUnwrap(c.store, c.now, Bank(c), i, user, gross, hook);
      UnwrapErrors(c, p.nativeDenom, p.wrappedToken, user, gross, hook, accepted);
    }
  }

  /** No unwrap in any run is refused for lack of native coins. */
  lemma NeverInsufficientNative(c: Chain, txs: seq<Tx>, token: Addr, user: Addr, gross: Uint128,
                                hook: NativeWrap.Hook, accepted: bool)
    requires Deployed(c)
    ensures Execute(Run(c, txs), SendWrapped(token, user, gross, hook, accepted))
         != Err(Contract(NativeWrap.InsufficientNative))
  {
    RunKeepsInv(c, txs);
    var end := Run(c, txs);
    if i :| NativeWrap.FindToken(end.store.cfg.pairs, token) == Some(i) {
      UnwrapNeverInsufficient(end, i, user, gross, hook, accepted);
    }
  }

  // ---------------------------------------------------------------- isolation

  /** The denom a transaction works on, if any. */
  function Subject(c: Chain, tx: Tx): Option<NativeWrap.Denom> {
    match tx
    case Wrap(_, funds, _) => if |funds| == 1 then Some(funds[0].denom) else None
    case SendWrapped(token, _, _, _, _) => DenomOf(c, token)
    case OnAccount(denom, _) => Some(denom)
    case Configure(_, _) => None
    case Advance(_) => None
  }

  /** In every run, a transaction on one denom leaves the balance, the wrapped ledger and
      the rolling counter of every other denom exactly as they were. */
  lemma DenomsAreIsolated(c: Chain, txs: seq<Tx>, tx: Tx, other: NativeWrap.Denom)
    requires Deployed(c)
    requires Subject(Run(c, txs), tx) != Some(other)
    ensures var s := Run(c, txs);
      var s' := Step(s, tx);
      AccountOf(s', other) == AccountOf(s, other)
      && NativeWrap.RollingOf(s'.store, other) == NativeWrap.RollingOf(s.store, other)
  {
    RunKeepsInv(c, txs);
    var s := Run(c, txs);
    if Execute(s, tx).Ok? {
      match tx
      case Wrap(_, _, _) => var _, _ := WrapTxEffect(s, tx);
      case SendWrapped(_, _, _, _, _) => var _, _ := SendEffect(s, tx);
      case OnAccount(_, _) =>
      case Configure(sender, setting) => NativeWrap.ConfigureKeepsPairs(s.store, sender, setting);
      case Advance(_) =>
    }
  }
}
