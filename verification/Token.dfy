/** The ledger effects of a cw20 token: transfer, mint, burn, and sums of balances. */
module Token {
  import opened Units

  datatype Ledger = Ledger(balances: map<Addr, Uint128>, supply: Uint128)

  function Balance(l: Ledger, a: Addr): Uint128 {
    if a in l.balances then l.balances[a] else 0
  }

  function Debit(l: Ledger, a: Addr, amount: Uint128): Option<Ledger> {
    if Balance(l, a) < amount then None
    else Some(l.(balances := l.balances[a := Balance(l, a) - amount]))
  }

  function Credit(l: Ledger, a: Addr, amount: Uint128): Option<Ledger> {
    if Balance(l, a) + amount > U128_MAX then None
    else Some(l.(balances := l.balances[a := Balance(l, a) + amount]))
  }

  function Transfer(l: Ledger, from: Addr, to: Addr, amount: Uint128): Option<Ledger> {
    match Debit(l, from, amount)
    case None => None
    case Some(debited) => Credit(debited, to, amount)
  }

  function Mint(l: Ledger, to: Addr, amount: Uint128): Option<Ledger> {
    if l.supply + amount > U128_MAX then None
    else Credit(l.(supply := l.supply + amount), to, amount)
  }

  function Burn(l: Ledger, from: Addr, amount: Uint128): Option<Ledger> {
    match Debit(l, from, amount)
    case None => None
    case Some(debited) =>
      if debited.supply < amount then None else Some(debited.(supply := debited.supply - amount))
  }

  /** A token contract moves `amount` to `keeper`, which burns it. */
  function SendAndBurn(l: Ledger, from: Addr, keeper: Addr, amount: Uint128): Option<Ledger> {
    match Transfer(l, from, keeper, amount)
    case None => None
    case Some(arrived) => Burn(arrived, keeper, amount)
  }

  // ---------------------------------------------------------------- sums of balances

  /** What a set of accounts holds together. */
  ghost function Holdings(l: Ledger, who: set<Addr>): nat {
    if who == {} then 0
    else
      var a :| a in who;
      Balance(l, a) + Holdings(l, who - {a})
  }

  /** Balances add up to the supply. */
  ghost predicate Conserved(l: Ledger) {
    Holdings(l, l.balances.Keys) == l.supply
  }

  lemma {:induction false} HoldingsTake(l: Ledger, who: set<Addr>, a: Addr)
    requires a in who
    ensures Holdings(l, who) == Balance(l, a) + Holdings(l, who - {a})
    decreases |who|
  {
    var b :| b in who && Holdings(l, who) == Balance(l, b) + Holdings(l, who - {b});
    if b != a {
      HoldingsTake(l, who - {b}, a);
      HoldingsTake(l, who - {a}, b);
      assert who - {a} - {b} == who - {b} - {a};
    }
  }

  lemma {:induction false} HoldingsSame(l: Ledger, l': Ledger, who: set<Addr>)
    requires forall a <- who :: Balance(l', a) == Balance(l, a)
    ensures Holdings(l', who) == Holdings(l, who)
    decreases |who|
  {
    if who != {} {
      var a :| a in who;
      HoldingsTake(l, who, a);
      HoldingsTake(l', who, a);
      HoldingsSame(l, l', who - {a});
    }
  }

  /** One balance was rewritten. */
  lemma HoldingsChange(l: Ledger, l': Ledger, who: set<Addr>, a: Addr)
    requires forall x :: x != a ==> Balance(l', x) == Balance(l, x)
    ensures Holdings(l', who) == Holdings(l, who) + if a in who then Balance(l', a) - Balance(l, a) else 0
  {
  }

  /** Accounts that were never written hold nothing. */
  lemma {:induction false} HoldingsSupport(l: Ledger, who: set<Addr>)
    requires l.balances.Keys <= who
    ensures Holdings(l, who) == Holdings(l, l.balances.Keys)
    decreases |who|
  {
    if who != l.balances.Keys {
      var a :| a in who && a !in l.balances.Keys;
      HoldingsTake(l, who, a);
      HoldingsSupport(l, who - {a});
    }
  }

  lemma {:induction false} HoldingsNested(l: Ledger, who: set<Addr>, all: set<Addr>)
    requires who <= all
    ensures Holdings(l, who) <= Holdings(l, all)
    decreases |all|
  {
    if who != all {
      var a :| a in all && a !in who;
      HoldingsTake(l, all, a);
      HoldingsNested(l, who, all - {a});
    }
  }

  lemma BalanceWithinSupply(l: Ledger, a: Addr)
    requires Conserved(l)
    ensures Balance(l, a) <= l.supply
  {
    if a in l.balances {
      HoldingsTake(l, l.balances.Keys, a);
    }
  }

  lemma HoldingsWithinSupply(l: Ledger, who: set<Addr>)
    requires Conserved(l)
    ensures Holdings(l, who) <= l.supply
  {
    var all := who + l.balances.Keys;
    HoldingsNested(l, who, all);
    HoldingsSupport(l, all);
  }

  ghost function Moved(who: set<Addr>, a: Addr, amount: nat): nat {
    if a in who then amount else 0
  }

  lemma DebitEffect(l: Ledger, a: Addr, amount: Uint128, who: set<Addr>)
    requires Debit(l, a, amount).Some?
    ensures Holdings(Debit(l, a, amount).value, who) == Holdings(l, who) - Moved(who, a, amount)
  {
    HoldingsChange(l, Debit(l, a, amount).value, who, a);
  }

  lemma CreditEffect(l: Ledger, a: Addr, amount: Uint128, who: set<Addr>)
    requires Credit(l, a, amount).Some?
    ensures Holdings(Credit(l, a, amount).value, who) == Holdings(l, who) + Moved(who, a, amount)
  {
    HoldingsChange(l, Credit(l, a, amount).value, who, a);
  }

  /** Holdings do not read the supply. */
  lemma SupplyIrrelevant(l: Ledger, supply: Uint128, who: set<Addr>)
    ensures Holdings(l.(supply := supply), who) == Holdings(l, who)
  {
  }

  /** A transfer keeps the supply and moves the amount between the two accounts only,
      measured by what any set of accounts holds together. */
  lemma TransferEffect(l: Ledger, from: Addr, to: Addr, amount: Uint128, who: set<Addr>)
    requires Transfer(l, from, to, amount).Some?
    ensures var l' := Transfer(l, from, to, amount).value;
      && l'.supply == l.supply
      && Holdings(l', who) == Holdings(l, who) - Moved(who, from, amount) + Moved(who, to, amount)
      && (Conserved(l) ==> Conserved(l'))
  {
    var mid := Debit(l, from, amount).value;
    var l' := Transfer(l, from, to, amount).value;
    DebitEffect(l, from, amount, who);
    CreditEffect(mid, to, amount, who);
    var all := l'.balances.Keys;
    DebitEffect(l, from, amount, all);
    CreditEffect(mid, to, amount, all);
    HoldingsSupport(l, all);
  }

  lemma MintEffect(l: Ledger, to: Addr, amount: Uint128, who: set<Addr>)
    requires Mint(l, to, amount).Some?
    ensures var l' := Mint(l, to, amount).value;
      && l'.supply == l.supply + amount
      && Holdings(l', who) == Holdings(l, who) + Moved(who, to, amount)
      && (Conserved(l) ==> Conserved(l'))
  {
    var grown := l.(supply := l.supply + amount);
    var all := Mint(l, to, amount).value.balances.Keys;
    SupplyIrrelevant(l, grown.supply, who);
    SupplyIrrelevant(l, grown.supply, all);
    CreditEffect(grown, to, amount, who);
    CreditEffect(grown, to, amount, all);
    HoldingsSupport(l, all);
  }

  lemma BurnEffect(l: Ledger, from: Addr, amount: Uint128, who: set<Addr>)
    requires Burn(l, from, amount).Some?
    ensures var l' := Burn(l, from, amount).value;
      && l'.supply == l.supply - amount
      && Holdings(l', who) == Holdings(l, who) - Moved(who, from, amount)
      && (Conserved(l) ==> Conserved(l'))
  {
    var mid := Debit(l, from, amount).value;
    var all := mid.balances.Keys;
    DebitEffect(l, from, amount, who);
    DebitEffect(l, from, amount, all);
    SupplyIrrelevant(mid, l.supply - amount, who);
    SupplyIrrelevant(mid, l.supply - amount, all);
    HoldingsSupport(l, all);
  }

  lemma SendAndBurnEffect(l: Ledger, from: Addr, keeper: Addr, amount: Uint128, who: set<Addr>)
    requires SendAndBurn(l, from, keeper, amount).Some?
    ensures var l' := SendAndBurn(l, from, keeper, amount).value;
      && l'.supply == l.supply - amount
      && Holdings(l', who) == Holdings(l, who) - Moved(who, from, amount)
      && (Conserved(l) ==> Conserved(l'))
  {
    TransferEffect(l, from, keeper, amount, who);
    BurnEffect(Transfer(l, from, keeper, amount).value, keeper, amount, who);
  }
}
