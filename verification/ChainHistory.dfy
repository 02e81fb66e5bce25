/** The chain as the operator service sees it: transactions with their oracle calls and
    events, and snapshots of the oracle's state taken at any earlier height. */
module ChainHistory {
  import opened Units
  import opened Confirm
  import opened OraclePolicy
  import Oracle

  datatype OracleCall = OracleCall(sender: Addr, msg: Oracle.Msg)

  /** An included transaction: `code` is 0 when all its messages succeeded, and `after` is
      the oracle's storage once it has run. */
  datatype Tx = Tx(hash: string, time: nat, calls: seq<OracleCall>, code: nat, events: seq<TxEvent>,
                   after: Oracle.Store)

  datatype History = History(genesis: Oracle.Store, txs: seq<Tx>)

  /** The oracle calls of one transaction, all of which have to succeed. */
  function ApplyCalls(s: Oracle.Store, now: nat, calls: seq<OracleCall>): Result<Oracle.Store, Oracle.OracleError>
    decreases calls
  {
    if calls == [] then Ok(s)
    else
      var next :- Oracle.Execute(s, now, calls[0].sender, calls[0].msg);
      ApplyCalls(next, now, calls[1..])
  }

  /** The oracle's storage after the first `k` transactions. */
  function StateAt(h: History, k: nat): Oracle.Store
    requires k <= |h.txs|
  {
    if k == 0 then h.genesis else h.txs[k - 1].after
  }

  /** The attribute group that an accepted oracle call leaves in the events. */
  function Emitted(contract: string, msg: Oracle.Msg): Group {
    [Attribute(ADDRESS_KEY, contract)] +
    match msg
    case UpdateRate(newRate) => [Attribute(ACTION_KEY, UPDATE_ACTION), Attribute(RATE_KEY, Decimal(newRate))]
    case SetOracleOperator(address) => [Attribute(ACTION_KEY, "set_oracle_operator"),
                                        Attribute("address", address.text)]
    case SetPaused(paused) => [Attribute(ACTION_KEY, "set_paused"),
                               Attribute("paused", if paused then "true" else "false")]
    case ProposeGovernance(_) => [Attribute(ACTION_KEY, "propose_governance")]
    case AcceptGovernance => [Attribute(ACTION_KEY, "accept_governance")]
  }

  /** The events of a successful transaction hold the group of each of its oracle calls, and
      no update of this contract that is not one of them. */
  ghost predicate RecordsItsCalls(contract: string, tx: Tx) {
    tx.code == 0 ==>
      && (forall c <- tx.calls :: Emitted(contract, c.msg) in Groups(tx.events))
      && (forall g <- Groups(tx.events) :: IsOurUpdate(contract, g) ==>
            exists c <- tx.calls :: g == Emitted(contract, c.msg))
  }

  /** Block time is positive, failed transactions revert, the oracle's storage changes only
      through its own calls, and events are recorded faithfully. */
  ghost predicate Valid(h: History, contract: string) {
    && (forall k :: 0 <= k < |h.txs| ==> h.txs[k].time > 0)
    && (forall k :: 0 <= k < |h.txs| ==>
          if h.txs[k].code == 0 then ApplyCalls(StateAt(h, k), h.txs[k].time, h.txs[k].calls) == Ok(h.txs[k].after)
          else h.txs[k].after == StateAt(h, k))
    && (forall k :: 0 <= k < |h.txs| ==> RecordsItsCalls(contract, h.txs[k]))
  }

  predicate HasUpdateTo(calls: seq<OracleCall>, rate: Uint128) {
    exists c <- calls :: c.msg == Oracle.UpdateRate(rate)
  }

  /** An accepted update was accepted at a positive time strictly after the previous one. */
  lemma UpdateAdvances(s: Oracle.Store, now: nat, sender: Addr, rate: Uint128)
    requires now > 0 && Oracle.ApplyUpdate(s, now, sender, rate).Ok?
    ensures var s' := Oracle.ApplyUpdate(s, now, sender, rate).value;
      s'.st.rate == rate && s'.st.lastUpdateSec == now > s.st.lastUpdateSec
  {
  }

  /** After an update, the throttle keeps the rest of the transaction from updating again. */
  lemma {:induction false} NoSecondUpdate(s: Oracle.Store, now: nat, calls: seq<OracleCall>)
    requires 0 < now == s.st.lastUpdateSec && ApplyCalls(s, now, calls).Ok?
    ensures ApplyCalls(s, now, calls).value.st == s.st
    ensures forall c <- calls :: !c.msg.UpdateRate?
    decreases calls
  {
    if calls != [] {
      var next := Oracle.Execute(s, now, calls[0].sender, calls[0].msg).value;
      if calls[0].msg.UpdateRate? {
        UpdateAdvances(s, now, calls[0].sender, calls[0].msg.newRate);
        assert false;
      } else {
        NoSecondUpdate(next, now, calls[1..]);
      }
    }
  }

  /** A transaction either leaves the rate state alone and contains no update, or contains
      updates to exactly the rate it leaves behind, made at its block time. */
  lemma {:induction false} CallsEffect(s: Oracle.Store, now: nat, calls: seq<OracleCall>)
    requires now > 0 && ApplyCalls(s, now, calls).Ok?
    ensures var st' := ApplyCalls(s, now, calls).value.st;
      if exists c <- calls :: c.msg.UpdateRate?
      then st'.lastUpdateSec == now > s.st.lastUpdateSec && HasUpdateTo(calls, st'.rate)
           && forall c <- calls :: c.msg.UpdateRate? ==> c.msg.newRate == st'.rate
      else st' == s.st
    decreases calls
  {
    if calls != [] {
      var next := Oracle.Execute(s, now, calls[0].sender, calls[0].msg).value;
      var rest := calls[1..];
      assert calls == [calls[0]] + rest;
      if calls[0].msg.UpdateRate? {
        UpdateAdvances(s, now, calls[0].sender, calls[0].msg.newRate);
        NoSecondUpdate(next, now, rest);
        assert calls[0] in calls;
      } else {
        CallsEffect(next, now, rest);
        assert forall c :: c in calls && c.msg.UpdateRate? <==> c in rest && c.msg.UpdateRate?;
      }
    }
  }

  lemma TxEffect(h: History, contract: string, k: nat)
    requires Valid(h, contract) && k < |h.txs|
    ensures var tx := h.txs[k];
      var st, st' := StateAt(h, k).st, StateAt(h, k + 1).st;
      if tx.code == 0 && exists c <- tx.calls :: c.msg.UpdateRate?
      then st'.lastUpdateSec == tx.time > st.lastUpdateSec && HasUpdateTo(tx.calls, st'.rate)
           && forall c <- tx.calls :: c.msg.UpdateRate? ==> c.msg.newRate == st'.rate
      else st' == st
  {
    if h.txs[k].code == 0 {
      CallsEffect(StateAt(h, k), h.txs[k].time, h.txs[k].calls);
    }
  }

  lemma {:induction false} LastUpdateMonotone(h: History, contract: string, i: nat, j: nat)
    requires Valid(h, contract) && i <= j <= |h.txs|
    ensures StateAt(h, i).st.lastUpdateSec <= StateAt(h, j).st.lastUpdateSec
    decreases j - i
  {
    if i < j {
      TxEffect(h, contract, j - 1);
      LastUpdateMonotone(h, contract, i, j - 1);
    }
  }

  /** Transaction `k` is an accepted update to `rate`, later than `after`. */
  ghost predicate IsUpdate(h: History, k: nat, rate: Uint128, after: nat) {
    && k < |h.txs|
    && h.txs[k].code == 0
    && HasUpdateTo(h.txs[k].calls, rate)
    && h.txs[k].after.st.rate == rate
    && h.txs[k].after.st.lastUpdateSec == h.txs[k].time > after
  }

  lemma ChangeIsUpdate(h: History, contract: string, k: nat, after: nat)
    requires Valid(h, contract) && k < |h.txs|
    requires StateAt(h, k + 1).st != StateAt(h, k).st && after <= StateAt(h, k).st.lastUpdateSec
    ensures IsUpdate(h, k, StateAt(h, k + 1).st.rate, after)
  {
    TxEffect(h, contract, k);
  }

  /** Two snapshots with different update times have, between them, the update that the
      later one shows. */
  lemma {:induction false} UpdateBetween(h: History, contract: string, i: nat, j: nat) returns (k: nat)
    requires Valid(h, contract) && i < j <= |h.txs|
    requires StateAt(h, i).st.lastUpdateSec < StateAt(h, j).st.lastUpdateSec
    ensures i <= k < j && IsUpdate(h, k, StateAt(h, j).st.rate, StateAt(h, i).st.lastUpdateSec)
    decreases j
  {
    if StateAt(h, j).st == StateAt(h, j - 1).st {
      k := UpdateBetween(h, contract, i, j - 1);
    } else {
      LastUpdateMonotone(h, contract, i, j - 1);
      ChangeIsUpdate(h, contract, j - 1, StateAt(h, i).st.lastUpdateSec);
      k := j - 1;
    }
  }

  lemma UpdateShows(h: History, k: nat, rate: Uint128, after: nat)
    requires IsUpdate(h, k, rate, after)
    ensures StateAt(h, k + 1).st.rate == rate && StateAt(h, k + 1).st.lastUpdateSec > after
  {
  }

  predicate HasNoUpdate(tx: Tx) {
    tx.code != 0 || forall c <- tx.calls :: !c.msg.UpdateRate?
  }

  lemma NoUpdateKeepsState(h: History, contract: string, k: nat)
    requires Valid(h, contract) && k < |h.txs| && HasNoUpdate(h.txs[k])
    ensures StateAt(h, k + 1).st == StateAt(h, k).st
  {
    TxEffect(h, contract, k);
  }

  lemma {:induction false} SameState(h: History, i: nat, j: nat)
    requires i <= j <= |h.txs|
    requires forall k: nat :: i <= k < j ==> StateAt(h, k + 1).st == StateAt(h, k).st
    ensures StateAt(h, j).st == StateAt(h, i).st
    decreases j
  {
    if i < j {
      SameState(h, i, j - 1);
      assert StateAt(h, j - 1 + 1).st == StateAt(h, j - 1).st;
    }
  }

  /** Without an update in between, two heights have the same rate state. */
  lemma NoUpdateBetween(h: History, contract: string, i: nat, j: nat)
    requires Valid(h, contract) && i <= j <= |h.txs|
    requires forall k :: i <= k < j ==> HasNoUpdate(h.txs[k])
    ensures StateAt(h, j).st == StateAt(h, i).st
  {
    forall k: nat | i <= k < j
      ensures StateAt(h, k + 1).st == StateAt(h, k).st
    {
      NoUpdateKeepsState(h, contract, k);
    }
    SameState(h, i, j);
  }

  // ---------------------------------------------------------------- recorded events

  /** The scan's view of the group of one call. */
  lemma EmittedGroup(contract: string, msg: Oracle.Msg)
    ensures var g := Emitted(contract, msg);
      && IsOurs(contract, g)
      && (IsOurUpdate(contract, g) <==> msg.UpdateRate?)
      && (msg.UpdateRate? ==> ValuesOf(g, RATE_KEY) == [Decimal(msg.newRate)])
  {
    var g := Emitted(contract, msg);
    assert |UPDATE_ACTION| == 11 && |"set_oracle_operator"| == 19 && |"set_paused"| == 10;
    assert |"propose_governance"| == 18 && |"accept_governance"| == 17;
    assert |ADDRESS_KEY| == 17 && |ACTION_KEY| == 6 && |RATE_KEY| == 4 && |"address"| == 7;
    assert ValuesOf(g, ACTION_KEY) == [g[1].value] by {
      ShortGroup(g, ACTION_KEY);
    }
    ShortGroup(g, RATE_KEY);
  }

  /** The group of an update proves the rate it was made to, and no other. */
  lemma EmittedProves(contract: string, msg: Oracle.Msg, rate: Uint128)
    ensures ProvesUpdate(contract, rate, Emitted(contract, msg)) <==> msg == Oracle.UpdateRate(rate)
  {
    EmittedGroup(contract, msg);
    if msg.UpdateRate? {
      DecimalRoundTrip(msg.newRate);
      assert Decimal(msg.newRate) in ValuesOf(Emitted(contract, msg), RATE_KEY);
    }
  }

  /** The event check is exact: on the recorded events of a successful transaction that
      calls the oracle it says `Matched` if and only if the transaction made an accepted
      update to the proposed rate. */
  lemma EventCheckIsExact(contract: string, tx: Tx, rate: Uint128)
    requires tx.code == 0 && RecordsItsCalls(contract, tx)
    ensures Outcome(contract, rate, Groups(tx.events)) == Ok(Matched) <==> HasUpdateTo(tx.calls, rate)
  {
    if c :| c in tx.calls && c.msg == Oracle.UpdateRate(rate) {
      EmittedProves(contract, c.msg, rate);
      assert Emitted(contract, c.msg) in Groups(tx.events);
    }
    if g :| g in Groups(tx.events) && ProvesUpdate(contract, rate, g) {
      var c :| c in tx.calls && g == Emitted(contract, c.msg);
      EmittedProves(contract, c.msg, rate);
    }
  }
}
