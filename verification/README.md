# UST1 window: a verified model

A Dafny model of the vFDUSD/UST1 swap protocol on Terra Classic and of the
operator service that feeds its rate oracle, with proofs about whole runs.
`dafny verify dfyconfig.toml` checks all of it.

## What is modelled

- **The chain as one state machine** (`System.dfy`). The swap window, the rate
  oracle, the UST1 and vFDUSD ledgers and the treasury, with these steps: a cw20
  `Send` into the window (deposit or withdrawal), transfers, holder burns, vFDUSD
  bridged in and out, oracle calls, governance changes and the passing of time. A
  failed step reverts.
- **The contracts** as classes whose entry points load, change and save their
  storage (`Window.dfy`, `Oracle.dfy`, `NativeWrap.dfy`, and the rolling counter in
  `Limiter.dfy`). Each method, the governance setters included, is proved equal to a
  specification function, with the source's order of checks and errors; the theorems
  are about those functions.
- **Swap arithmetic and the oracle policy** (`SwapMath.dfy`, `OraclePolicy.dfy`)
  on bounded 128-bit amounts, overflow included.
- **The native wrap on chain** (`WrapSystem.dfy`, `WrapLimits.dfy`): native balances,
  wrapped ledgers, fees withheld, donations, and what its limits guarantee.
- **When transactions go through** (`Progress.dfy`, `Refusals.dfy`): in reachable states
  the exact condition for a deposit, withdrawal, wrap or unwrap to succeed, and for every
  input the exact error when it does not.
- **Who may do what** (`Authority.dfy`): the powers over the oracle in every run.
- **The operator service** (`Consensus.dfy`, `TxPolling.dfy`, `Confirm.dfy`,
  `Service.dfy`): rate consensus, tick decision, broadcast, inclusion polling, event
  grouping and matching, the State fallback, the liveness record and its alert, against
  a chain history (`ChainHistory.dfy`) of which the LCD may serve any earlier snapshot.
- **Timing of the service loop** (`Freshness.dfy`): how old the rate can get.

`Units.dfy` holds the integer widths, constants and result types; `Token.dfy` the
ledger effects and sums of balances.

## Assumptions

They are explicit preconditions of the theorems that need them.

- Block time is positive and does not go back.
- Window, treasury and the two token contracts are distinct addresses; neither the
  window nor the treasury signs token transactions, so the window is the only minter
  of the counted UST1 and the only puller of the counted vFDUSD.
- A call of a contract's hook may come from any address; the balances of tokens other than
  the configured ones are not followed.
- A failed transaction reverts as a whole. The field `accepted` of a transaction is
  false when a contract outside the model refuses a message: the treasury refusing a
  pull, or a token or the bank refusing a zero amount.
- The LCD's answers are arbitrary, except that State answers are snapshots of the
  chain at some height, the first of them from before the broadcast, and that an
  answer about a transaction reports the code and events the chain recorded, possibly
  stripped. A broadcast hash is new.
- The service's local clock may be behind block time, never ahead of it.
- For the age bounds, the clock is at most `lag` behind, the poll sleep lasts between
  `pollMin` and `pollMax`, and State answers are less than four hours old. A tick that
  fails, or does not learn what became of its submission, counts as missed; what it
  submitted may still land, at most `late` after the tick. What the other ticks submit
  is included inside the tick.

## Where the code and its documentation differ

- INV-SWAP-001 documents one floor for a deposit
  (`smartcontracts-terraclassic/packages/ust1-common/src/math.rs:5`); the code floors
  twice. `SwapMath.DepositVersusIdeal` says exactly when the two agree; otherwise the
  code is one atom lower.
- The rolling 24-hour limit is a fixed window that reopens with the first swap after
  24 hours. A sliding 24-hour interval can therefore hold up to 2L - 1, which is
  proved to be both an upper bound and reached.
- An overflow of the daily cap product is reported as `DailyCapExceeded`
  (`smartcontracts-terraclassic/packages/ust1-common/src/oracle_policy.rs:72-73`).
  Acceptance over time and the heartbeat therefore hold exactly when that product fits
  128 bits; a reachable state in which it does not is exhibited.
- INV-ORACLE-OPS-POLL-001 wants one missed tick to leave the oracle within its maximum
  age (`skills/oracle-ops-poll-silence/SKILL.md:24`, `oracle-service/src/config.rs:34-38`). With the defaults this holds exactly when
  the service's clock does not lag behind block time and no submission lands after its
  tick; one second of either is enough to break it (`Freshness.DefaultsTolerateIff`,
  `Freshness.StragglingIsStale`). Without a missed tick the defaults tolerate up to an
  hour of clock lag.

## Model

| member | source | states |
|---|---|---|
| `System.SolventForever` | contracts/ust1-window/src/contract.rs:238-355 | In every reachable state the treasury's vFDUSD at the current rate covers the UST1 supply plus every `fee_amount` ever emitted, across any interleaving of swaps, rate updates, governance changes, transfers, burns, bridge mints and reverted transactions |
| `System.StepKeepsInv` | contracts/ust1-window/src/contract.rs:193-213 | One transaction, successful or reverted, keeps solvency, conservation of both ledgers and the wiring of the deployment |
| `System.NeverInsufficient` | contracts/ust1-window/src/contract.rs:327-330 | `InsufficientVfdusd` is unreachable: no withdrawal in any run is refused for lack of treasury funds |
| `System.AlwaysRedeemable` | contracts/ust1-window/src/contract.rs:313-330 | Any list of redemptions of at most the supply, in any order and split, at the current or later rates and any fees, pays out no more than the treasury holds; one that the arithmetic refuses pays nothing |
| `System.NoValueExtraction` | contracts/ust1-window/src/contract.rs:238-355 | From any reachable state, a group of accounts without UST1 that receives value only through swaps ends with `w <= x` vFDUSD and UST1 worth at most the `x - w` it gave up, whatever other users, the oracle and governance do |
| `System.SlidingDay` | contracts/ust1-window/src/contract.rs:111-131 | Over any run under a rolling limit of at most L, the swaps of every half-open 24h interval total at most 2L - 1, their vFDUSD payouts satisfy `total_out * R0 <= 2 * L * RATE_SCALE` when the swaps of that interval are at rates of at least R0, and the stored volume is the sum since the stored window start |
| `System.SendHasEffect` | contracts/ust1-window/src/contract.rs:215-236 | Every successful `Send` to the window is exactly one deposit (tokens to the treasury, net amount minted to the sender) or one withdrawal (gross amount burned, payout pulled from the treasury to the sender), backed at the current rate |
| `System.OnlyGovernanceConfigures` | contracts/ust1-window/src/contract.rs:193-213 | In the run model the window's settings change only by governance's own transaction, the oracle only by a call to it, and the swap history only by a `Send` |
| `System.PauseStopsSwaps` | contracts/ust1-window/src/contract.rs:93-109 | Over any run, a pause of the window stops every swap until a transaction lifts it, and a pause of the oracle stops every swap and every change of the rate state |
| `System.ReceiveErrors` | contracts/ust1-window/src/contract.rs:335-354 | A failure after the window has accepted comes from another contract or a ledger, never from the window itself |
| `Progress.RedemptionGoesThrough` | contracts/ust1-window/src/contract.rs:296-355 | In every reachable state a withdrawal succeeds if and only if the other contracts cooperate, the holder owns the amount, the window is not paused, the oracle is usable, the fee fits 128 bits, the after-fee amount is worth max(1, minimum) atoms, and the limits have room; treasury balance and payout overflow never decide |
| `Progress.DepositGoesThrough` | contracts/ust1-window/src/contract.rs:238-294 | The same exact condition for a deposit, with the overflow of the UST1 supply as the only ledger obstacle |
| `Window.ReceiveIsASwap` | contracts/ust1-window/src/contract.rs:215-236 | For every store, oracle answer, balance and hook, an accepted receive is a deposit from the vFDUSD token with the deposit hook or a withdrawal from the UST1 token with the withdraw hook; every other caller is refused |
| `Refusals.ReceiveRefuses` | contracts/ust1-window/src/contract.rs:215-355 | For every input the exact error of the hook: the first failing condition, on exact integers and in the source's order, and success when none fails |
| `Refusals.DepositRefuses` | contracts/ust1-window/src/contract.rs:238-294 | The same for the deposit handler |
| `Refusals.WithdrawRefuses` | contracts/ust1-window/src/contract.rs:296-355 | The same for the withdraw handler, with the payout compared without rounding |
| `Window.ConfigureIff` | contracts/ust1-window/src/contract.rs:357-425 | Only governance changes a setting, one at a time and to a valid value, with the exact error otherwise; nothing else of the storage changes |
| `Window.InstantiateIff` | contracts/ust1-window/src/contract.rs:149-191 | Exactly which fees and ages the contract can be deployed with; it starts unpaused with an empty counter |
| `Window.DepositOutcome` | contracts/ust1-window/src/contract.rs:253-293 | An accepted deposit: net plus fee is the floored worth of the vFDUSD, the fee is `fee_amount_ust1` of that worth, mint and forward go to the right parties in that order, the net amount is charged to the limits |
| `Window.WithdrawOutcome` | contracts/ust1-window/src/contract.rs:313-354 | An accepted withdrawal: the payout is the floored worth of the amount less the fee, at least the requested minimum and at most the treasury balance, the burn precedes the pull, the gross amount is charged to the limits |
| `Window.Contract.ReceiveCw20` | contracts/ust1-window/src/contract.rs:215-236 | The storage-changing entry point does what the specification function says, and stores nothing on any error |
| `Window.Contract.DepositVfdusd` | contracts/ust1-window/src/contract.rs:238-294 | Same for the deposit handler, error by error in the source's order |
| `Window.Contract.WithdrawUst1` | contracts/ust1-window/src/contract.rs:296-355 | Same for the withdraw handler, error by error in the source's order |
| `Limiter.Counter.EnsureLimits` | contracts/ust1-window/src/contract.rs:111-131 | The in-place counter check equals the specification function, and on a refusal has at most reopened the in-memory window |
| `Refusals.LimitsRefuse` | contracts/ust1-window/src/contract.rs:111-131 | Which limit refuses an amount, in order: single amount, 128-bit sum, rolling sum; a counter older than 24 hours counts for nothing |
| `Limiter.RunRefines` | contracts/ust1-window/src/contract.rs:111-131 | The stored volume always equals the sum of the amounts accepted since the stored window start; refused requests change nothing |
| `Limiter.SlidingDayBound` | contracts/cmm-native-wrap/src/limits.rs:8-28 | Every half-open 24h interval of any trace of requests under limits of at most L holds at most 2L, and at most 2L - 1 when amounts are positive |
| `Limiter.SlidingDayBoundIsTight` | contracts/ust1-window/src/contract.rs:122-125 | For every L >= 2 a trace reaches 2L - 1 in one sliding day: the rolling limit alone does not bound 24 hours by L |
| `SwapMath.ApplyFeeBounds` | smartcontracts-terraclassic/packages/ust1-common/src/math.rs:20-26 | The fee step keeps the exact floor of the after-fee amount and never more than the amount |
| `SwapMath.FeeIsCeiling` | smartcontracts-terraclassic/packages/ust1-common/src/math.rs:35-38 | The withheld fee is `ceil(gross * fee / 10000)`, defined exactly when the fee is at most 100% and the product fits 128 bits |
| `Refusals.FeeRefuses` | smartcontracts-terraclassic/packages/ust1-common/src/math.rs:20-26 | The fee step fails exactly for a fee above 100% or a product above 128 bits, and otherwise takes the fee rounded up |
| `SwapMath.DepositIsBacked` | smartcontracts-terraclassic/packages/ust1-common/src/math.rs:50-57 | A deposit's output plus its fee is the floor of the deposited worth |
| `SwapMath.WithdrawIsBacked` | smartcontracts-terraclassic/packages/ust1-common/src/math.rs:65-86 | A withdrawal's payout is the floor of the after-fee worth; a zero rate never succeeds |
| `SwapMath.DepositVersusIdeal` | smartcontracts-terraclassic/packages/ust1-common/src/math.rs:5-5 | The code's two floors are at most one atom below the documented single floor, and equal it exactly when the two discarded remainders together stay below one atom |
| `SwapMath.DepositBelowIdealWitness` | smartcontracts-terraclassic/packages/ust1-common/src/math.rs:5-5 | One atom at rate 1.5 and 1 bp: the documented formula gives 1, the code 0 |
| `SwapMath.RoundTripBounds` | smartcontracts-terraclassic/packages/ust1-common/src/math.rs:50-86 | For rates of at least par, deposit then withdraw at one rate and fee returns v with `v*B^2 <= x*(B-f)^2 < (v+4)*B^2` |
| `SwapMath.RoundTripFreeLosesOne` | smartcontracts-terraclassic/packages/ust1-common/src/math.rs:50-86 | With no fee the round trip returns x or x - 1 |
| `SwapMath.SplittingNeverGains` | smartcontracts-terraclassic/packages/ust1-common/src/math.rs:50-57 | Depositing in n pieces credits at most the joint deposit and at least that less 2(n-1) atoms |
| `SwapMath.DepositJoin` | smartcontracts-terraclassic/packages/ust1-common/src/math.rs:50-57 | Two deposits against their sum: never a gain from splitting, at most two atoms lost, and the parts succeed when the whole does |
| `OraclePolicy.AcceptedIff` | smartcontracts-terraclassic/packages/ust1-common/src/oracle_policy.rs:43-79 | Acceptance is one exact integer condition: nonzero, not decreasing, four hours apart, and within 2% of the baseline in force with a cap product that fits; the first update skips throttle and cap |
| `OraclePolicy.RefusalIs` | smartcontracts-terraclassic/packages/ust1-common/src/oracle_policy.rs:43-79 | Exactly which refusal it is, in the order zero rate, throttle, decrease, cap, and the day and baseline that an acceptance stores |
| `Authority.AcceptedFrom` | contracts/ust1-oracle/src/contract.rs:48-174 | Updates are accepted only from the operator while not paused, settings only from governance, the hand-over only from the proposed address; each changes its own part of the storage |
| `Authority.StrangersChangeNothing` | contracts/ust1-oracle/src/contract.rs:63-75 | A call by anyone but operator, governance and proposed governance is refused and leaves the whole store unchanged |
| `Authority.RunPowers` | contracts/ust1-oracle/src/contract.rs:113-174 | In every run governance, operator, pause and pending proposal follow from who sent what: the initial ones or those last set by the governance in force |
| `Authority.UpdatesAreByTheOperator` | contracts/ust1-oracle/src/contract.rs:69-75 | Over any run every accepted update was sent, while not paused, by the operator in force: the initial one or the one last set by governance |
| `Authority.InstantiateIff` | contracts/ust1-oracle/src/contract.rs:13-46 | A nonzero rate is stored as rate and baseline of the deployment day, never updated and unpaused; a zero rate is refused |
| `Oracle.Contract.ExecuteUpdateRate` | contracts/ust1-oracle/src/contract.rs:63-100 | The field-by-field update equals the specification function; pause is checked before the sender; errors store nothing |
| `Oracle.RunIsConsistent` | contracts/ust1-oracle/src/contract.rs:63-100 | In every reachable state the stored fields are those of the last accepted update, and 0 < baseline <= rate <= 1.02 * baseline |
| `Oracle.BaselineIsDayStart` | smartcontracts-terraclassic/packages/ust1-common/src/oracle_policy.rs:18-30 | In every reachable state the daily cap is measured from exactly the rate in force when the UTC day of the last update began, the first update of all counting from its own rate |
| `Oracle.UpdatesAreSpaced` | smartcontracts-terraclassic/packages/ust1-common/src/oracle_policy.rs:54-60 | Accepted updates of any run are at least four hours apart |
| `Oracle.ThrottleBoundsCount` | smartcontracts-terraclassic/packages/ust1-common/src/oracle_policy.rs:54-60 | At most floor(W/14400) + 1 accepted updates fall in a closed span of W seconds, and at most six on a UTC day |
| `Oracle.MultiDayGrowth` | smartcontracts-terraclassic/packages/ust1-common/src/oracle_policy.rs:18-30 | `rate * 10000^n <= r0 * 10200^n` with n = days since the first update plus one, and baseline <= rate, in every reachable state |
| `Oracle.AcceptanceIsMonotone` | smartcontracts-terraclassic/packages/ust1-common/src/oracle_policy.rs:43-79 | An update acceptable at time n stays acceptable at every later time, across day rolls, if and only if the oracle was never updated or the rate's cap product fits 128 bits |
| `Oracle.HeartbeatIsAdmitted` | smartcontracts-terraclassic/packages/ust1-common/src/oracle_policy.rs:54-78 | A same-rate refresh four hours after the last update is admitted if and only if the cap product of the baseline in force fits 128 bits, and strictly advances the update time; the 2% cap itself never blocks it |
| `Oracle.HeartbeatOverflowWitness` | smartcontracts-terraclassic/packages/ust1-common/src/math.rs:89-94 | A reachable state in which the overflow, reported as `DailyCapExceeded`, blocks even a refresh on the next day |
| `Service.PreCheckIsTheContract` | oracle-service/src/main.rs:49-74 | At one time and state the service decides to submit exactly what the contract would accept from the operator, with the same day and baseline |
| `Service.TickActionMeaning` | oracle-service/src/main.rs:36-74 | Exactly when each action is taken: pause first, an unchanged rate inside the throttle skipped quietly, a submission exactly when the policy's integer condition holds, marked as heartbeat exactly when the rate is unchanged |
| `Service.SubmitStaysAcceptable` | oracle-service/src/main.rs:49-74 | What the service submits from a reachable state is accepted at every block time at or after its local time, under the same exact condition |
| `Service.EventPathIsSound` | oracle-service/src/main.rs:333-346 | An included transaction with this tick's hash, code 0 and matching events is an accepted update to the proposal, later than the prior snapshot's |
| `Service.StatePathIsSound` | oracle-service/src/confirm.rs:54-74 | A snapshot of any age that passes the State check proves an accepted update to the proposal after the prior snapshot |
| `Service.ConfirmStateWithRetry` | oracle-service/src/main.rs:410-459 | Succeeds if and only if one of the three State answers shows the update; otherwise reports the last failure |
| `Service.StatePathIsComplete` | oracle-service/src/confirm.rs:54-74 | A snapshot at or after the update, before any later one, passes the State check |
| `Service.SubmitAndConfirm` | oracle-service/src/main.rs:309-363 | Succeeds if and only if the broadcast went through, the poll's last answer is its transaction with code 0, and the events match or are absent with a confirming State; then the chain history holds the update; otherwise reports the step that failed |
| `Service.RunOnce` | oracle-service/src/main.rs:220-302 | The liveness record changes if and only if the tick confirms an update, and then the chain holds an accepted update to this tick's consensus rate with a later time than the prior snapshot, for every LCD that serves arbitrary earlier snapshots; skips, failed reads, failed inclusion and mismatches never record, and each is reported as what it was |
| `Service.TakeTurn` | oracle-service/src/main.rs:145-185 | The alert is decided on the silence so far; a turn that is not cut off runs its tick and has a report, confirmed if and only if the policy submits and the submission is confirmed, skipped if and only if the policy skips; the record is the end of a confirmed turn |
| `Service.OperatorLoop` | oracle-service/src/main.rs:134-188 | Over any number of turns from a fresh tracker every turn reports as above, the alert of each turn is raised exactly when the last confirmation, or the start, is more than the threshold ago, and the record is the end of the last confirmed turn |
| `Service.AlertMeansSilence` | oracle-service/src/liveness.rs:42-51 | On a clock that does not go back no alert falls within the threshold after a confirmed update |
| `Service.QuietMeansUpdated` | oracle-service/src/liveness.rs:42-51 | A check that raises no alert, once the process is up for longer than the threshold, means that the chain holds an update confirmed within the threshold |
| `ChainHistory.EventCheckIsExact` | contracts/ust1-oracle/src/contract.rs:97-99 | On the events that a successful transaction records, `Matched` means exactly that it made an accepted update to the proposed rate |
| `ChainHistory.CallsEffect` | contracts/ust1-oracle/src/contract.rs:63-100 | A transaction of several oracle calls either leaves the rate state alone or contains exactly updates to the rate it leaves behind, at its block time |
| `ChainHistory.UpdateBetween` | contracts/ust1-oracle/src/contract.rs:192-204 | Two snapshots with different update times have between them the update that the later one shows |
| `Confirm.WasmAttrGroups` | oracle-service/src/confirm.rs:175-197 | The in-place grouping loop computes the specified groups |
| `Confirm.GroupsFlatten` | oracle-service/src/confirm.rs:175-197 | The groups put end to end are the wasm attributes, each event's prefix before its first `_contract_address` dropped; each group has exactly one such key, at its head |
| `Confirm.GroupingIsUnique` | oracle-service/src/confirm.rs:175-197 | No other list of such groups has the same attributes end to end |
| `Confirm.JudgeRates` | oracle-service/src/confirm.rs:126-151 | A group's rates count as the proposal, another rate or unreadable exactly by what all of them parse to |
| `Confirm.EqIgnoreCaseIff` | oracle-service/src/confirm.rs:104-106 | Two strings are equal exactly when they have one length and each position holds the same character or the two cases of one ASCII letter; strings without capitals only when identical |
| `Confirm.ParseRateIff` | oracle-service/src/confirm.rs:125-136 | A rate attribute reads as n exactly when it spells n: white space around it, at most one plus sign, leading zeros, the decimal digits of n |
| `Confirm.OracleTxEventsMatchUpdate` | oracle-service/src/confirm.rs:81-172 | The flag-driven scan returns the outcome determined by which kinds of groups occur, with the source's precedence of errors |
| `Confirm.MatchedIff` | oracle-service/src/confirm.rs:81-172 | `Matched` if and only if some group is headed by this contract's address up to ASCII case, has the `update_rate` action and a nonempty set of rates that all spell the proposal; among addresses without capitals, by exactly this contract's |
| `Confirm.MismatchIff` | oracle-service/src/confirm.rs:147-158 | Wrong contract, missing action and absent events in the same terms, as if-and-only-ifs |
| `Confirm.RateMismatchIff` | oracle-service/src/confirm.rs:159-164 | A rate mismatch if and only if nothing matches and some update group of this contract spells one other number |
| `Confirm.UpdateEventOutcome` | oracle-service/src/confirm.rs:81-172 | The answer to a single recorded update event, for every type, address and rate |
| `Confirm.OutcomeIgnoresOrder` | oracle-service/src/confirm.rs:93-151 | The outcome does not change when groups are reordered or repeated |
| `Confirm.OutcomeIgnoresOthers` | oracle-service/src/confirm.rs:78-80 | When this contract appears, other contracts' groups never change the outcome |
| `Confirm.DecimalRoundTrip` | oracle-service/src/confirm.rs:133-140 | A rate that the contract writes is read back as itself through trimming and 128-bit parsing |
| `Consensus.RatesAgreeIsExact` | oracle-service/src/evm_rpc.rs:18-30 | The 128-bit tolerance test, overflow and zero branches included, is the exact inequality `10000 * abs(a - b) <= max(a, b)` |
| `Consensus.ConsensusRefinesFirstAgreement` | oracle-service/src/evm_rpc.rs:38-150 | A rate is returned exactly when some pair among the first three providers agrees, and then it is the lower-indexed value of the first such pair in the order (0,1), (0,2), (1,2) |
| `Refusals.ConsensusRefuses` | oracle-service/src/evm_rpc.rs:38-150 | Exactly when the failure is a mismatch: two answers that differ, unless a third provider was there to decide and failed; too few URLs only below two |
| `Consensus.ToleratesOneFault` | oracle-service/src/evm_rpc.rs:38-150 | With one faulty provider an accepted rate is within tolerance of an honest answer, and two agreeing honest providers are enough |
| `TxPolling.WaitForDeliverTx` | oracle-service/src/terra_tx.rs:470-542 | The loop polls on the exact schedule of interval, jitter and deadline; every earlier answer was pending and before the deadline, the last one alone decides; at most floor(timeout/poll) + 2 queries against any answers and delays; Ok only for the expected hash and code 0; no timeout before the deadline |
| `TxPolling.NeverEarly` | oracle-service/src/terra_tx.rs:526-540 | A timeout needs the whole timeout to have been used up by the environment and by rounds of at most the interval and 750 ms |
| `TxPolling.FourSleeps` | oracle-service/src/terra_tx.rs:535-539 | Four sleeps in a row take four intervals and 1.5 s of jitter; no sleep passes the deadline by more than a millisecond |
| `TxPolling.QueryBound` | oracle-service/src/terra_tx.rs:526-540 | Any schedule whose answers but the last came before the deadline has at most floor(timeout/poll) + 2 queries |
| `TxPolling.DecisionIff` | oracle-service/src/terra_tx.rs:482-525 | Which answers decide nothing, and exactly what each other answer means |
| `TxPolling.RetriesOnce` | oracle-service/src/terra_tx.rs:422-441 | The second broadcast decides exactly when the first met a sequence mismatch |
| `TxPolling.FromSecsAndMs` | oracle-service/src/terra_tx.rs:70-77 | Both durations: seconds, and milliseconds of at least one |
| `Freshness.AgeIsBounded` | oracle-service/src/main.rs:145-185 | While the service runs, at most m ticks in a row are missed and the feed stays within the cap, the oracle age stays below 4h + lag + (m+1)(P+T) + T (so 4h + P + 2T without lag and misses), and at most (ceil((4h + lag + late)/P) + m)(P+T) + T; submissions of missed ticks may land late in any order with other ticks, and State answers may be up to four hours old |
| `Freshness.NeverStale` | contracts/ust1-window/src/contract.rs:93-109 | When either bound is within the window's maximum age, the window finds the oracle usable at every moment of the stretch after the first update |
| `Freshness.TickRefreshes` | oracle-service/src/main.rs:49-74 | After a tick that is not missed the last update is less than four hours and the clock lag older than the tick, whatever else lands meanwhile: the tick updated the oracle, or there is a newer update than the one it read, or the throttle held it back |
| `Freshness.DefaultsTolerateIff` | oracle-service/src/config.rs:34-38 | With a one-hour sleep, two-minute ticks and six hours of age the window never refuses the oracle if and only if no tick is missed and the clock lags by at most an hour, or at most one tick in a row is missed, the clock does not lag at all and nothing lands late |
| `Freshness.StragglingIsStale` | oracle-service/src/terra_tx.rs:470-542 | A possible stretch at the defaults that ends stale: with one second of lag, or one second between a timed-out confirmation and its inclusion, a single missed tick suffices; without either, two in a row; without misses, more than an hour of lag |
| `Freshness.UpdateRuns` | contracts/ust1-oracle/src/contract.rs:63-100 | Every accepted update of any run starts such a stretch |
| `NativeWrap.PairsAreOneToOne` | contracts/cmm-native-wrap/src/pairs.rs:6-23 | Validated pairs map denoms and wrapped tokens one to one, and both lookups find each pair |
| `NativeWrap.FindDenom` | contracts/cmm-native-wrap/src/wrap.rs:23-27 | The lookup returns the first pair with the denom, or nothing exactly when there is none |
| `NativeWrap.FindToken` | contracts/cmm-native-wrap/src/unwrap.rs:24-28 | The lookup returns the first pair with the token, or nothing exactly when there is none |
| `NativeWrap.InstantiateIff` | contracts/cmm-native-wrap/src/contract.rs:22-53 | Exactly which configurations can be deployed: one pair for each of the two denoms in either order, different tokens, a fee of at most 100%; it starts unpaused with unused counters |
| `NativeWrap.UnwrapIsOfAPair` | contracts/cmm-native-wrap/src/unwrap.rs:24-28 | For all arguments an accepted unwrap comes from the wrapped token of a pair and burns and pays in that pair's token and denom; a token that no pair holds is refused |
| `NativeWrap.WrapIsOfAPair` | contracts/cmm-native-wrap/src/wrap.rs:16-27 | An accepted wrap carries one coin of a pair's denom and mints that pair's token to the sender; other funds are refused with their own error |
| `NativeWrap.ConfigureIff` | contracts/cmm-native-wrap/src/gov.rs:9-67 | Only governance changes a setting, one at a time, with the exact error otherwise |
| `Refusals.WrapRefuses` | contracts/cmm-native-wrap/src/wrap.rs:11-57 | For every input the exact error of a wrap, in the source's order, and success when no condition fails |
| `Refusals.UnwrapRefuses` | contracts/cmm-native-wrap/src/unwrap.rs:14-78 | The same for an unwrap |
| `NativeWrap.ConfigureKeepsPairs` | contracts/cmm-native-wrap/src/gov.rs:9-29 | No configuration change alters which token belongs to which denom, the governance address or a counter |
| `NativeWrap.Contract.ExecuteWrap` | contracts/cmm-native-wrap/src/wrap.rs:11-57 | The storage-changing wrap equals the specification function, error by error, and stores nothing on error |
| `NativeWrap.Contract.ReceiveCw20` | contracts/cmm-native-wrap/src/unwrap.rs:14-78 | Same for the unwrap |
| `NativeWrap.Contract.CountAgainstLimits` | contracts/cmm-native-wrap/src/limits.rs:8-28 | Only the pair's own counter is loaded, charged and saved, and only when admitted |
| `WrapSystem.ExactConservation` | contracts/cmm-native-wrap/src/unwrap.rs:46-66 | For each denom in every run the native balance is exactly the wrapped supply plus the fees withheld, each rounded up, donations and holder burns |
| `WrapSystem.NeverInsufficientNative` | contracts/cmm-native-wrap/src/unwrap.rs:40-45 | `InsufficientNative` is unreachable |
| `WrapSystem.DenomsAreIsolated` | contracts/cmm-native-wrap/src/wrap.rs:23-40 | In every run a transaction on one denom leaves the other's balance, wrapped ledger and rolling counter as they were |
| `WrapLimits.SlidingDay` | contracts/cmm-native-wrap/src/limits.rs:8-28 | For each denom, over any run under a rolling limit of at most L for it, what is charged in every half-open 24h interval totals at most 2L, and the stored volume is what was charged since the stored window start |
| `WrapSystem.WrapEffect` | contracts/cmm-native-wrap/src/wrap.rs:11-57 | A successful wrap carries exactly one coin, keeps it, and mints the amount less the fee |
| `WrapSystem.UnwrapEffect` | contracts/cmm-native-wrap/src/unwrap.rs:14-78 | A successful unwrap burns the whole amount and releases the amount less the fee |
| `Progress.WrapAcceptedIff` | contracts/cmm-native-wrap/src/wrap.rs:11-57 | A wrap of one coin is accepted exactly under its listed conditions, charges what it mints and mints the coin less the fee rounded up |
| `Progress.UnwrapAcceptedIff` | contracts/cmm-native-wrap/src/unwrap.rs:14-78 | An unwrap is accepted exactly under its listed conditions, charges the gross amount, burns it and pays the sender the rest after the fee |
| `Progress.WrapGoesThrough` | contracts/cmm-native-wrap/src/wrap.rs:11-57 | In every reachable state a wrap succeeds if and only if the token contract cooperates, the contract's conditions hold and the wrapped supply does not overflow |
| `Progress.UnwrapGoesThrough` | contracts/cmm-native-wrap/src/unwrap.rs:14-78 | In every reachable state an unwrap succeeds if and only if the other contracts cooperate, the holder owns the amount and the contract's conditions hold; the native balance never decides |

## Left out

- BSC JSON-RPC, LCD HTTP, signing, gas prices, health endpoint, tracing, signals and mutex poisoning: a read is an arbitrary result.
- JSON wire formats, golden files and base64 decoding of attributes, including the ambiguity of digit-only base64: the model starts from parsed events.
- Internals of the treasury and of the cw20 token: only the effects of mint, burn, transfer and a pull that may be refused.
- Users' native balances, the bank's handling of coins that the wrap contract refuses, and balances of denoms other than `uluna` and `uusd`.
- Configuration parsing, address and URL validation, operational warnings; addresses only differ or agree.
- The governance hand-over of the window and the wrap, the fee split attributes, cw2 versions, the decimals check, and queries other than the oracle's State: each is one branch.
- `venus_exchange_rate_to_oracle_r`: a single division; the model starts from the normalised rate.
- The 64-bit overflow of `window_start + 86400` and of other times: times are unbounded naturals.
- Shutdown of the operator loop, and the State query made after matching events, which only writes a log line.
- The rest of the liveness alert: a log line.
- Freshness.AgeIsBounded: assumes that the oracle is not paused and the operator is not replaced while the service runs, because either stops updates by design.
