# Omniscient: a verified model

This project models the parts of Omniscient that hold and move value, and proves what they promise.

* **Settlement and vault** (`Fees`, `Settlement`, `Exchange`, `SettlementExchange`, `Batches`, `Custody`, `ChainRuns`,
  `Calls`, `ChainLaws`, `Overflow`, `Reasons`). `SettlementExchange.settleBatch` turns signed orders into aggregated
  USDC deltas and share transfers; `Custody` holds the USDC. Each contract is a class whose methods follow the Solidity
  functions, loops and arrays included. A batch is specified independently of those loops: every leg justifies one
  signed posting (`Settlement.Deltas`, `Pulls`, `Pushes`, `Fills`), and a committed batch changes each balance by
  exactly the sum of its postings.
* **Matching engine** (`Matching`, `OrderBook`, `Engine`, `MatcherRuns`, `MatcherCalls`, `Rebuild`, `Restart`). The book
  is two sorted maps from price to FIFO queue, changed in place by nested loops; it refines a greedy walk
  (`Matching.Sweep`) over one flat list per side, best order first.
* **From the matcher to the chain** (`MatchBatches`, `Settleable`, `SettledRuns`). Anything the matcher produces can be
  settled: every match, and, where resting orders record the sum of their fills, the results of every run, each once and
  in any order. As `engine.rs:71` is written, a second match of an order may have to be refused; `SettledRuns` says
  exactly when.
* **Optimistic oracle** (`Oracle`, `OracleRuns`, `OracleCalls`). Markets move through their states with pooled bonds.
* **Supporting theory** (`Chain`, `Ledgers`, `OrderEncoding`): addresses and outcomes of calls; ledgers that default
  to zero and lists of signed postings against them; the bytes an order's hash is taken over.

How the model reads the program:

* A call either commits or reverts. A revert leaves every contract as it was, also when it happens halfway through
  `settleBatch`, after the vault has already applied its deltas. Revert reasons are kept by name, without arguments.
  For every call a `Verdict` names the first check that fails, in the contract's order. What each call asks for and
  does is stated again without those definitions (`Calls`, `OracleCalls`, `MatcherCalls`), and what a reverting call
  gives as its reason is proved to be so (`Reasons`).
* Runs are sequences of states in which any caller may make any call in any order; USDC and share movements that the
  contracts do not make themselves are steps of the environment, and roles may be granted and revoked at any time.
* A signature is malformed or recovers to a wallet; a contract has no key (`Chain.Address`). The order hash is
  injective, so fills are keyed by the order (`OrderEncoding` shows that the hashed bytes determine the order). A
  withdrawal authorization over another message recovers to nobody who holds a role.
* The contracts' checked arithmetic reverts: the signed accumulators of `settleBatch`, of its netting loop and of
  `applyNetDeltas`, the vault's balances, and `fill * price` all have their 256-bit range. `Overflow` gives bounds
  within which no overflow ever stops a batch.
* USDC transfers exactly. Allowances, the acceptance of calls by the conditional-tokens contract, and the time of a
  block are parameters of a call.
* An ordered price map is a sequence of levels in ascending price order. `entry`, `retain` and the like are functions
  on that sequence; the repository's own loops are loops.

## What the code does that its documentation does not say

* **Vault conservation** (`contracts/src/Custody.sol:14-16` claims equality at all times). The vault holds *at least*
  the sum of all balances. It holds exactly that sum if and only if no stray USDC ever reached it: a direct transfer,
  a forced withdrawal whose destination is the vault, or fees withdrawn to the vault (`VaultAlwaysSolvent`).
  `ExitToTheVault` is a one-call run that breaks the equality.
* **Share passthrough** (`contracts/src/SettlementExchange.sol:206`). `side` is a `uint8`. A leg with a side other than
  0 or 1 is paid as a sell and netted as a buy, but never transferred. A committed batch leaves the exchange's share
  balances unchanged if and only if every filled leg has side 0 or 1 (`CommittedBatchPassesThrough`, with the concrete
  committed batch `StrandedShares`).
* **Rebates funded by fees** (`docs/gateway.md`, `docs/fund-safety.md`). `setFeeRates` bounds the two rates separately.
  Every match is settleable if and only if the rebate does not exceed the fee (`SettleableExactlyWhenFeeCoversRebate`).
* **What a resting order records** (`backend/gateway/src/engine.rs:71`). The code stores the amount *less* the fills as
  `filled`. As written, placing an order conserves its quantity if and only if the order fills completely or exactly
  half of it matches (`AsWrittenConservesExactly`). A new order can be filled beyond its amount by the very next order
  if and only if more than half of it, but not all of it, matches (`OverfilledByTheNextExactly`, with the concrete
  `AsWrittenOverfills`). From empty books no run ever trades a unit (`AsWrittenNeverTrades`). The class
  `Engine.Matcher` keeps the line as written. The step relation takes the rule as a parameter: everything about the
  book's shape is proved for both rules, and whole-run conservation for the rule that records the sum of the fills.
* **Markets without an expiry** (`contracts/src/Oracle.sol:70`). A market stored with expiry 0 can be created again
  while it carries a proposal. With another bond, the oracle's surplus changes: `SurplusAccounts` accounts for every
  run, `CreateKeepsSurplus` says exactly when a creation leaves the surplus unchanged, and
  `UndatedMarketBreaksSolvency` builds a three-call run that ends insolvent. With another number of outcome slots, the
  carried proposal is no longer valid (`CreateKeepsProposal`, exactly), and finalization, which does not validate,
  reports it (`UndatedMarketMisreports`). A market that is always created with an expiry is safe, whatever happens to
  the others (`MarketBalances`, `ReportsAlwaysOk`).

## Model

| member | source | states |
|---|---|---|
| Fees.SplittingNeverHelps | contracts/src/SettlementExchange.sol:141-159 | for buy and sell, maker and taker, under the 1000 bps cap: settling an order in any number of pieces pays the user no more, or charges no less, than settling the same shares at once |
| Fees.CollateralOverrun | backend/shared/src/domain.rs:423-429 | the volume charged to a buy order over k fills exceeds its reserved collateral by at most k-1 units |
| Fees.CollateralOverrunIsTight | backend/shared/src/domain.rs:423-429 | that bound is reached, for every k up to the price scale |
| Fees.VolumeRounds | contracts/src/SettlementExchange.sol:141-145 | the volume of a buy is the exact product of quantity and price, in millionths, rounded up to a unit; that of a sell is rounded down |
| Fees.FeeRounds | contracts/src/SettlementExchange.sol:147-150 | a taker fee is the exact share of the volume, in ten-thousandths, rounded up; a maker rebate is rounded down |
| Fees.CollateralIsExact | backend/shared/src/domain.rs:423-429 | a sell reserves exactly the shares its fills can ask for, a buy exactly the volume of its full amount, rounded up |
| Fees.BetterPricePaysNoMore | contracts/src/SettlementExchange.sol:141-159 | price improvement is the pool's: a maker at a price better for the taker is paid no more, or charged no less |
| Fees.FeeCoversRebate | contracts/src/SettlementExchange.sol:141-163 | a taker and a maker at the same price leave the pool no loss, when the rebate is at most the fee |
| Custody.Token.TransferFrom | contracts/src/Custody.sol:209-214 | a token transfer succeeds exactly when it is covered and not to the zero address; it moves the amount and nothing else, also to oneself |
| Custody.Custody.constructor | contracts/src/Custody.sol:43-56 | the vault starts with empty ledgers and a fresh liveness clock |
| Custody.Custody.Deposit | contracts/src/Custody.sol:65-76 | the verdict in check order, an overflow of the balance included; on commit the caller is credited what the vault measurably received and nothing else changes; a revert changes nothing |
| Custody.Custody.Withdraw | contracts/src/Custody.sol:83-101 | an authorization is honoured only over the caller's own amount, current nonce and deadline by a signer with the role; funds reach the caller alone and the nonce advances |
| Custody.Custody.ExecuteForcedWithdrawal | contracts/src/Custody.sol:109-118 | unlocks exactly after more than the threshold of silence, paused or not, and pays the caller's whole balance |
| Custody.Custody.ApplyNetDeltas | contracts/src/Custody.sol:122-162 | the verdict in check order: paused, unauthorized, applied before, overflowing sum, not conserving, then the first posting to fail; on commit every balance moves by the sum of its deltas; on a revert even the batch mark is undone |
| Custody.Custody.PostAll | contracts/src/Custody.sol:143-159 | the sequential loop ends with the first posting that overflows or overdraws, and otherwise its result is the pointwise sum |
| Custody.PostingsCommit | contracts/src/Custody.sol:143-159 | the loop goes through exactly when no posting, in order, leaves 256 bits or overdraws its account |
| Custody.Custody.NetOf | contracts/src/Custody.sol:133-141 | the first loop computes the sum of all deltas, or finds that the running sum leaves the signed 256-bit range |
| Custody.Custody.Heartbeat | contracts/src/Custody.sol:168-170 | refreshes the clock only while unpaused and only for the settlement role |
| Custody.Custody.Pause | contracts/src/Custody.sol:174-176 | only the pauser, only when not paused |
| Custody.Custody.Unpause | contracts/src/Custody.sol:178-180 | only the pauser, only when paused |
| Custody.Custody.SetOperatorInactivityThreshold | contracts/src/Custody.sol:182-193 | only the admin, only between 1 and 90 days |
| Custody.Custody.DebitAndPay | contracts/src/Custody.sol:209-214 | pays exactly when balance and vault cover it, and otherwise leaves the debit undone |
| Ledgers.PayableDistinct | contracts/src/Custody.sol:143-159 | over distinct accounts, "no posting overdraws on the way" is the same as "no account ends below zero" |
| Ledgers.PostedTotal | contracts/src/Custody.sol:133-162 | applying any postings changes the sum of all balances by exactly what was posted, so a zero-sum batch creates and destroys nothing |
| Exchange.OrderIndependent | contracts/src/Custody.sol:143-159 | any reordering of deltas over distinct accounts is affordable alike and posts alike |
| Exchange.ChecksMeanAdmissible | contracts/src/SettlementExchange.sol:124-159 | the order loop goes through exactly when every filled leg is signed by its maker, current and priceable, the whole batch overfills no order, repeats included, and no accumulator overflows |
| Exchange.FirstFailureDecides | contracts/src/SettlementExchange.sol:124-139 | the revert reason of a batch is that of its first failing leg |
| Batches.AdmissibleMeans | contracts/src/SettlementExchange.sol:124-145 | the conditions on the legs, written out: deadline, epoch, signature by the owner's own key, product within 256 bits, signed amount |
| Reasons.VaultReasonsAreTrue | contracts/src/Custody.sol:65-214 | whatever the vault gives as its reason to revert is so: of the caller's role, the amount, the clock, the authorization, the posting at fault |
| Reasons.BatchReasonsAreTrue | contracts/src/SettlementExchange.sol:108-253 | the same for a batch, down to a leg that is expired, outdated, unsigned or overfilling, or a position that does not net to zero |
| Reasons.AdminReasonsAreTrue | contracts/src/SettlementExchange.sol:71-94 | and for setting the rates, pausing and withdrawing fees |
| Exchange.AccrualAggregates | contracts/src/SettlementExchange.sol:177-191 | one accrual keeps the array an exact aggregate: distinct accounts, each the sum of its legs, with the right grand total |
| Exchange.AggregatedPayable | contracts/src/SettlementExchange.sol:119-120 | the aggregated array is payable in order exactly when no account of the batch ends below zero |
| Exchange.VaultTakesExactly | contracts/src/Custody.sol:122-162 | the vault takes a batch exactly when it is up, authorized and fresh for it, nothing overflows and nobody ends overdrawn; it never refuses one for not conserving |
| Exchange.BalancingLeg | contracts/src/SettlementExchange.sol:165-167 | appending the exchange's own leg keeps the accounts distinct, because no signed order belongs to the exchange |
| Settlement.NetsAreFlows | contracts/src/SettlementExchange.sol:209-231 | the netting sums are sells less every other side, for fills below 2^255 |
| Settlement.NetsAreFlowsModulo | contracts/src/SettlementExchange.sol:217 | for fills of any size the same holds up to a multiple of 2^256, the unchecked conversion included |
| Settlement.BalancedNettingFits | contracts/src/SettlementExchange.sol:217-230 | a balanced batch that sells less than 2^255 shares of each position never overflows the netting loop |
| Settlement.PassthroughExactlyWhenTwoSided | contracts/src/SettlementExchange.sol:204-253 | with all nets zero, the exchange's share flow of every position is the quantity on sides other than 0 and 1; it is zero everywhere exactly when there is none |
| Settlement.PassthroughWithWrappedFills | contracts/src/SettlementExchange.sol:217-253 | a two-sided batch is a passthrough even when fills wrap, as long as share balances fit in 256 bits |
| Settlement.NoInventoryNeeded | contracts/src/SettlementExchange.sol:236-252 | after the pulls every push is covered: the transfers go through exactly when every seller holds what its sell legs fill |
| SettlementExchange.ConditionalTokens.SafeTransferFrom | contracts/src/interfaces/IConditionalTokens.sol:53-54 | a share transfer needs ownership or approval and a covering balance, and moves exactly the amount |
| SettlementExchange.SettlementExchange.SettleBatch | contracts/src/SettlementExchange.sol:108-172 | the verdict of the whole batch in check order; on commit every balance, order fill and share holding moves by exactly the legs' postings; on a revert all four contracts are as before |
| SettlementExchange.SettlementExchange.SettleLegs | contracts/src/SettlementExchange.sol:119-171 | the same for the part after the batch is marked |
| SettlementExchange.SettlementExchange.AccrueLegs | contracts/src/SettlementExchange.sol:119-160 | the order loop ends with the first failing leg's reason, an overflowing accumulator included, or with the exact aggregate of the makers' postings in at most n slots, the exact net, and exact fills |
| SettlementExchange.SettlementExchange.AccrueLeg | contracts/src/SettlementExchange.sol:125-159 | one turn: the checks in order, the fill recorded, and the owner's posting accrued with the matching change of the net, unless either overflows |
| SettlementExchange.SettlementExchange.ApplyBatch | contracts/src/SettlementExchange.sol:165-169 | the vault's verdict on the aggregated deltas with the exchange's own leg behind them; on commit balances move by exactly the legs' postings |
| SettlementExchange.SettlementExchange.Accrue | contracts/src/SettlementExchange.sol:177-191 | adds into the account's entry if there is one and otherwise appends one; fails exactly when the sum leaves the signed 256-bit range |
| SettlementExchange.SettlementExchange.Trim | contracts/src/SettlementExchange.sol:193-202 | a fresh array with exactly the first entries |
| SettlementExchange.SettlementExchange.SettleCtf | contracts/src/SettlementExchange.sol:207-253 | rejects exactly the batches whose netting overflows, the unbalanced ones and those whose transfers fail, and otherwise posts exactly the pulls and the pushes |
| SettlementExchange.SettlementExchange.NetPositions | contracts/src/SettlementExchange.sol:209-231 | fails exactly when a leg's quantity or a running sum leaves the signed range; otherwise the parallel arrays hold every position once with its exact signed sum, and any position not listed nets to zero |
| SettlementExchange.SettlementExchange.NetLeg | contracts/src/SettlementExchange.sol:211-230 | one turn of that loop |
| SettlementExchange.SettlementExchange.NetPosition | contracts/src/SettlementExchange.sol:218-230 | adds into the position's net if it is listed and otherwise lists it; fails exactly when the sum leaves the signed range |
| SettlementExchange.SettlementExchange.PullSells | contracts/src/SettlementExchange.sol:236-244 | goes through exactly when every seller approved and holds enough along the way |
| SettlementExchange.SettlementExchange.PushBuys | contracts/src/SettlementExchange.sol:245-252 | goes through exactly when what was pulled covers what is pushed |
| SettlementExchange.SettlementExchange.SetFeeRates | contracts/src/SettlementExchange.sol:83-88 | only the admin, each rate at most 1000 bps |
| SettlementExchange.SettlementExchange.CancelAllOrders | contracts/src/SettlementExchange.sol:97-100 | advances the caller's epoch and nothing else |
| SettlementExchange.SettlementExchange.WithdrawFees | contracts/src/SettlementExchange.sol:90-94 | fees leave the exchange's vault balance and reach the destination through the exchange; if the forwarding fails, the withdrawal is undone too; also stated for an exchange whose token is not the vault's, which the constructor allows |
| Batches.LegsSettleExactly | contracts/src/SettlementExchange.sol:119-171 | past the guards, a batch commits if and only if its legs are admissible, the net is not negative, the vault takes it, nobody ends overdrawn, every position nets to zero, the sellers can deliver and no sum overflows |
| Batches.BatchCommitsExactly | contracts/src/SettlementExchange.sol:108-172 | the same for the whole call: operator, pause, used identifier and array lengths included |
| Batches.CommittedBatchPassesThrough | contracts/src/SettlementExchange.sol:102-107 | after a committed batch the exchange's share balance of every position has grown by the undelivered quantity; it is unchanged everywhere if and only if every filled leg has side 0 or 1 |
| Batches.CommittedTwoSidedPassesThrough | contracts/src/SettlementExchange.sol:204-253 | with fills of any size, a committed two-sided batch leaves the exchange's share balance unchanged, if the balance after the pulls fits in 256 bits |
| Batches.StrandedShares | contracts/src/SettlementExchange.sol:217-251 | a concrete exchange and batch: the call commits, at any rates, and leaves ten shares with the exchange |
| Batches.OnlySignersMove | contracts/src/SettlementExchange.sol:102-107 | no account but the exchange has USDC or shares moved by a committed batch without a filled leg it signed itself |
| Batches.OwnerShareFlow | contracts/src/SettlementExchange.sol:236-252 | a batch moves an owner's shares by what its buy legs fill less what its sell legs fill |
| Batches.OneOrderSettles | contracts/src/SettlementExchange.sol:108-172 | what the owner of one filled order ends up with in a committed batch, to the unit: USDC by exact product, fee and rebate with their rounding, shares by the fill, and the order's filled amount |
| Calls.DepositExactly | contracts/src/Custody.sol:65-76 | a deposit commits exactly under the listed conditions; it moves the amount from the caller to the vault and onto the caller's balance, and changes nothing else |
| Calls.WithdrawExactly | contracts/src/Custody.sol:83-101 | a withdrawal commits exactly when the vault is up, the amount positive, the deadline not passed, the authorization is for this caller, amount, next nonce and deadline by a holder of the signer's role, and it is covered; it pays the caller and uses the nonce up |
| Calls.WithdrawFeesExactly | contracts/src/SettlementExchange.sol:90-94 | the same for fees: an admin, an authorization to the exchange, and a real destination, which receives them |
| Calls.ForeignFeesExactly | contracts/src/SettlementExchange.sol:90-94 | the same where the exchange's token is not the vault's |
| Calls.ForcedWithdrawalExactly | contracts/src/Custody.sol:109-118 | a forced withdrawal commits exactly when it has a real destination, the time is beyond the last activity plus the threshold, and there is a balance, which the vault covers; it pays out all of it |
| Calls.ApplyExactly | contracts/src/Custody.sol:122-162 | deltas are applied exactly when the vault is up, the caller may settle, the batch is fresh, no running sum overflows, they sum to zero, and every posting in turn stays in range and overdraws nobody |
| Calls.HeartbeatExactly | contracts/src/Custody.sol:168-170 | a heartbeat sets the clock and nothing else, exactly when the vault is up and the caller may settle |
| Calls.VaultPauseExactly | contracts/src/Custody.sol:174-180 | the pauser, and nobody else, pauses and unpauses the vault |
| Calls.ThresholdExactly | contracts/src/Custody.sol:182-193 | the admin, and nobody else, sets the threshold, between 1 and 90 days |
| Calls.FeeRatesExactly | contracts/src/SettlementExchange.sol:83-88 | the admin, and nobody else, sets the rates, each at most 1000 bps |
| Calls.CancelAllExactly | contracts/src/SettlementExchange.sol:97-100 | anyone may advance their own epoch, by one, and nobody else's |
| ChainLaws.HatchStaysShut | contracts/src/Custody.sol:109-207 | after a heartbeat or a batch at time T, no forced withdrawal goes through up to T plus the threshold in force when it is tried, whatever happens in between |
| ChainLaws.NoForceWithinADay | contracts/src/Custody.sol:109-207 | nor, whatever the admin does, within a day of T |
| ChainLaws.SettingsInBounds | contracts/src/SettlementExchange.sol:83-88 | in every state of every run each rate is at most 1000 bps and the threshold between 1 and 90 days |
| ChainLaws.NoSignerNoWithdrawal | contracts/src/Custody.sol:83-101 | while nobody holds the signer's role, nothing is withdrawn on authorization, by holders or as fees |
| ChainLaws.NothingWithoutConsent | contracts/src/SettlementExchange.sol:102-107 | a call changes the balance of an account other than the exchange only if that account made the call or signed a leg it fills with its own key, or a holder of the settlement role posts deltas itself |
| ChainLaws.CancelRetires | contracts/src/SettlementExchange.sol:96-100 | whoever advances their epoch retires every order signed for the epoch before or earlier, for the rest of the run |
| ChainRuns.SurplusIsStrays | contracts/src/Custody.sol:14-16 | over every run the vault's USDC less the sum of balances changes by the stray inflows and nothing else |
| ChainRuns.VaultAlwaysSolvent | contracts/src/Custody.sol:65-162 | the vault always covers all balances, and equals them if and only if no stray USDC reached it |
| ChainRuns.ExitToTheVault | contracts/src/Custody.sol:109-118 | a one-call run: a forced withdrawal to the vault itself takes a vault that holds exactly what it owes to one that holds more |
| ChainRuns.LedgerMatchesFlows | contracts/test/CustodyInvariant.t.sol:132-144 | the sum of all balances is deposits less withdrawals; settlements never change it |
| ChainRuns.ExchangeBalanceIsIncome | contracts/src/SettlementExchange.sol:162-169 | the exchange's own vault balance is the sum of the batch nets it kept, less fees withdrawn |
| ChainRuns.StepIncome | contracts/src/SettlementExchange.sol:162-163 | no batch ever lowers the exchange's own balance, and no other outsider's call but a direct delta touches it |
| ChainRuns.NoOrderOverfilled | contracts/src/SettlementExchange.sol:137-139 | over all batches, what was settled of an order is what its filled amount grew by, and never passes the signed amount |
| ChainRuns.CancelledOrderIsFrozen | contracts/src/SettlementExchange.sol:96-100 | once the maker's epoch has passed an order's nonce, nothing more of the order settles in the rest of the run |
| ChainRuns.NoReplay | contracts/src/SettlementExchange.sol:114-115 | a batch identifier settles at most once: no later batch under it commits, whatever its orders and whatever happens in between |
| ChainRuns.NoSecondRedemption | contracts/src/Custody.sol:83-101 | a withdrawal authorization is redeemed at most once in a run, by anyone, for funds or for fees |
| ChainRuns.PausedIsFrozen | contracts/src/Custody.sol:197-207 | in any run, a vault found paused has had no operator activity after the latest call so far, and its threshold is at most 90 days |
| ChainRuns.StaysFrozen | contracts/src/Custody.sol:164-193 | nothing refreshes the liveness clock while the vault stays paused, attempts to unpause that fail included |
| ChainRuns.EscapeHatchOpens | contracts/src/Custody.sol:105-118 | in any run paused from T on, any holder can withdraw the full balance at any time beyond T + 90 days, whatever threshold was set meanwhile |
| ChainRuns.HolderPaidInFull | contracts/src/Custody.sol:105-118 | a holder who has not left since the pause still has what they had then, and is paid all of it on demand at any time beyond T + 90 days, whatever other calls came in between |
| ChainRuns.FirstExitPays | contracts/src/Custody.sol:109-118 | such an exit moves exactly that balance in USDC to the chosen destination and leaves nothing |
| ChainRuns.EveryoneExitsInFull | contracts/src/Custody.sol:105-118 | any number of distinct holders, each at a time of their own, in any order and with any other calls in between, are all paid what they had when the run began |
| Overflow.VaultLoopsFit | contracts/src/Custody.sol:133-159 | against balances below 2^255 in total, conserving deltas over distinct accounts that overdraw nobody keep the running sum and every balance in range at every step |
| Overflow.UsdcNeverOverflows | contracts/src/SettlementExchange.sol:120-191 | an admissible, affordable batch of fewer than 2^18 legs against a solvent vault holding less than 2^255 overflows neither the accumulators of the order loop nor the vault's loops |
| Overflow.NoOverflowWithinBounds | contracts/src/SettlementExchange.sol:108-172 | if it also sells less than 2^255 shares of each position, no overflow ever stops it: it goes through exactly when the other conditions hold, in whatever order its legs come |
| Overflow.HugeSellsOverflow | contracts/src/SettlementExchange.sol:217-230 | the bound on shares is needed: a batch that starts with two sells of 2^254 shares of one position is refused, whatever follows |
| Overflow.AlternatingFits | contracts/src/SettlementExchange.sol:217-230 | and there the order of the legs matters: the same sells, alternating with buys, overflow nothing and net to zero |
| Matching.SweepIsMaximal | backend/gateway/src/domain.rs:91-135 | what is filled is the smaller of the amount and the crossing quantity of other makers |
| Matching.SweepFollowsPriority | backend/gateway/src/domain.rs:97-128 | the k-th fill is between the taker and the k-th candidate in price-time order, at that candidate's own price, and all but the last one touched are filled to the end |
| Matching.FillPricesAreOrderly | backend/gateway/src/domain.rs:91-135 | every fill is within the taker's limit, never with the taker itself, and prices move away from the best |
| Matching.SweepConserves | backend/gateway/src/domain.rs:88-135 | fills and leftover add up to the amount, on any list |
| Matching.SweepRest | backend/gateway/src/domain.rs:91-132 | what stays on the list is its end, the first order perhaps partly filled; if something is left, the next order does not cross |
| Matching.SweepTally | backend/gateway/src/domain.rs:97-132 | where every order met on the way goes: the taker's own are dropped, all others filled, at most one more in part, and the rest stays as it was |
| Matching.SweepMirrors | backend/gateway/src/domain.rs:138-194 | selling is buying with prices reflected: same fills, rest, dropped orders and leftover |
| Matching.InsertKeepsRank | backend/gateway/src/domain.rs:62-77 | resting a later order behind everything priced at least as well keeps price-time priority and loses no order |
| OrderBook.OrderBook.Insert | backend/gateway/src/domain.rs:62-77 | pushing onto the price map places the order in the flat list behind everything priced at least as well, stamped with the next number |
| OrderBook.OrderBook.MatchBuy | backend/gateway/src/domain.rs:81-136 | the nested loops over the price map compute the greedy walk over the flat asks: same fills, same leftover list, same flag; they terminate even on makers with nothing remaining |
| OrderBook.OrderBook.MatchSell | backend/gateway/src/domain.rs:139-194 | the same over the flat bids |
| OrderBook.OrderBook.DrainLevel | backend/gateway/src/domain.rs:98-128 | draining one level is exactly the part of the walk that lies on it, whatever lies behind |
| OrderBook.OrderBook.Cancel | backend/gateway/src/domain.rs:197-211 | removes exactly the order with the identifier that a scan by ascending price, oldest first, meets first, from the buys if any is there; keeps all others in place; reports none only if there is none |
| OrderBook.OrderBook.CancelIn | backend/gateway/src/domain.rs:198-203 | the same for one side |
| OrderBook.CancelDetermined | backend/gateway/src/domain.rs:197-211 | a cancellation has one outcome, also where identifiers repeat |
| OrderBook.OrderBook.CancelAll | backend/gateway/src/domain.rs:214-239 | the book becomes the filter of itself, and the identifiers of all removed orders are returned in scan order |
| OrderBook.OrderBook.CancelAllLevel | backend/gateway/src/domain.rs:217-225 | index-shifting removal within one queue equals the filter |
| OrderBook.OrderBook.Prune | backend/gateway/src/domain.rs:242-245 | no level is empty afterwards and no order moved |
| OrderBook.BestPrices | backend/gateway/src/domain.rs:248-255 | in a pruned book the best bid and ask are the prices of the orders that would match next |
| Engine.Matcher.Handle | backend/gateway/src/engine.rs:44-126 | one command changes the book of its own position as the step relation says, with the fill recorded as line 71 writes it, and no other book; every book stays well formed and without empty levels |
| Engine.Matcher.PlaceIn | backend/gateway/src/engine.rs:60-83 | match, rest what is left, prune: together they are the abstract placement |
| Engine.Matcher.RestIn | backend/gateway/src/engine.rs:65-78 | the resting order carries the incoming order's fields, records the amount less the fills as line 71 writes it, and goes behind everything priced at least as well under the next number |
| Engine.Matcher.Run | backend/gateway/src/engine.rs:35-129 | the receive loop yields a run of the step relation that stops at a shutdown, at the end of the channel, or at the first result that cannot be sent |
| MatcherCalls.PlaceAnswers | backend/gateway/src/engine.rs:60-83 | a placement fills the smaller of amount and liquidity, reports complete exactly when covered, and otherwise rests the order as it came, under the next number, with what it records as filled |
| MatcherCalls.PlaceRestsIn | backend/gateway/src/engine.rs:65-78 | the resting order joins those on its own side, which all stay |
| MatcherCalls.PriorityMeans | backend/gateway/src/domain.rs:47-53 | price-time priority, written out: bids from the highest price, asks from the lowest, and the older order first |
| MatcherCalls.OtherBooksKept | backend/gateway/src/engine.rs:44-126 | a command changes no book but that of its own position, and answers, for placements only, with its own market |
| MatcherCalls.OthersExactly | backend/gateway/src/domain.rs:214-239 | cancelling all of a maker leaves exactly the orders of others, as often as they were there |
| MatcherCalls.AnswersInOrder | backend/gateway/src/engine.rs:83-97 | the results sent on are those of the placements, each once and in order |
| MatcherRuns.NeverCrossed | backend/gateway/src/engine.rs:44-126 | in every run, under either fill rule, every book stays in price-time priority with every bid below every ask |
| MatcherRuns.PlaceKeeps | backend/gateway/src/engine.rs:60-81 | placing any order keeps a book sound: what rests cannot cross what is left |
| MatcherRuns.QuantityConserved | backend/gateway/src/engine.rs:60-81 | with fills recorded as their sum: in every run what an order brought in is filled, still resting or discarded, so it is never filled beyond its amount |
| MatcherRuns.AsWrittenConservesExactly | backend/gateway/src/engine.rs:71 | as written, placing an order conserves its quantity if and only if the liquidity covers it or is exactly half of it |
| MatcherRuns.AsWrittenOverfillsExactly | backend/gateway/src/engine.rs:71 | as written, what an order has been filled for and still offers exceeds its amount if and only if more than half of it but not all of it matches |
| MatcherRuns.OverfilledByTheNextExactly | backend/gateway/src/engine.rs:65-81 | as written, some next order fills a new order beyond its amount if and only if the same holds |
| MatcherRuns.AsWrittenNeverTrades | backend/gateway/src/engine.rs:65-81 | as written, in every run from empty books every fill has quantity zero |
| MatcherRuns.AsWrittenOverfills | backend/gateway/src/engine.rs:71 | as written, a concrete order for 10 is filled for 16 |
| MatcherRuns.IdsStayUnique | backend/gateway/src/service.rs:66 | a book never holds more orders of one identifier than it began with and were placed with it |
| MatcherRuns.CancelOnce | backend/gateway/src/domain.rs:414-432 | with unique identifiers, cancelling again finds nothing |
| Rebuild.RebuildBooks | backend/gateway/src/service.rs:235-253 | the insertion loop leaves one book per position with rows, holding those rows inserted in order |
| Rebuild.RebuildRoundTrip | backend/gateway/src/service.rs:235-253 | inserting a well-formed book's orders in arrival order into an empty book gives it back up to sequence numbers |
| Rebuild.RankedUnique | backend/gateway/src/domain.rs:47-53 | price-time priority leaves no choice: two ranked lists of the same orders are equal |
| Rebuild.RunsAlike | backend/gateway/src/engine.rs:44-126 | from books that are the same position by position up to sequence numbers, an emptied book counting as none, every run is matched by one with the same results, command by command |
| Restart.StampsStayDistinct | backend/gateway/src/domain.rs:62-77 | in every run, under either fill rule, no two orders of a book share a sequence number |
| Restart.EveryStateCanBeStored | backend/gateway/src/service.rs:223-256 | so at every point of every run the resting orders have an order of arrival to be stored in |
| Restart.RestartIsInvisible | backend/gateway/src/service.rs:223-256 | at any point of any run, books built from rows that hold the resting orders in order of arrival go on to give the same results, command by command, and are sound and numbered again; the repository's own database does not keep such rows (see below) |
| Settleable.EveryMatchSettles | contracts/src/SettlementExchange.sol:141-163 | for any resting list and any incoming order, with rebate at most fee, the batch built from the fills nets the pool no loss and every position zero, with one taker leg or one per fill |
| Settleable.MatchCommitsOnChain | contracts/src/SettlementExchange.sol:108-172 | the call for such a batch commits if and only if the operator may settle, its orders are admissible, the vault takes it, nobody ends overdrawn, the sellers can deliver and no USDC sum overflows; its share netting never overflows |
| Settleable.SettleableExactlyWhenFeeCoversRebate | contracts/src/SettlementExchange.sol:83-88 | every match nets the pool no loss if and only if the rebate rate is at most the fee rate |
| SettledRuns.EveryResultSettles | backend/gateway/src/engine.rs:44-126 | in every run, under either fill rule, the batch of every result nets the pool no loss and every position zero |
| SettledRuns.RunRegistered | backend/gateway/src/engine.rs:44-126 | in every run, every resting order stays backed by the signed order of its identifier, maker, position, price and side |
| SettledRuns.RunFills | contracts/src/SettlementExchange.sol:137-139 | over a whole run, the batches fill of an order on chain exactly what the matcher filled of it |
| SettledRuns.RunNeverOverfills | contracts/src/SettlementExchange.sol:137-139 | with fills recorded as their sum, all batches of a run together, on top of what was settled before it, fill no order beyond its signed amount |
| SettledRuns.OneMoreSettled | contracts/src/SettlementExchange.sol:137-139 | committing the batch of one more result adds exactly that result to what the exchange has settled of the run |
| SettledRuns.ChainSettles | contracts/src/SettlementExchange.sol:108-172 | after any run on chain whose batches are results of the matcher, each at most once and in any order, the exchange's fills are those results' on top of the fills before |
| SettledRuns.NextResultCommits | contracts/src/SettlementExchange.sol:108-172 | end to end, with fills recorded as their sum: after any such run on chain, the call for a result not settled yet commits if and only if the operator may settle, its orders are still authentic, the vault takes it, nobody ends overdrawn, the sellers can deliver and no USDC sum overflows |
| SettledRuns.RefusedByTheNextExactly | backend/gateway/src/engine.rs:65-81 | as written, some next order gets a match whose batch, on top of the first, fills more than was signed if and only if more than half of the new order but not all of it matches |
| SettledRuns.OverfillIsRefused | contracts/src/SettlementExchange.sol:137-139 | once the first batch is settled, the exchange refuses that second one in every state |
| Oracle.Oracle.CreateMarket | contracts/src/Oracle.sol:65-74 | only a creator, only unpaused, only while the stored expiry is zero |
| Oracle.Oracle.ProposeOutcome | contracts/src/Oracle.sol:85-100 | only for an open, expired market with valid payouts; the bond moves in and the proposal is recorded |
| Oracle.Oracle.DisputeOutcome | contracts/src/Oracle.sol:102-116 | only a proposed market within its window; a second bond moves in |
| Oracle.Oracle.ResolveDispute | contracts/src/Oracle.sol:118-134 | only a disputed market with valid payouts; report and both bonds to the winner, or nothing at all |
| Oracle.Oracle.FinalizeOutcome | contracts/src/Oracle.sol:136-151 | only a proposed market after its window with the very payouts proposed; report and bond back, or nothing at all |
| Oracle.Oracle.ValidatePayouts | contracts/src/Oracle.sol:153-160 | the loop accepts exactly the vectors of the right length whose sum is positive and fits in 256 bits |
| OracleRuns.SurplusAccounts | contracts/src/Oracle.sol:65-151 | over any interleaving, undated markets included: the oracle's USDC is what it owes plus its initial surplus and donations, less what creations on bonded markets reissued |
| OracleRuns.BondsSolvent | contracts/src/Oracle.sol:65-151 | over any interleaving of dated markets the oracle's USDC is what it owes plus its initial surplus and donations |
| OracleRuns.PayoutsNeverFail | contracts/src/Oracle.sol:131-148 | in a solvent oracle no resolution is stopped by its transfer |
| OracleRuns.MarketBalances | contracts/src/Oracle.sol:85-151 | for a market created with an expiry, whatever happens to the others: what came in less what went out is what is owed; a resolved market has paid out exactly what it took in |
| OracleRuns.ReportsAlwaysOk | contracts/src/Oracle.sol:129-160 | for a market created with an expiry, whatever happens to the others: it is resolved exactly when it has been reported, once, with the right length and a positive sum, also through finalization, which does not validate |
| OracleRuns.UncreatedStaysOpen | contracts/src/Oracle.sol:85-89 | a market nobody creates stays open for ever |
| OracleRuns.CreateKeepsSurplus | contracts/src/Oracle.sol:70-72 | a committed creation keeps the oracle's surplus if and only if the market carries no bond or the bond stays the same |
| OracleRuns.UndatedMarketBreaksSolvency | contracts/src/Oracle.sol:65-74 | a run with a market without expiry, constructed call by call, ends owing more than the oracle holds |
| OracleRuns.CreateKeepsProposal | contracts/src/Oracle.sol:70-72 | a committed creation leaves a carried proposal valid if and only if the number of outcome slots stays the same |
| OracleRuns.UndatedMarketMisreports | contracts/src/Oracle.sol:136-151 | a run from an empty oracle, constructed call by call, in which a market without expiry reports a vector of the wrong length for another question |
| OracleCalls.CreateExactly | contracts/src/Oracle.sol:65-74 | only a creator, only unpaused, only where no expiry is stored; only the specification changes |
| OracleCalls.ProposeExactly | contracts/src/Oracle.sol:85-100 | a proposal commits exactly on an open market from its expiry on, with a valid vector and the bond; the bond, the proposer, the vector and the time are recorded |
| OracleCalls.DisputeExactly | contracts/src/Oracle.sol:102-116 | a dispute commits exactly on a proposed market up to the end of its window, with a second bond |
| OracleCalls.ResolveExactly | contracts/src/Oracle.sol:118-134 | a resolution commits exactly by an arbitrator on a disputed market with a valid vector and funds; both bonds go to the disputer if the vector is not the proposed one and to the proposer if it is |
| OracleCalls.FinalizeExactly | contracts/src/Oracle.sol:136-151 | a finalization commits exactly on a proposed market after its window with the proposed vector; the proposer's bond goes back |
| OracleCalls.EveryoneGetsTheirDue | contracts/src/Oracle.sol:85-151 | over every run, a party upheld in a dispute ends it one bond up and the other one bond down, an undisputed proposer ends even, and nobody else gains or loses |
| OracleCalls.NoReportBeforeTheWindow | contracts/src/Oracle.sol:118-151 | no market is resolved before its window has closed, but by an arbitrator in a dispute |
| OracleCalls.MarketsMoveForward | contracts/src/Oracle.sol:85-151 | a market only moves from open to proposed to disputed to resolved, and is proposed on no earlier than its expiry |
| Reasons.OracleReasonsAreTrue | contracts/src/Oracle.sol:65-160 | whatever the oracle gives as its reason to revert is so |
| OrderEncoding.Preimage | backend/shared/src/domain.rs:455-473 | the buffer, appended field by field as the gateway does, is the word-by-word encoding the contract hashes |
| OrderEncoding.FieldPositions | contracts/src/SettlementExchange.sol:255-263 | the hashed bytes are nine words, with each field in its own, numbers most significant byte first and the maker behind twelve zero bytes |
| OrderEncoding.PreimageDeterminesOrder | contracts/src/SettlementExchange.sol:255-263 | two orders with the same hashed bytes are the same order, for all 256-bit fields and all 8-bit sides |

## Left out

- The settlement service that would build batches is a stub in the repository. `MatchBatches` defines the step from fills to legs: each maker leg is the maker's signed order for its fill, the taker has one aggregate leg or one per fill.
- The token's and the share ledger's own balances are unbounded, and so are nonces, epochs and the rates in an arbitrary state; `setFeeRates` admits only rates of at most 1000 bps, with which the fee product cannot overflow.
- Settlement.NetsAreFlows: assumes fills below 2^255, where the contract's conversion is exact; `NetsAreFlowsModulo` and `PassthroughWithWrappedFills` cover the rest.
- Rebuild.RebuildRoundTrip: assumes the stored rows come in the order in which the orders came to rest; the query sorts by creation time, which the matcher queue may disagree with. It is about what resting orders record, not about what the database stores of fills.
- Restart.RestartIsInvisible: assumes the same of the stored rows; `EveryStateCanBeStored` shows that such rows exist. The repository's database does not hold them: a partly filled maker is marked filled (`backend/gateway/src/service.rs:197-206`), and orders dropped by a maker's cancellation of everything or by self-trade removal are never written.
- Rebuild.RebuildBooks: returns the matcher that would run over the books, since that is what the map is passed to.
- Matcher quantities and sequence numbers are unbounded; `filled <= amount` is part of the type of a resting order, so a stored row that violates it has no counterpart here.
- Callbacks on share transfers and the reentrancy guards: the model has no reentrant calls.
- The indexer (log polling, finalization, reorganizations), the HTTP and WebSocket layers, Kafka, configuration and tracing: plumbing around the modelled core.
- Postgres collateral and order status updates.
- Keccak, ECDSA recovery and the internals of the conditional-tokens framework beyond balances, approvals and transfers. The bodies of `reportPayouts` and `prepareCondition` are not part of this model; whether they accept a call is a parameter.
- The gateway's own `taker_fee` and `maker_rebate`: the contract's formulas are modelled instead. The gateway's fee rounds down although its comment says up.
- Events and getters.
