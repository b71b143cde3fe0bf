/** A revert never lies: the reason it gives is true of the state and the call. */
module Reasons {
  import opened Chain
  import opened Ledgers
  import opened Fees
  import opened Settlement
  import opened Exchange
  import opened Calls
  import C = Custody
  import O = Oracle

  // ---- The vault ----

  /** The role a vault call asks for, if any. */
  function RoleFor(call: C.VaultCall): set<Role> {
    match call
    case ApplyNetDeltas(_, _) => {Settlement}
    case Heartbeat => {Settlement}
    case Pause => {Pauser}
    case Unpause => {Pauser}
    case SetThreshold(_) => {DefaultAdmin}
    case _ => {}
  }

  ghost predicate VaultReason(v: C.Vault, tx: Tx, call: C.VaultCall, e: C.VaultError) {
    match e
    case EnforcedPause => v.paused
    case ExpectedPause => !v.paused
    case Unauthorized => exists role :: role in RoleFor(call) && (role, tx.sender) !in v.roles
    case ZeroAmount =>
      || (call.Deposit? && (call.amount == 0 || tx.sender == VAULT))
      || (call.Withdraw? && call.amount == 0)
      || (call.ForcedWithdrawal? && Get(v.balances, tx.sender) == 0)
    case ZeroAddress => call.ForcedWithdrawal? && call.to == Zero
    case AuthorizationExpired => call.Withdraw? && tx.now > call.deadline
    case InvalidWithdrawalSigner =>
      call.Withdraw? && !Authorized(v, call.auth, tx.sender, call.amount, call.deadline)
    case InsufficientBalance =>
      || (call.Withdraw? && Get(v.balances, tx.sender) < call.amount)
      || (call.ApplyNetDeltas? && exists i :: 0 <= i < |call.deltas| && Overdraws(v.balances, call.deltas, i))
    case TransferFailed =>
      || (call.Deposit? && (!call.approved || Get(v.usdc, tx.sender) < call.amount))
      || (call.Withdraw? && (tx.sender == Zero || Get(v.usdc, VAULT) < call.amount))
      || (call.ForcedWithdrawal? && Get(v.usdc, VAULT) < Get(v.balances, tx.sender))
    case OperatorActive => call.ForcedWithdrawal? && tx.now <= v.lastActivity + v.threshold
    case BatchAlreadyApplied => call.ApplyNetDeltas? && call.batchId in v.applied
    case DeltasDoNotConserve => call.ApplyNetDeltas? && SumAll(call.deltas) != 0
    case InactivityThresholdOutOfBounds => call.SetThreshold? && !(86_400 <= call.threshold <= 7_776_000)
    case ArithmeticOverflow =>
      || (call.Deposit? && Get(v.balances, tx.sender) + call.amount >= TWO_256)
      || (call.ApplyNetDeltas? && DeltasOverflow(v.balances, call.deltas))
  }

  /** Posting `i`, in order, takes its account below zero. */
  ghost predicate Overdraws(m: map<Address, int>, es: seq<Entry<Address>>, i: nat)
    requires i < |es|
  {
    Get(m, es[i].account) + SumOf(es[..i + 1], es[i].account) < 0
  }

  /** The running sum, or a posting in its turn, leaves its type. */
  ghost predicate DeltasOverflow(m: map<Address, int>, es: seq<Entry<Address>>) {
    || (exists n :: 0 < n <= |es| && !Signed256(SumAll(es[..n])))
    || (exists i :: 0 <= i < |es| && PostingOverflows(m, es, i))
  }

  ghost predicate PostingOverflows(m: map<Address, int>, es: seq<Entry<Address>>, i: nat)
    requires i < |es|
  {
    || es[i].amount <= -(TWO_255 as int)
    || (es[i].amount > 0 && Get(m, es[i].account) + SumOf(es[..i + 1], es[i].account) >= TWO_256)
  }

  lemma {:induction false} PostingReason(m: map<Address, int>, es: seq<Entry<Address>>) returns (i: nat)
    requires C.PostingsVerdict(m, es).Reverted?
    ensures i < |es|
    ensures C.PostingsVerdict(m, es).error == C.InsufficientBalance ==> Overdraws(m, es, i)
    ensures C.PostingsVerdict(m, es).error == C.ArithmeticOverflow ==> PostingOverflows(m, es, i)
  {
    var n := |es| - 1;
    var done := es[..n];
    if C.PostingsVerdict(m, done).Reverted? {
      i := PostingReason(m, done);
      assert done[..i + 1] == es[..i + 1];
    } else {
      i := n;
      assert es[..n + 1] == es && done + [es[n]] == es;
      SumOfSnoc(done, es[n], es[n].account);
    }
  }

  lemma {:induction false} ApplyReason(v: C.Vault, tx: Tx, call: C.VaultCall)
    requires call.ApplyNetDeltas? && C.Verdict(v, tx, call).Reverted?
    ensures VaultReason(v, tx, call, C.Verdict(v, tx, call).error)
  {
    var deltas := call.deltas;
    SumsFit(deltas);
    if (Settlement, tx.sender) !in v.roles {
      assert Settlement in RoleFor(call);
    }
    if C.PostingsVerdict(v.balances, deltas).Reverted? {
      var i := PostingReason(v.balances, deltas);
    }
  }

  /** Whatever the vault gives as its reason is so. */
  lemma {:induction false} VaultReasonsAreTrue(v: C.Vault, tx: Tx, call: C.VaultCall)
    requires C.Verdict(v, tx, call).Reverted?
    ensures VaultReason(v, tx, call, C.Verdict(v, tx, call).error)
  {
    match call
    case ApplyNetDeltas(_, _) => ApplyReason(v, tx, call);
    case Heartbeat => assert Settlement in RoleFor(call);
    case Pause => assert Pauser in RoleFor(call);
    case Unpause => assert Pauser in RoleFor(call);
    case SetThreshold(_) => assert DefaultAdmin in RoleFor(call);
    case _ =>
  }

  // ---- The exchange ----

  /** What is wrong with leg `i`. */
  ghost predicate LegReason(x: Exch, legs: seq<Leg>, i: nat, now: nat, e: ExchangeError)
    requires i < |legs|
  {
    var leg, o := legs[i], legs[i].order;
    && leg.fill != 0
    && match e
       case OrderExpired => now > o.deadline
       case InvalidNonce => o.nonce != (if o.maker in x.nonces then x.nonces[o.maker] else 0)
       case InvalidSignature => !(leg.signature.SignedBy? && o.maker == Wallet(leg.signature.key))
       case Overfill => Get(x.filled, o) + SumOf(Fills(legs[..i + 1]), o) > o.amount
       case ArithmeticOverflow =>
         || leg.fill * o.price + (if o.side == 0 then 999_999 else 0) >= TWO_256
         || !Signed256(SumOf(Deltas(legs[..i + 1], x.rates), o.maker))
         || !Signed256(SumAll(Deltas(legs[..i + 1], x.rates)))
         || !Signed256(-SumAll(Deltas(legs[..i + 1], x.rates)))
       case _ => false
  }

  lemma {:induction false} LegCheckReason(x: Exch, legs: seq<Leg>, now: nat, v: Result)
    requires legs != []
    requires
      var leg := legs[|legs| - 1];
      v == LegVerdict(x.nonces, FilledAfter(x.filled, legs[..|legs| - 1], leg.order), leg, now)
    ensures v.Reverted? ==> LegReason(x, legs, |legs| - 1, now, v.error)
  {
    FillStep(legs, legs[|legs| - 1].order);
    assert legs[..|legs| - 1 + 1] == legs;
  }

  lemma {:induction false} LegSumReason(x: Exch, legs: seq<Leg>, now: nat)
    requires legs != [] && legs[|legs| - 1].fill != 0 && !TurnFits(legs, x.rates)
    ensures LegReason(x, legs, |legs| - 1, now, ArithmeticOverflow)
  {
    assert legs[..|legs| - 1 + 1] == legs;
  }

  lemma {:induction false} LastLegReason(x: Exch, legs: seq<Leg>, now: nat)
    requires legs != [] && TurnVerdict(x.nonces, x.filled, x.rates, legs, now).Reverted?
    ensures LegReason(x, legs, |legs| - 1, now, TurnVerdict(x.nonces, x.filled, x.rates, legs, now).error)
  {
    var done, leg := legs[..|legs| - 1], legs[|legs| - 1];
    var v := LegVerdict(x.nonces, FilledAfter(x.filled, done, leg.order), leg, now);
    LegCheckReason(x, legs, now, v);
    if v.Committed? && leg.fill != 0 && !TurnFits(legs, x.rates) {
      LegSumReason(x, legs, now);
    }
  }

  lemma {:induction false} LegsReason(x: Exch, legs: seq<Leg>, now: nat) returns (i: nat)
    requires LegsVerdict(x.nonces, x.filled, x.rates, legs, now).Reverted?
    ensures i < |legs|
    ensures LegReason(x, legs, i, now, LegsVerdict(x.nonces, x.filled, x.rates, legs, now).error)
  {
    var n := |legs| - 1;
    var init := legs[..n];
    if LegsVerdict(x.nonces, x.filled, x.rates, init, now).Reverted? {
      i := LegsReason(x, init, now);
      assert init[..i + 1] == legs[..i + 1] && init[i] == legs[i];
    } else {
      i := n;
      LastLegReason(x, legs, now);
    }
  }

  ghost predicate BatchReason(w: World, tx: Tx, batchId: nat, orders: seq<SignedOrder>, fills: seq<uint256>,
                              isMaker: seq<bool>, e: ExchangeError) {
    match e
    case Unauthorized => (Operator, tx.sender) !in w.exch.roles
    case EnforcedPause => w.exch.paused
    case BatchAlreadySettled => batchId in w.exch.settled
    case LengthMismatch => !(|orders| == |fills| == |isMaker|)
    case _ =>
      && |orders| == |fills| == |isMaker|
      && LegsFault(w, tx, batchId, Legs(orders, fills, isMaker), e)
  }

  ghost predicate LegsFault(w: World, tx: Tx, batchId: nat, legs: seq<Leg>, e: ExchangeError) {
    match e
    case ExchangeUsdcNetNegative => SumAll(Deltas(legs, w.exch.rates)) > 0
    case VaultReverted(reason) =>
      VaultReason(w.vault, Tx(EXCHANGE, tx.now), C.ApplyNetDeltas(batchId, VaultDeltas(legs, w.exch.rates)), reason)
    case CtfNotConserved => exists p: nat :: SumOf(ShareNets(legs), p) != 0
    case ShareTransferFailed =>
      || (exists i :: 0 <= i < |legs| && legs[i].fill != 0 && legs[i].order.side == 1
            && (legs[i].order.maker, EXCHANGE) !in w.approvals)
      || !Payable(w.shares, Pulls(legs) + Pushes(legs))
    case ArithmeticOverflow =>
      !NettingFits(legs) || exists i :: 0 <= i < |legs| && LegReason(w.exch, legs, i, tx.now, e)
    case _ => exists i :: 0 <= i < |legs| && LegReason(w.exch, legs, i, tx.now, e)
  }

  /** The order loop's reasons are those of a leg. */
  lemma {:induction false} OrderLoopFault(w: World, tx: Tx, batchId: nat, legs: seq<Leg>, r: Result)
    requires r == LegsVerdict(w.exch.nonces, w.exch.filled, w.exch.rates, legs, tx.now)
    ensures r.Reverted? ==> LegsFault(w, tx, batchId, legs, r.error)
  {
    if r.Reverted? {
      var i := LegsReason(w.exch, legs, tx.now);
    }
  }

  lemma {:induction false} VaultFault(w: World, tx: Tx, batchId: nat, legs: seq<Leg>, r: Status<C.VaultError>)
    requires r == ApplyVerdict(w.vault, tx.now, batchId, legs, w.exch.rates)
    ensures r.Reverted? ==> LegsFault(w, tx, batchId, legs, VaultReverted(r.error))
  {
    if r.Reverted? {
      VaultReasonsAreTrue(w.vault, Tx(EXCHANGE, tx.now), C.ApplyNetDeltas(batchId, VaultDeltas(legs, w.exch.rates)));
    }
  }

  lemma {:induction false} SharesFault(w: World, tx: Tx, batchId: nat, legs: seq<Leg>, r: Result)
    requires r == SharesVerdict(w.shares, w.approvals, legs)
    ensures r.Reverted? ==> LegsFault(w, tx, batchId, legs, r.error)
  {}

  lemma {:induction false} LegsFaultIsTrue(w: World, tx: Tx, batchId: nat, legs: seq<Leg>)
    requires LegsSettle(w, tx, batchId, legs).Reverted?
    ensures LegsFault(w, tx, batchId, legs, LegsSettle(w, tx, batchId, legs).error)
  {
    OrderLoopFault(w, tx, batchId, legs, LegsVerdict(w.exch.nonces, w.exch.filled, w.exch.rates, legs, tx.now));
    VaultFault(w, tx, batchId, legs, ApplyVerdict(w.vault, tx.now, batchId, legs, w.exch.rates));
    SharesFault(w, tx, batchId, legs, SharesVerdict(w.shares, w.approvals, legs));
  }

  /** Whatever `settleBatch` gives as its reason is so, down to the leg at fault. */
  lemma {:induction false} BatchReasonsAreTrue(w: World, tx: Tx, batchId: nat, orders: seq<SignedOrder>,
                                               fills: seq<uint256>, isMaker: seq<bool>)
    requires BatchVerdict(w, tx, batchId, orders, fills, isMaker).Reverted?
    ensures BatchReason(w, tx, batchId, orders, fills, isMaker,
                        BatchVerdict(w, tx, batchId, orders, fills, isMaker).error)
  {
    if |orders| == |fills| == |isMaker| && LegsSettle(w, tx, batchId, Legs(orders, fills, isMaker)).Reverted? {
      LegsFaultIsTrue(w, tx, batchId, Legs(orders, fills, isMaker));
    }
  }

  /** And so is whatever its other calls give. */
  lemma {:induction false} AdminReasonsAreTrue(w: World, tx: Tx, taker: nat, maker: nat, expected: bool, amount: nat,
                                               to: Address, deadline: nat, auth: C.Authorization)
    ensures
      var r := SetFeeRatesVerdict(w, tx, taker, maker);
      r.Reverted? ==>
        || (r.error == Unauthorized && (DefaultAdmin, tx.sender) !in w.exch.roles)
        || (r.error == InvalidFee && (taker > 1000 || maker > 1000))
    ensures
      var r := PauseVerdict(w, tx, expected);
      r.Reverted? ==>
        || (r.error == Unauthorized && (Pauser, tx.sender) !in w.exch.roles)
        || (r.error == EnforcedPause && w.exch.paused)
        || (r.error == ExpectedPause && !w.exch.paused)
    ensures
      var r := FeesVerdict(w, tx, amount, to, deadline, auth);
      r.Reverted? ==>
        || (r.error == Unauthorized && (DefaultAdmin, tx.sender) !in w.exch.roles)
        || (r.error == UsdcTransferFailed && to == Zero)
        || (r.error.VaultReverted?
            && VaultReason(w.vault, Tx(EXCHANGE, tx.now), C.Withdraw(amount, deadline, auth), r.error.reason))
  {
    var call := C.Withdraw(amount, deadline, auth);
    if C.Verdict(w.vault, Tx(EXCHANGE, tx.now), call).Reverted? {
      VaultReasonsAreTrue(w.vault, Tx(EXCHANGE, tx.now), call);
    }
  }

  // ---- The oracle ----

  ghost predicate OracleReason(w: O.World, tx: Tx, call: O.Call, e: O.OracleError) {
    match e
    case EnforcedPause => w.paused
    case ExpectedPause => !w.paused
    case Unauthorized =>
      || (call.CreateMarket? && (MarketCreator, tx.sender) !in w.roles)
      || (call.ResolveDispute? && (Arbitrator, tx.sender) !in w.roles)
      || ((call.Pause? || call.Unpause?) && (Pauser, tx.sender) !in w.roles)
    case _ => !call.Pause? && !call.Unpause? && MarketReason(w, tx, call, e)
  }

  ghost predicate MarketReason(w: O.World, tx: Tx, call: O.Call, e: O.OracleError)
    requires !call.Pause? && !call.Unpause?
  {
    var spec, os := O.SpecOf(w.specs, call.marketId), O.OptimisticOf(w.optimistic, call.marketId);
    var state := O.StateOf(w.states, call.marketId);
    var closes := os.proposeTime + spec.disputeWindow;
    match e
    case InvalidState =>
      || (call.CreateMarket? && spec.expiry != 0)
      || (call.ProposeOutcome? && state != O.Open)
      || (call.DisputeOutcome? && state != O.Proposed)
      || (call.ResolveDispute? && state != O.Disputed)
      || (call.FinalizeOutcome? && state != O.Proposed)
    case NotExpired => call.ProposeOutcome? && tx.now < spec.expiry
    case InvalidPayouts =>
      && (call.ProposeOutcome? || call.ResolveDispute?)
      && (|call.payouts| != spec.outcomeSlotCount || O.SumPayouts(call.payouts) == 0)
    case DisputeWindowPassed => call.DisputeOutcome? && tx.now > closes
    case DisputeWindowNotPassed => call.FinalizeOutcome? && tx.now <= closes
    case PayoutsMismatch => call.FinalizeOutcome? && os.proposal != O.Proposal(call.payouts)
    case CtfReverted => (call.CreateMarket? || call.ResolveDispute? || call.FinalizeOutcome?) && !call.ctfAccepts
    case TransferFailed =>
      || ((call.ProposeOutcome? || call.DisputeOutcome?)
          && (!call.approved || Get(w.usdc, tx.sender) < spec.bondAmount))
      || ((call.ResolveDispute? || call.FinalizeOutcome?)
          && (os.proposer == Zero || os.disputer == Zero || Get(w.usdc, ORACLE) < 2 * spec.bondAmount))
    case ArithmeticOverflow =>
      || ((call.ProposeOutcome? || call.ResolveDispute?) && O.SumPayouts(call.payouts) >= TWO_256)
      || ((call.DisputeOutcome? || call.FinalizeOutcome?) && closes >= TWO_256)
      || (call.ResolveDispute? && 2 * spec.bondAmount >= TWO_256)
    case _ => false
  }

  /** Whatever the oracle gives as its reason is so. */
  lemma {:induction false} OracleReasonsAreTrue(w: O.World, tx: Tx, call: O.Call)
    requires O.Verdict(w, tx, call).Reverted?
    ensures OracleReason(w, tx, call, O.Verdict(w, tx, call).error)
  {}
}
