/** What whole runs of the vault and the exchange never do, from what every call asks for and does. */
module ChainLaws {
  import opened Chain
  import opened Ledgers
  import opened Fees
  import opened Settlement
  import opened Exchange
  import opened ChainRuns
  import opened Calls
  import B = Batches
  import C = Custody

  // ---- The hatch stays shut ----

  /** Blocks come in order of time. */
  ghost predicate Chronological(ms: seq<Move>) {
    forall i, j | 0 <= i <= j < |ms| :: ms[i].tx.now <= ms[j].tx.now
  }

  /** A call that shows the operator at work. */
  predicate Operates(m: Move) {
    m.call == ToVault(C.Heartbeat) || m.call.SettleBatch? || (m.call.ToVault? && m.call.call.ApplyNetDeltas?)
  }

  lemma {:induction false} ClockStep(w: World, m: Move, w': World)
    requires Step(w, m, w')
    ensures w'.vault.lastActivity == if Operates(m) && Commits(w, m) then m.tx.now else w.vault.lastActivity
  {}

  lemma {:induction false} ClockHolds(ws: seq<World>, ms: seq<Move>, i: nat, j: nat)
    requires IsRun(ws, ms) && Chronological(ms) && i < j <= |ms| && Operates(ms[i]) && Commits(ws[i], ms[i])
    ensures ws[j].vault.lastActivity >= ms[i].tx.now
  {
    ClockStep(ws[j - 1], ms[j - 1], ws[j]);
    if i < j - 1 {
      ClockHolds(ws, ms, i, j - 1);
    }
  }

  /**
   After a heartbeat or a batch at time T, no forced withdrawal goes through up to T plus the threshold in force
   when it is tried, whatever happens in between.
   */
  lemma {:induction false} HatchStaysShut(ws: seq<World>, ms: seq<Move>, i: nat, j: nat, to: Address)
    requires IsRun(ws, ms) && Chronological(ms) && i < j < |ms|
    requires Operates(ms[i]) && Commits(ws[i], ms[i]) && ms[j].call == ToVault(C.ForcedWithdrawal(to))
    requires ms[j].tx.now <= ms[i].tx.now + ws[j].vault.threshold
    ensures ws[j + 1] == ws[j]
  {
    ClockHolds(ws, ms, i, j);
    ForcedWithdrawalExactly(ws[j], ms[j], ws[j + 1], to);
  }

  /** The threshold is between one and ninety days, and each rate at most a tenth, in every state of every run. */
  lemma {:induction false} SettingsInBounds(ws: seq<World>, ms: seq<Move>)
    requires IsRun(ws, ms)
    requires 86_400 <= ws[0].vault.threshold <= 7_776_000
    requires ws[0].exch.rates.takerFeeBps <= 1000 && ws[0].exch.rates.makerRebateBps <= 1000
    ensures 86_400 <= ws[|ms|].vault.threshold <= 7_776_000
    ensures ws[|ms|].exch.rates.takerFeeBps <= 1000 && ws[|ms|].exch.rates.makerRebateBps <= 1000
  {
    if ms == [] {
    } else {
      var n := |ms| - 1;
      RunPrefix(ws, ms, n);
      SettingsInBounds(ws[..n + 1], ms[..n]);
      SettingsStep(ws[n], ms[n], ws[n + 1]);
    }
  }

  lemma {:induction false} SettingsStep(w: World, m: Move, w': World)
    requires Step(w, m, w')
    ensures w'.vault.threshold == w.vault.threshold || 86_400 <= w'.vault.threshold <= 7_776_000
    ensures w'.exch.rates == w.exch.rates
      || (w'.exch.rates.takerFeeBps <= 1000 && w'.exch.rates.makerRebateBps <= 1000)
  {
    match m.call
    case ToVault(SetThreshold(t)) => ThresholdExactly(w, m, w', t);
    case SetFeeRates(t, r) => FeeRatesExactly(w, m, w', t, r);
    case _ =>
  }

  /** So within a day of the operator at work, nobody is paid by force. */
  lemma {:induction false} NoForceWithinADay(ws: seq<World>, ms: seq<Move>, i: nat, j: nat, to: Address)
    requires IsRun(ws, ms) && Chronological(ms) && i < j < |ms| && 86_400 <= ws[0].vault.threshold <= 7_776_000
    requires ws[0].exch.rates.takerFeeBps <= 1000 && ws[0].exch.rates.makerRebateBps <= 1000
    requires Operates(ms[i]) && Commits(ws[i], ms[i]) && ms[j].call == ToVault(C.ForcedWithdrawal(to))
    requires ms[j].tx.now <= ms[i].tx.now + 86_400
    ensures ws[j + 1] == ws[j]
  {
    RunPrefix(ws, ms, j);
    SettingsInBounds(ws[..j + 1], ms[..j]);
    HatchStaysShut(ws, ms, i, j, to);
  }

  // ---- Whose word it takes ----

  /** While nobody holds the signer's role, nothing is withdrawn on authorization. */
  lemma {:induction false} NoSignerNoWithdrawal(ws: seq<World>, ms: seq<Move>, i: nat)
    requires IsRun(ws, ms) && i < |ms|
    requires ms[i].call.WithdrawFees? || (ms[i].call.ToVault? && ms[i].call.call.Withdraw?)
    requires forall a :: (WithdrawalSigner, a) !in ws[i].vault.roles
    ensures ws[i + 1] == ws[i]
  {
    match ms[i].call
    case ToVault(Withdraw(amount, deadline, auth)) => WithdrawExactly(ws[i], ms[i], ws[i + 1], amount, deadline, auth);
    case WithdrawFees(amount, to, deadline, auth) =>
      WithdrawFeesExactly(ws[i], ms[i], ws[i + 1], amount, to, deadline, auth);
    case _ =>
  }

  /** The call was made by `a`, or is a batch in which `a` signed a filled leg with its own key. */
  ghost predicate Consents(m: Move, a: Address) {
    || m.tx.sender == a
    || (m.call.SettleBatch? && |m.call.orders| == |m.call.fills| == |m.call.isMaker|
        && exists i :: 0 <= i < |m.call.orders| && m.call.fills[i] != 0
             && m.call.orders[i].order.maker == a && m.call.orders[i].signature.SignedBy?
             && a == Wallet(m.call.orders[i].signature.key))
  }

  /**
   Nobody's balance moves without their consent: but for deltas that a holder of the settlement role applies by
   itself, a call changes the balance of an account other than the exchange only if the account made it, or
   signed a leg that it fills.
   */
  lemma {:induction false} NothingWithoutConsent(w: World, m: Move, w': World, a: Address)
    requires Step(w, m, w') && a != EXCHANGE && Get(w'.vault.balances, a) != Get(w.vault.balances, a)
    ensures Consents(m, a)
         || (m.call.ToVault? && m.call.call.ApplyNetDeltas? && (Chain.Settlement, m.tx.sender) in w.vault.roles)
  {
    match m.call
    case ToVault(Deposit(amount, approved)) => DepositExactly(w, m, w', amount, approved);
    case ToVault(Withdraw(amount, deadline, auth)) => WithdrawExactly(w, m, w', amount, deadline, auth);
    case ToVault(ForcedWithdrawal(to)) => ForcedWithdrawalExactly(w, m, w', to);
    case WithdrawFees(amount, to, deadline, auth) => WithdrawFeesExactly(w, m, w', amount, to, deadline, auth);
    case SettleBatch(batchId, orders, fills, isMaker) => BatchConsent(w, m, w', a);
    case _ =>
  }

  lemma {:induction false} BatchConsent(w: World, m: Move, w': World, a: Address)
    requires Step(w, m, w') && m.call.SettleBatch? && a != EXCHANGE
    requires Get(w'.vault.balances, a) != Get(w.vault.balances, a)
    ensures Consents(m, a)
  {
    var legs := Legs(m.call.orders, m.call.fills, m.call.isMaker);
    if !B.SignedFor(legs, a) {
      B.OnlySignersMove(w, m.tx, m.call.batchId, legs, w', a, 0);
    } else {
      var i :| 0 <= i < |legs| && legs[i].fill != 0 && legs[i].order.maker == a
               && Recover(legs[i].signature) == Recovered(a);
      assert legs[i] == Leg(m.call.orders[i].order, m.call.orders[i].signature, m.call.fills[i], m.call.isMaker[i]);
    }
  }

  // ---- Cancellation ----

  /**
   Whoever advances their epoch retires every order they have signed for the epoch before or earlier: nothing
   more of it settles in the rest of the run.
   */
  lemma {:induction false} CancelRetires(ws: seq<World>, ms: seq<Move>, i: nat, o: Order)
    requires IsRun(ws, ms) && i < |ms| && ms[i].call == CancelAllOrders && ms[i].tx.sender == o.maker
    requires o.nonce <= if o.maker in ws[i].exch.nonces then ws[i].exch.nonces[o.maker] else 0
    ensures Get(ws[|ms|].exch.filled, o) == Get(ws[i].exch.filled, o)
  {
    CancelAllExactly(ws[i], ms[i], ws[i + 1]);
    RunBetween(ws, ms, i + 1, |ms|);
    CancelledOrderIsFrozen(ws[i + 1..], ms[i + 1..], o);
    assert ws[i + 1..][|ms| - i - 1] == ws[|ms|];
  }
}
