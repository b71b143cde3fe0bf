/** Whole runs of the vault and the exchange: any calls, by anyone, in any order. */
module ChainRuns {
  import opened Chain
  import opened Ledgers
  import opened Fees
  import opened Settlement
  import opened Exchange
  import C = Custody

  datatype Call =
    | ToVault(call: C.VaultCall)
    | SettleBatch(batchId: nat, orders: seq<SignedOrder>, fills: seq<uint256>, isMaker: seq<bool>)
    | WithdrawFees(amount: nat, to: Address, deadline: nat, auth: C.Authorization)
    | SetFeeRates(takerFeeBps: nat, makerRebateBps: nat)
    | CancelAllOrders
    | PauseExchange
    | UnpauseExchange
    // Role grants and revocations, at either contract.
    | SetRoles(vaultRoles: Grants, exchangeRoles: Grants)
    // Any USDC movement the vault does not make itself; it can only raise what the vault holds.
    | TokenActivity(usdc: C.Balances)
    // Any share movement or approval outside a settlement.
    | ShareActivity(shares: Shares, approvals: set<(Address, Address)>)

  datatype Move = Move(tx: Tx, call: Call)

  ghost predicate Commits(w: World, m: Move) {
    match m.call
    case ToVault(call) => C.Verdict(w.vault, m.tx, call).Committed?
    case SettleBatch(batchId, orders, fills, isMaker) =>
      BatchVerdict(w, m.tx, batchId, orders, fills, isMaker).Committed?
    case WithdrawFees(amount, to, deadline, auth) => FeesVerdict(w, m.tx, amount, to, deadline, auth).Committed?
    case SetFeeRates(t, r) => SetFeeRatesVerdict(w, m.tx, t, r).Committed?
    case CancelAllOrders => true
    case PauseExchange => PauseVerdict(w, m.tx, false).Committed?
    case UnpauseExchange => PauseVerdict(w, m.tx, true).Committed?
    case SetRoles(_, _) => true
    case TokenActivity(usdc) => Get(usdc, VAULT) >= Get(w.vault.usdc, VAULT)
    case ShareActivity(_, _) => true
  }

  /** The two contracts call each other only inside `settleBatch` and `withdrawFees`. */
  predicate Outsider(a: Address) {
    a != VAULT && a != EXCHANGE
  }

  ghost predicate Changes(w: World, m: Move, w': World) {
    match m.call
    case ToVault(call) => w' == w.(vault := w'.vault) && C.Effect(w.vault, m.tx, call, w'.vault)
    case SettleBatch(batchId, orders, fills, isMaker) =>
      |orders| == |fills| == |isMaker| && BatchEffect(w, m.tx, batchId, Legs(orders, fills, isMaker), w')
    case WithdrawFees(amount, to, _, _) => FeesEffect(w, amount, to, w')
    case SetFeeRates(t, r) => w' == w.(exch := w.exch.(rates := Rates(t, r)))
    case CancelAllOrders =>
      w' == w.(exch := w.exch.(nonces := w.exch.nonces[m.tx.sender := C.NonceOf(w.exch.nonces, m.tx.sender) + 1]))
    case PauseExchange => w' == w.(exch := w.exch.(paused := true))
    case UnpauseExchange => w' == w.(exch := w.exch.(paused := false))
    case SetRoles(v, x) => w' == w.(vault := w.vault.(roles := v), exch := w.exch.(roles := x))
    case TokenActivity(usdc) => w' == w.(vault := w.vault.(usdc := usdc))
    case ShareActivity(shares, approvals) => w' == w.(shares := shares, approvals := approvals)
  }

  ghost predicate Step(w: World, m: Move, w': World) {
    && Outsider(m.tx.sender)
    && if Commits(w, m) then Changes(w, m, w') else w' == w
  }

  /** A run: `ws[i + 1]` is what move `i` makes of `ws[i]`. */
  ghost predicate IsRun(ws: seq<World>, ms: seq<Move>) {
    && |ws| == |ms| + 1
    && forall i | 0 <= i < |ms| :: Step(ws[i], ms[i], ws[i + 1])
  }

  lemma {:induction false} RunPrefix(ws: seq<World>, ms: seq<Move>, n: nat)
    requires IsRun(ws, ms) && n <= |ms|
    ensures IsRun(ws[..n + 1], ms[..n])
  {}

  // ---- Solvency ----

  /** USDC the vault holds beyond what it owes. */
  ghost function Surplus(w: World): int {
    Get(w.vault.usdc, VAULT) - Total(w.vault.balances)
  }

  /** USDC a move sends to the vault without crediting anyone for it. */
  ghost function Stray(w: World, m: Move): int {
    if !Commits(w, m) then 0
    else match m.call
      case TokenActivity(usdc) => Get(usdc, VAULT) - Get(w.vault.usdc, VAULT)
      case ToVault(ForcedWithdrawal(to)) => if to == VAULT then Get(w.vault.balances, m.tx.sender) else 0
      case WithdrawFees(amount, to, _, _) => if to == VAULT then amount else 0
      case _ => 0
  }

  ghost function Strays(ws: seq<World>, ms: seq<Move>): int
    requires IsRun(ws, ms)
  {
    if ms == [] then 0
    else
      var n := |ms| - 1;
      RunPrefix(ws, ms, n);
      Strays(ws[..n + 1], ms[..n]) + Stray(ws[n], ms[n])
  }

  lemma {:induction false} VaultSurplus(w: World, m: Move, w': World)
    requires m.call.ToVault? && Commits(w, m) && Step(w, m, w')
    ensures Surplus(w') == Surplus(w) + Stray(w, m)
  {
    var v, v', s := w.vault, w'.vault, m.tx.sender;
    match m.call.call
    case Deposit(amount, _) =>
      PostedTotal(v.balances, [Entry(s, amount as int)], v'.balances);
      SumOfOne(Entry(s, amount as int), s);
      C.TransferSums(s, VAULT, amount, VAULT);
    case Withdraw(amount, _, _) =>
      PaidSurplus(v, s, s, amount, v');
    case ForcedWithdrawal(to) =>
      PaidSurplus(v, s, to, Get(v.balances, s), v');
    case ApplyNetDeltas(_, deltas) =>
      PostedTotal(v.balances, deltas, v'.balances);
    case _ =>
  }

  lemma {:induction false} PaidSurplus(v: C.Vault, account: Address, to: Address, amount: nat, v': C.Vault)
    requires C.Paid(v, account, to, amount, v')
    ensures Get(v'.usdc, VAULT) - Total(v'.balances)
         == Get(v.usdc, VAULT) - Total(v.balances) + if to == VAULT then amount else 0
  {
    PostedTotal(v.balances, [Entry(account, -(amount as int))], v'.balances);
    SumOfOne(Entry(account, -(amount as int)), account);
    C.TransferSums(VAULT, to, amount, VAULT);
  }

  lemma {:induction false} FeesSurplus(w: World, m: Move, w': World)
    requires m.call.WithdrawFees? && Commits(w, m) && Step(w, m, w')
    ensures Surplus(w') == Surplus(w) + Stray(w, m)
  {
    var amount, to := m.call.amount, m.call.to;
    var out, on := C.Transfer(VAULT, EXCHANGE, amount), C.Transfer(EXCHANGE, to, amount);
    PostedTotal(w.vault.balances, [Entry(EXCHANGE, -(amount as int))], w'.vault.balances);
    SumOfOne(Entry(EXCHANGE, -(amount as int)), EXCHANGE);
    C.TransferSums(VAULT, EXCHANGE, amount, VAULT);
    C.TransferSums(EXCHANGE, to, amount, VAULT);
    SumOfConcat(out, on, VAULT);
  }

  lemma {:induction false} StepSurplus(w: World, m: Move, w': World)
    requires Step(w, m, w')
    ensures Surplus(w') == Surplus(w) + Stray(w, m)
    ensures Stray(w, m) >= 0
  {
    if Commits(w, m) {
      match m.call
      case ToVault(_) => VaultSurplus(w, m, w');
      case SettleBatch(_, orders, fills, isMaker) =>
        var legs := Legs(orders, fills, isMaker);
        PostedTotal(w.vault.balances, AllDeltas(legs, w.exch.rates), w'.vault.balances);
        DeltasConserve(legs, w.exch.rates);
      case WithdrawFees(_, _, _, _) => FeesSurplus(w, m, w');
      case _ =>
    }
  }

  /**
   Conservation over every run: the vault's surplus moves by the stray inflows and by nothing else.
   */
  lemma {:induction false} SurplusIsStrays(ws: seq<World>, ms: seq<Move>)
    requires IsRun(ws, ms)
    ensures Surplus(ws[|ms|]) == Surplus(ws[0]) + Strays(ws, ms)
    ensures Strays(ws, ms) >= 0
  {
    if ms == [] {
    } else {
      var n := |ms| - 1;
      RunPrefix(ws, ms, n);
      SurplusIsStrays(ws[..n + 1], ms[..n]);
      StepSurplus(ws[n], ms[n], ws[n + 1]);
    }
  }

  /**
   A vault that starts with exactly what it owes can always pay everyone; it holds exactly the sum
   of all balances just when no stray USDC ever reached it.
   */
  lemma {:induction false} VaultAlwaysSolvent(ws: seq<World>, ms: seq<Move>)
    requires IsRun(ws, ms) && Surplus(ws[0]) == 0
    ensures Get(ws[|ms|].vault.usdc, VAULT) >= Total(ws[|ms|].vault.balances)
    ensures Get(ws[|ms|].vault.usdc, VAULT) == Total(ws[|ms|].vault.balances) <==> Strays(ws, ms) == 0
  {
    SurplusIsStrays(ws, ms);
  }

  /**
   Equality is not kept: a holder who forces a withdrawal to the vault itself is debited, and the USDC
   stays.  One call takes a vault that holds exactly what it owes to one that holds ten units more.
   */
  lemma {:induction false} ExitToTheVault(shares: Shares, exch: Exch) returns (ws: seq<World>, ms: seq<Move>)
    ensures IsRun(ws, ms) && |ms| == 1 && Commits(ws[0], ms[0])
    ensures Surplus(ws[0]) == 0 && Surplus(ws[1]) == 10
  {
    var h := Wallet(1);
    var v := C.Vault(map[VAULT := 10], map[h := 10], map[], {}, 0, C.MIN_INACTIVITY_THRESHOLD, false, {});
    var w := World(v, exch, shares, {});
    var w' := w.(vault := v.(balances := map[h := 0]));
    ms := [Move(Tx(h, C.MIN_INACTIVITY_THRESHOLD + 1), ToVault(C.ForcedWithdrawal(VAULT)))];
    ws := [w, w'];
    forall a ensures Get(w'.vault.balances, a) == Get(v.balances, a) + SumOf([Entry(h, -10)], a) {
      SumOfOne(Entry(h, -10), a);
    }
    forall a ensures Get(v.usdc, a) == Get(v.usdc, a) + SumOf(C.Transfer(VAULT, VAULT, 10), a) {
      C.TransferSums(VAULT, VAULT, 10, a);
    }
    assert Step(w, ms[0], w');
    var none: map<Address, int> := map[];
    TotalUpdate(none, h, 10);
    assert none[h := 10] == v.balances;
    StepSurplus(w, ms[0], w');
  }

  // ---- The ledger against its flows ----

  /** What a move adds to the sum of all balances: deposits in, withdrawals out, settlements nothing. */
  ghost function Credited(w: World, m: Move): int {
    if !Commits(w, m) then 0
    else match m.call
      case ToVault(Deposit(amount, _)) => amount
      case ToVault(Withdraw(amount, _, _)) => -(amount as int)
      case ToVault(ForcedWithdrawal(_)) => -Get(w.vault.balances, m.tx.sender)
      case WithdrawFees(amount, _, _, _) => -(amount as int)
      case _ => 0
  }

  ghost function CreditedInAll(ws: seq<World>, ms: seq<Move>): int
    requires IsRun(ws, ms)
  {
    if ms == [] then 0
    else
      var n := |ms| - 1;
      RunPrefix(ws, ms, n);
      CreditedInAll(ws[..n + 1], ms[..n]) + Credited(ws[n], ms[n])
  }

  lemma {:induction false} VaultCredits(w: World, m: Move, w': World)
    requires m.call.ToVault? && Commits(w, m) && Step(w, m, w')
    ensures Total(w'.vault.balances) == Total(w.vault.balances) + Credited(w, m)
  {
    var b, b', s := w.vault.balances, w'.vault.balances, m.tx.sender;
    match m.call.call
    case Deposit(amount, _) => PostedOne(b, s, amount, b');
    case Withdraw(amount, _, _) => PostedOne(b, s, -(amount as int), b');
    case ForcedWithdrawal(_) => PostedOne(b, s, -Get(b, s), b');
    case ApplyNetDeltas(_, deltas) => PostedTotal(b, deltas, b');
    case _ =>
  }

  lemma {:induction false} StepCredits(w: World, m: Move, w': World)
    requires Step(w, m, w')
    ensures Total(w'.vault.balances) == Total(w.vault.balances) + Credited(w, m)
  {
    if Commits(w, m) {
      var b, b' := w.vault.balances, w'.vault.balances;
      match m.call
      case ToVault(_) => VaultCredits(w, m, w');
      case SettleBatch(_, orders, fills, isMaker) =>
        var legs := Legs(orders, fills, isMaker);
        PostedTotal(b, AllDeltas(legs, w.exch.rates), b');
        DeltasConserve(legs, w.exch.rates);
      case WithdrawFees(amount, _, _, _) => PostedOne(b, EXCHANGE, -(amount as int), b');
      case _ =>
    }
  }

  lemma {:induction false} PostedOne(b: map<Address, int>, a: Address, amount: int, b': map<Address, int>)
    requires Posted(b, [Entry(a, amount)], b')
    ensures Total(b') == Total(b) + amount
  {
    PostedTotal(b, [Entry(a, amount)], b');
    SumOfOne(Entry(a, amount), a);
  }

  /** The ledger is deposits less withdrawals: no settlement, however often repeated, changes its sum. */
  lemma {:induction false} LedgerMatchesFlows(ws: seq<World>, ms: seq<Move>)
    requires IsRun(ws, ms)
    ensures Total(ws[|ms|].vault.balances) == Total(ws[0].vault.balances) + CreditedInAll(ws, ms)
  {
    if ms == [] {
    } else {
      var n := |ms| - 1;
      RunPrefix(ws, ms, n);
      LedgerMatchesFlows(ws[..n + 1], ms[..n]);
      StepCredits(ws[n], ms[n], ws[n + 1]);
    }
  }

  // ---- The exchange's own balance ----

  /** What a move posts to the exchange's vault balance. */
  ghost function Income(w: World, m: Move): int {
    if !Commits(w, m) then 0
    else match m.call
      case SettleBatch(_, orders, fills, isMaker) =>
        if |orders| == |fills| == |isMaker| then ExchangeNet(Legs(orders, fills, isMaker), w.exch.rates) else 0
      case WithdrawFees(amount, _, _, _) => -(amount as int)
      case ToVault(ApplyNetDeltas(_, deltas)) => SumOf(deltas, EXCHANGE)
      case _ => 0
  }

  ghost function Incomes(ws: seq<World>, ms: seq<Move>): int
    requires IsRun(ws, ms)
  {
    if ms == [] then 0
    else
      var n := |ms| - 1;
      RunPrefix(ws, ms, n);
      Incomes(ws[..n + 1], ms[..n]) + Income(ws[n], ms[n])
  }

  lemma {:induction false} StepIncome(w: World, m: Move, w': World)
    requires Step(w, m, w')
    ensures Get(w'.vault.balances, EXCHANGE) == Get(w.vault.balances, EXCHANGE) + Income(w, m)
    ensures m.call.SettleBatch? ==> Income(w, m) >= 0
  {
    if Commits(w, m) {
      match m.call
      case ToVault(Deposit(amount, _)) => SumOfOne(Entry(m.tx.sender, amount as int), EXCHANGE);
      case ToVault(Withdraw(amount, _, _)) => SumOfOne(Entry(m.tx.sender, -(amount as int)), EXCHANGE);
      case ToVault(ForcedWithdrawal(_)) =>
        SumOfOne(Entry(m.tx.sender, -Get(w.vault.balances, m.tx.sender)), EXCHANGE);
      case SettleBatch(_, orders, fills, isMaker) =>
        var legs := Legs(orders, fills, isMaker);
        ChecksMeanAdmissible(w.exch, legs, m.tx.now);
        AdmissibleOwners(w.exch, legs, m.tx.now);
        ExchangeHasNoLegs(legs, w.exch.rates);
        SumOfSnoc(Deltas(legs, w.exch.rates), Entry(EXCHANGE, ExchangeNet(legs, w.exch.rates)), EXCHANGE);
      case WithdrawFees(amount, _, _, _) => SumOfOne(Entry(EXCHANGE, -(amount as int)), EXCHANGE);
      case _ =>
    }
  }

  /** The exchange's vault balance is the batch nets it kept, less the fees taken out. */
  lemma {:induction false} ExchangeBalanceIsIncome(ws: seq<World>, ms: seq<Move>)
    requires IsRun(ws, ms)
    ensures Get(ws[|ms|].vault.balances, EXCHANGE) == Get(ws[0].vault.balances, EXCHANGE) + Incomes(ws, ms)
  {
    if ms == [] {
    } else {
      var n := |ms| - 1;
      RunPrefix(ws, ms, n);
      ExchangeBalanceIsIncome(ws[..n + 1], ms[..n]);
      StepIncome(ws[n], ms[n], ws[n + 1]);
    }
  }

  // ---- Fills across batches ----

  /** How much of `o` a move settles. */
  ghost function Settled(w: World, m: Move, o: Order): int {
    if Commits(w, m) && m.call.SettleBatch? && |m.call.orders| == |m.call.fills| == |m.call.isMaker|
    then SumOf(Fills(Legs(m.call.orders, m.call.fills, m.call.isMaker)), o)
    else 0
  }

  ghost function SettledInAll(ws: seq<World>, ms: seq<Move>, o: Order): int
    requires IsRun(ws, ms)
  {
    if ms == [] then 0
    else
      var n := |ms| - 1;
      RunPrefix(ws, ms, n);
      SettledInAll(ws[..n + 1], ms[..n], o) + Settled(ws[n], ms[n], o)
  }

  lemma {:induction false} NoFillNoLeg(legs: seq<Leg>, o: Order)
    requires forall i | 0 <= i < |legs| && legs[i].fill != 0 :: legs[i].order != o
    ensures SumOf(Fills(legs), o) == 0
  {
    if legs == [] {
    } else {
      NoFillNoLeg(legs[..|legs| - 1], o);
      FillStep(legs, o);
    }
  }

  /** The legs of a committed batch are admissible. */
  lemma {:induction false} CommittedLegs(w: World, m: Move)
    requires m.call.SettleBatch? && Commits(w, m)
    ensures |m.call.orders| == |m.call.fills| == |m.call.isMaker|
    ensures Admissible(w.exch, Legs(m.call.orders, m.call.fills, m.call.isMaker), m.tx.now)
    ensures ExchangeNet(Legs(m.call.orders, m.call.fills, m.call.isMaker), w.exch.rates) >= 0
  {
    ChecksMeanAdmissible(w.exch, Legs(m.call.orders, m.call.fills, m.call.isMaker), m.tx.now);
  }

  lemma {:induction false} StepFills(w: World, m: Move, w': World, o: Order)
    requires Step(w, m, w')
    ensures Get(w'.exch.filled, o) == Get(w.exch.filled, o) + Settled(w, m, o)
    ensures Settled(w, m, o) >= 0
    ensures Settled(w, m, o) > 0 ==> Get(w'.exch.filled, o) <= o.amount && o.nonce == C.NonceOf(w.exch.nonces, o.maker)
    ensures C.NonceOf(w.exch.nonces, o.maker) <= C.NonceOf(w'.exch.nonces, o.maker)
  {
    if Commits(w, m) && m.call.SettleBatch? {
      var legs := Legs(m.call.orders, m.call.fills, m.call.isMaker);
      CommittedLegs(w, m);
      FillsGrow(legs, |legs|, o);
      if forall i | 0 <= i < |legs| && legs[i].fill != 0 :: legs[i].order != o {
        NoFillNoLeg(legs, o);
      } else {
        var i :| 0 <= i < |legs| && legs[i].fill != 0 && legs[i].order == o;
        assert FilledAfter(w.exch.filled, legs, legs[i].order) <= legs[i].order.amount;
        assert Authentic(w.exch, legs[i], m.tx.now);
      }
    }
  }

  /**
   No order is overfilled across batches: what all batches settled of an order is what its
   `filledAmount` grew by, and never passes the amount its owner signed.
   */
  lemma {:induction false} NoOrderOverfilled(ws: seq<World>, ms: seq<Move>, o: Order)
    requires IsRun(ws, ms) && Get(ws[0].exch.filled, o) <= o.amount
    ensures Get(ws[|ms|].exch.filled, o) == Get(ws[0].exch.filled, o) + SettledInAll(ws, ms, o)
    ensures Get(ws[|ms|].exch.filled, o) <= o.amount
  {
    if ms == [] {
    } else {
      var n := |ms| - 1;
      RunPrefix(ws, ms, n);
      NoOrderOverfilled(ws[..n + 1], ms[..n], o);
      StepFills(ws[n], ms[n], ws[n + 1], o);
    }
  }

  /** Once its owner's epoch has passed an order's nonce, the order is frozen for the rest of the run. */
  lemma {:induction false} CancelledOrderIsFrozen(ws: seq<World>, ms: seq<Move>, o: Order)
    requires IsRun(ws, ms) && C.NonceOf(ws[0].exch.nonces, o.maker) > o.nonce
    ensures Get(ws[|ms|].exch.filled, o) == Get(ws[0].exch.filled, o)
    ensures C.NonceOf(ws[|ms|].exch.nonces, o.maker) > o.nonce
  {
    if ms == [] {
    } else {
      var n := |ms| - 1;
      RunPrefix(ws, ms, n);
      CancelledOrderIsFrozen(ws[..n + 1], ms[..n], o);
      StepFills(ws[n], ms[n], ws[n + 1], o);
    }
  }

  // ---- Idempotence ----

  /** Settled batches stay marked, and withdrawal nonces never go back. */
  lemma {:induction false} MarksStay(ws: seq<World>, ms: seq<Move>, i: nat, j: nat, batchId: nat, account: Address)
    requires IsRun(ws, ms) && i <= j <= |ms|
    ensures batchId in ws[i].exch.settled ==> batchId in ws[j].exch.settled
    ensures C.NonceOf(ws[i].vault.nonces, account) <= C.NonceOf(ws[j].vault.nonces, account)
  {
    if i == j {
    } else {
      MarksStay(ws, ms, i, j - 1, batchId, account);
      MarksKept(ws[j - 1], ms[j - 1], ws[j], batchId, account);
    }
  }

  lemma {:induction false} MarksKept(w: World, m: Move, w': World, batchId: nat, account: Address)
    requires Step(w, m, w')
    ensures batchId in w.exch.settled ==> batchId in w'.exch.settled
    ensures C.NonceOf(w.vault.nonces, account) <= C.NonceOf(w'.vault.nonces, account)
  {}

  lemma {:induction false} SettledIsMarked(w: World, m: Move, w': World)
    requires Step(w, m, w') && m.call.SettleBatch? && Commits(w, m)
    ensures m.call.batchId in w'.exch.settled
  {}

  lemma {:induction false} MarkedIsRefused(w: World, m: Move)
    requires m.call.SettleBatch?
    ensures m.call.batchId in w.exch.settled ==> !Commits(w, m)
  {}

  /**
   A batch identifier settles at most once: after a committed batch, no batch under the same identifier
   commits, whatever its orders, fills and roles, and whatever happens in between.
   */
  lemma {:induction false} NoReplay(ws: seq<World>, ms: seq<Move>, i: nat, j: nat)
    requires IsRun(ws, ms) && i < j < |ms| && Commits(ws[i], ms[i])
    requires ms[i].call.SettleBatch? && ms[j].call.SettleBatch? && ms[i].call.batchId == ms[j].call.batchId
    ensures !Commits(ws[j], ms[j])
  {
    MarksStay(ws, ms, i + 1, j, ms[i].call.batchId, Zero);
    SettledIsMarked(ws[i], ms[i], ws[i + 1]);
    MarkedIsRefused(ws[j], ms[j]);
  }

  /** A move that presents `auth`: a withdrawal of the caller's own, or one of fees by the exchange. */
  ghost predicate Redeems(m: Move, auth: C.Authorization) {
    || (m.call.ToVault? && m.call.call.Withdraw? && m.call.call.auth == auth)
    || (m.call.WithdrawFees? && m.call.auth == auth)
  }

  lemma {:induction false} RedeemedIsSpent(w: World, m: Move, w': World, auth: C.Authorization)
    requires Step(w, m, w') && Commits(w, m) && Redeems(m, auth)
    ensures C.NonceOf(w.vault.nonces, auth.account) == auth.nonce
    ensures C.NonceOf(w'.vault.nonces, auth.account) == auth.nonce + 1
  {}

  /** A withdrawal authorization is redeemed at most once, by anyone, for funds or for fees. */
  lemma {:induction false} NoSecondRedemption(ws: seq<World>, ms: seq<Move>, i: nat, j: nat, auth: C.Authorization)
    requires IsRun(ws, ms) && i < j < |ms| && Commits(ws[i], ms[i])
    requires Redeems(ms[i], auth) && Redeems(ms[j], auth)
    ensures !Commits(ws[j], ms[j])
  {
    MarksStay(ws, ms, i + 1, j, 0, auth.account);
    RedeemedIsSpent(ws[i], ms[i], ws[i + 1], auth);
    if Commits(ws[j], ms[j]) {
      RedeemedIsSpent(ws[j], ms[j], ws[j + 1], auth);
    }
  }

  lemma {:induction false} RunBetween(ws: seq<World>, ms: seq<Move>, i: nat, j: nat)
    requires IsRun(ws, ms) && i <= j <= |ms|
    ensures IsRun(ws[i..j + 1], ms[i..j])
  {
    var ws', ms' := ws[i..j + 1], ms[i..j];
    forall k | 0 <= k < |ms'| ensures Step(ws'[k], ms'[k], ws'[k + 1]) {
      assert Step(ws[i + k], ms[i + k], ws[i + k + 1]);
    }
  }

  // ---- The escape hatch ----

  /** Paused since no later than `since`, with the inactivity threshold in its legal range. */
  ghost predicate FrozenSince(w: World, since: nat) {
    && w.vault.paused
    && w.vault.lastActivity <= since
    && w.vault.threshold <= C.MAX_INACTIVITY_THRESHOLD
  }

  /** However a run got there, a vault found paused when all calls so far were made by `t` is frozen since `t`. */
  lemma {:induction false} PausedIsFrozen(ws: seq<World>, ms: seq<Move>, t: nat)
    requires IsRun(ws, ms) && forall i | 0 <= i < |ms| :: ms[i].tx.now <= t
    requires ws[0].vault.lastActivity <= t && ws[0].vault.threshold <= C.MAX_INACTIVITY_THRESHOLD
    ensures ws[|ms|].vault.paused ==> FrozenSince(ws[|ms|], t)
    ensures ws[|ms|].vault.lastActivity <= t && ws[|ms|].vault.threshold <= C.MAX_INACTIVITY_THRESHOLD
  {
    if ms == [] {
    } else {
      RunPrefix(ws, ms, |ms| - 1);
      PausedIsFrozen(ws[..|ms|], ms[..|ms| - 1], t);
      assert Step(ws[|ms| - 1], ms[|ms| - 1], ws[|ms|]);
    }
  }

  /** Whoever tries, nobody unpauses the vault. */
  ghost predicate NeverUnpaused(ws: seq<World>, ms: seq<Move>)
    requires |ms| <= |ws|
  {
    forall i | 0 <= i < |ms| :: !(ms[i].call == ToVault(C.Unpause) && Commits(ws[i], ms[i]))
  }

  lemma {:induction false} FrozenKept(w: World, m: Move, w': World, since: nat)
    requires Step(w, m, w') && FrozenSince(w, since) && !(m.call == ToVault(C.Unpause) && Commits(w, m))
    ensures FrozenSince(w', since)
  {}

  lemma {:induction false} StaysFrozen(ws: seq<World>, ms: seq<Move>, since: nat)
    requires IsRun(ws, ms) && FrozenSince(ws[0], since)
    requires NeverUnpaused(ws, ms)
    ensures FrozenSince(ws[|ms|], since)
  {
    if ms == [] {
    } else {
      var n := |ms| - 1;
      RunPrefix(ws, ms, n);
      StaysFrozen(ws[..n + 1], ms[..n], since);
      FrozenKept(ws[n], ms[n], ws[n + 1], since);
    }
  }

  /**
   The escape hatch: a vault paused at `since` and never unpaused pays any holder their full balance
   on demand from 90 days later, whatever else happened and whatever threshold was set meanwhile.
   */
  lemma {:induction false} EscapeHatchOpens(ws: seq<World>, ms: seq<Move>, since: nat, holder: Address, to: Address,
                                            now: nat)
    requires IsRun(ws, ms) && FrozenSince(ws[0], since) && Surplus(ws[0]) >= 0
    requires NeverUnpaused(ws, ms)
    requires now > since + C.MAX_INACTIVITY_THRESHOLD
    requires to != Zero && Get(ws[|ms|].vault.balances, holder) > 0
    ensures C.Verdict(ws[|ms|].vault, Tx(holder, now), C.ForcedWithdrawal(to)) == Committed
  {
    StaysFrozen(ws, ms, since);
    SurplusIsStrays(ws, ms);
    TotalBounds(ws[|ms|].vault.balances, holder);
  }

  /** `h` forces a withdrawal, and it goes through. */
  ghost predicate Exits(w: World, m: Move, h: Address) {
    m.call.ToVault? && m.call.call.ForcedWithdrawal? && m.tx.sender == h && Commits(w, m)
  }

  /** While the vault is paused, nothing but a forced withdrawal of `h` itself moves the balance of `h`. */
  lemma {:induction false} OnlyExitMoves(w: World, m: Move, w': World, h: Address)
    requires Step(w, m, w') && w.vault.paused && !Exits(w, m, h)
    ensures Get(w'.vault.balances, h) == Get(w.vault.balances, h)
  {
    if Commits(w, m) && m.call.ToVault? && m.call.call.ForcedWithdrawal? {
      SumOfOne(Entry(m.tx.sender, -Get(w.vault.balances, m.tx.sender)), h);
    }
  }

  /** So a holder who has not left yet still has what they had when the vault was paused. */
  lemma {:induction false} HolderUnmoved(ws: seq<World>, ms: seq<Move>, since: nat, h: Address)
    requires IsRun(ws, ms) && FrozenSince(ws[0], since) && NeverUnpaused(ws, ms)
    requires forall i | 0 <= i < |ms| :: !Exits(ws[i], ms[i], h)
    ensures Get(ws[|ms|].vault.balances, h) == Get(ws[0].vault.balances, h)
  {
    if ms == [] {
    } else {
      var n := |ms| - 1;
      RunPrefix(ws, ms, n);
      HolderUnmoved(ws[..n + 1], ms[..n], since, h);
      StaysFrozen(ws[..n + 1], ms[..n], since);
      OnlyExitMoves(ws[n], ms[n], ws[n + 1], h);
    }
  }

  /**
   Whatever happened since the vault was paused at `since`, a holder who has not left yet is paid the
   full balance they had then, on demand, at any time beyond 90 days.
   */
  lemma {:induction false} HolderPaidInFull(ws: seq<World>, ms: seq<Move>, since: nat, h: Address, to: Address,
                                            now: nat)
    requires IsRun(ws, ms) && FrozenSince(ws[0], since) && NeverUnpaused(ws, ms) && Surplus(ws[0]) >= 0
    requires forall i | 0 <= i < |ms| :: !Exits(ws[i], ms[i], h)
    requires now > since + C.MAX_INACTIVITY_THRESHOLD && to != Zero && Get(ws[0].vault.balances, h) > 0
    ensures Get(ws[|ms|].vault.balances, h) == Get(ws[0].vault.balances, h)
    ensures C.Verdict(ws[|ms|].vault, Tx(h, now), C.ForcedWithdrawal(to)) == Committed
  {
    HolderUnmoved(ws, ms, since, h);
    EscapeHatchOpens(ws, ms, since, h, to, now);
  }

  /** A forced withdrawal beyond the 90 days, to a real destination. */
  ghost predicate LateExit(m: Move, since: nat) {
    && m.call.ToVault? && m.call.call.ForcedWithdrawal? && m.call.call.to != Zero
    && m.tx.now > since + C.MAX_INACTIVITY_THRESHOLD
  }

  /** The first exit of a holder in a run pays out what the holder had at its beginning, and leaves nothing. */
  lemma {:induction false} FirstExitPays(ws: seq<World>, ms: seq<Move>, since: nat, n: nat)
    requires IsRun(ws, ms) && FrozenSince(ws[0], since) && NeverUnpaused(ws, ms) && Surplus(ws[0]) >= 0
    requires n < |ms| && LateExit(ms[n], since) && Get(ws[0].vault.balances, ms[n].tx.sender) > 0
    requires forall i | 0 <= i < n :: !Exits(ws[i], ms[i], ms[n].tx.sender)
    ensures Commits(ws[n], ms[n])
    ensures
      var h, to := ms[n].tx.sender, ms[n].call.call.to;
      var owed := Get(ws[0].vault.balances, h);
      && Get(ws[n + 1].vault.balances, h) == 0
      && Get(ws[n + 1].vault.usdc, to) == Get(ws[n].vault.usdc, to) + if to == VAULT then 0 else owed
  {
    var h, to := ms[n].tx.sender, ms[n].call.call.to;
    var owed := Get(ws[0].vault.balances, h);
    RunPrefix(ws, ms, n);
    HolderPaidInFull(ws[..n + 1], ms[..n], since, h, to, ms[n].tx.now);
    assert Step(ws[n], ms[n], ws[n + 1]);
    SumOfOne(Entry(h, -owed), h);
    C.TransferSums(VAULT, to, owed, to);
  }

  /** Nobody is credited anything while the vault is paused. */
  lemma {:induction false} StaysEmpty(ws: seq<World>, ms: seq<Move>, since: nat, h: Address)
    requires IsRun(ws, ms) && FrozenSince(ws[0], since) && NeverUnpaused(ws, ms) && Get(ws[0].vault.balances, h) == 0
    ensures Get(ws[|ms|].vault.balances, h) == 0
  {
    if ms == [] {
    } else {
      var n := |ms| - 1;
      RunPrefix(ws, ms, n);
      StaysEmpty(ws[..n + 1], ms[..n], since, h);
      StaysFrozen(ws[..n + 1], ms[..n], since);
      OnlyExitMoves(ws[n], ms[n], ws[n + 1], h);
    }
  }

  /**
   Any number of distinct holders, each at a time of their own beyond the 90 days, in any order and with
   any other calls in between, are all paid in full; and whoever has left stays at zero.
   */
  lemma {:induction false} EveryoneExitsInFull(ws: seq<World>, ms: seq<Move>, since: nat, exits: set<nat>)
    requires IsRun(ws, ms) && FrozenSince(ws[0], since) && NeverUnpaused(ws, ms) && Surplus(ws[0]) >= 0
    requires forall n | n in exits :: n < |ms| && LateExit(ms[n], since)
    requires forall n | n in exits :: Get(ws[0].vault.balances, ms[n].tx.sender) > 0
    requires forall n, i | n in exits && 0 <= i < n :: !Exits(ws[i], ms[i], ms[n].tx.sender)
    ensures forall n | n in exits ::
      && Commits(ws[n], ms[n])
      && Get(ws[n].vault.balances, ms[n].tx.sender) == Get(ws[0].vault.balances, ms[n].tx.sender)
      && Get(ws[|ms|].vault.balances, ms[n].tx.sender) == 0
    ensures Surplus(ws[|ms|]) >= 0
  {
    forall n | n in exits
      ensures Commits(ws[n], ms[n])
      ensures Get(ws[n].vault.balances, ms[n].tx.sender) == Get(ws[0].vault.balances, ms[n].tx.sender)
      ensures Get(ws[|ms|].vault.balances, ms[n].tx.sender) == 0
    {
      var h := ms[n].tx.sender;
      FirstExitPays(ws, ms, since, n);
      RunPrefix(ws, ms, n);
      HolderUnmoved(ws[..n + 1], ms[..n], since, h);
      RunPrefix(ws, ms, n + 1);
      StaysFrozen(ws[..n + 2], ms[..n + 1], since);
      RunBetween(ws, ms, n + 1, |ms|);
      StaysEmpty(ws[n + 1..], ms[n + 1..], since, h);
    }
    SurplusIsStrays(ws, ms);
  }
}
