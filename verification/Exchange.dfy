/**
 The settlement exchange: how it turns a batch of signed orders into aggregated deltas for the vault
 and transfers of outcome shares.
 */
module Exchange {
  import opened Chain
  import opened Ledgers
  import opened Fees
  import opened Settlement
  import Custody

  datatype ExchangeError =
    | Unauthorized | EnforcedPause | ExpectedPause | InvalidFee
    | BatchAlreadySettled | LengthMismatch
    | OrderExpired | InvalidNonce | InvalidSignature | Overfill | ArithmeticOverflow
    | ExchangeUsdcNetNegative | VaultReverted(reason: Custody.VaultError)
    | CtfNotConserved | ShareTransferFailed | UsdcTransferFailed

  type Result = Status<ExchangeError>

  /** The exchange's storage.  The order hash is injective, so fills are keyed by the order itself. */
  datatype Exch = Exch(filled: map<Order, nat>, nonces: map<Address, nat>, settled: set<nat>, rates: Rates,
                       paused: bool, roles: Grants)

  type Shares = map<Holding, nat>

  datatype World = World(vault: Custody.Vault, exch: Exch, shares: Shares, approvals: set<(Address, Address)>)

  // ---- Which legs a batch may contain ----

  function Product(leg: Leg): nat {
    leg.fill * leg.order.price + if leg.order.side == BUY then 999_999 else 0
  }

  /** How the checks on one leg end when its order has been filled to `filled` so far. */
  function LegVerdict(nonces: map<Address, nat>, filled: int, leg: Leg, now: nat): Result {
    if leg.fill == 0 then Committed
    else if now > leg.order.deadline then Reverted(OrderExpired)
    else if leg.order.nonce != Custody.NonceOf(nonces, leg.order.maker) then Reverted(InvalidNonce)
    else if Recover(leg.signature) != Recovered(leg.order.maker) then Reverted(InvalidSignature)
    else if filled + leg.fill > leg.order.amount then Reverted(Overfill)
    else if Product(leg) >= TWO_256 then Reverted(ArithmeticOverflow)
    else Committed
  }

  /** How far `o` is filled once the legs of `done` are settled. */
  function FilledAfter(filled: map<Order, nat>, done: seq<Leg>, o: Order): int {
    Get(filled, o) + SumOf(Fills(done), o)
  }

  /**
   How a turn of the order loop ends that passes its checks as `v` says: adding `payout` to what the
   owner is owed, and taking it from the exchange's net, must not overflow.
   */
  function AccrualVerdict(v: Result, leg: Leg, owed: int, net: int, payout: int): Result {
    if v.Reverted? || leg.fill == 0 || (Signed256(owed + payout) && Signed256(net - payout)) then v
    else Reverted(ArithmeticOverflow)
  }

  /** What the owner of the last leg is owed so far, and the exchange's net so far, stay in `int256`. */
  predicate TurnFits(legs: seq<Leg>, rates: Rates)
    requires legs != []
  {
    && Signed256(SumOf(Deltas(legs, rates), legs[|legs| - 1].order.maker))
    && Signed256(ExchangeNet(legs, rates))
  }

  /** How the turn on the last leg of `legs` ends. */
  function TurnVerdict(nonces: map<Address, nat>, filled: map<Order, nat>, rates: Rates, legs: seq<Leg>,
                       now: nat): Result
    requires legs != []
  {
    var done, leg := legs[..|legs| - 1], legs[|legs| - 1];
    var v := LegVerdict(nonces, FilledAfter(filled, done, leg.order), leg, now);
    if v.Reverted? || leg.fill == 0 || TurnFits(legs, rates) then v else Reverted(ArithmeticOverflow)
  }

  /** The first leg to fail decides. */
  function LegsVerdict(nonces: map<Address, nat>, filled: map<Order, nat>, rates: Rates, legs: seq<Leg>,
                       now: nat): Result {
    if legs == [] then Committed
    else
      var r := LegsVerdict(nonces, filled, rates, legs[..|legs| - 1], now);
      if r.Reverted? then r else TurnVerdict(nonces, filled, rates, legs, now)
  }

  /** No accumulator of the order loop leaves `int256`, whatever it has added up so far. */
  predicate AccumulatorsFit(legs: seq<Leg>, rates: Rates) {
    legs == [] ||
    (AccumulatorsFit(legs[..|legs| - 1], rates) && (legs[|legs| - 1].fill == 0 || TurnFits(legs, rates)))
  }

  /** What one more filled leg adds to the accumulators. */
  lemma {:induction false} TurnAdds(legs: seq<Leg>, rates: Rates)
    requires legs != [] && legs[|legs| - 1].fill != 0
    ensures
      var done, leg := legs[..|legs| - 1], legs[|legs| - 1];
      var payout := Payout(leg.order, leg.fill, leg.isMaker, rates);
      && SumOf(Deltas(legs, rates), leg.order.maker) == SumOf(Deltas(done, rates), leg.order.maker) + payout
      && ExchangeNet(legs, rates) == ExchangeNet(done, rates) - payout
  {
    var done, leg := legs[..|legs| - 1], legs[|legs| - 1];
    var e := Entry(leg.order.maker, Payout(leg.order, leg.fill, leg.isMaker, rates));
    SumOfSnoc(Deltas(done, rates), e, leg.order.maker);
    SumAllSnoc(Deltas(done, rates), e);
  }

  /** A leg its owner signed, still current, and small enough to be priced in 256 bits. */
  predicate Authentic(x: Exch, leg: Leg, now: nat) {
    && now <= leg.order.deadline
    && leg.order.nonce == Custody.NonceOf(x.nonces, leg.order.maker)
    && Recover(leg.signature) == Recovered(leg.order.maker)
    && Product(leg) < TWO_256
  }

  /** Every filled leg is authentic, and no order is filled beyond its amount by the whole batch. */
  ghost predicate Admissible(x: Exch, legs: seq<Leg>, now: nat) {
    forall i | 0 <= i < |legs| && legs[i].fill != 0 ::
      && Authentic(x, legs[i], now)
      && FilledAfter(x.filled, legs, legs[i].order) <= legs[i].order.amount
  }

  lemma {:induction false} FillsGrow(legs: seq<Leg>, n: nat, o: Order)
    requires n <= |legs|
    ensures 0 <= SumOf(Fills(legs[..n]), o) <= SumOf(Fills(legs), o)
    decreases |legs|
  {
    if legs == [] {
    } else if n == |legs| {
      assert legs[..n] == legs;
      FillsGrow(legs[..n - 1], n - 1, o);
      FillStep(legs, o);
    } else {
      FillsGrow(legs[..|legs| - 1], n, o);
      assert legs[..|legs| - 1][..n] == legs[..n];
      FillStep(legs, o);
    }
  }

  lemma {:induction false} FillStep(legs: seq<Leg>, o: Order)
    requires legs != []
    ensures
      var leg := legs[|legs| - 1];
      SumOf(Fills(legs), o) == SumOf(Fills(legs[..|legs| - 1]), o) + if leg.order == o then leg.fill else 0
  {
    var leg := legs[|legs| - 1];
    SumOfSnoc(Fills(legs[..|legs| - 1]), Entry(leg.order, leg.fill), o);
  }

  /** The leg-by-leg checks pass exactly when they pass on all legs but the last and on the last one. */
  lemma {:induction false} AdmissibleThen(x: Exch, legs: seq<Leg>, now: nat)
    requires legs != [] && Admissible(x, legs[..|legs| - 1], now)
    requires
      var leg := legs[|legs| - 1];
      leg.fill != 0 ==> Authentic(x, leg, now) && FilledAfter(x.filled, legs, leg.order) <= leg.order.amount
    ensures Admissible(x, legs, now)
  {
    var n := |legs| - 1;
    forall i | 0 <= i < |legs| && legs[i].fill != 0
      ensures Authentic(x, legs[i], now)
      ensures FilledAfter(x.filled, legs, legs[i].order) <= legs[i].order.amount
    {
      FillStep(legs, legs[i].order);
      if i < n {
        assert legs[..n][i] == legs[i];
      }
    }
  }

  lemma {:induction false} AdmissibleInit(x: Exch, legs: seq<Leg>, now: nat)
    requires legs != [] && Admissible(x, legs, now)
    ensures Admissible(x, legs[..|legs| - 1], now)
  {
    var n := |legs| - 1;
    var init := legs[..n];
    forall i | 0 <= i < n && init[i].fill != 0
      ensures Authentic(x, init[i], now)
      ensures FilledAfter(x.filled, init, init[i].order) <= init[i].order.amount
    {
      assert legs[i] == init[i];
      FillsGrow(legs, n, legs[i].order);
    }
  }

  /** The checks on one leg, told by what the leg adds. */
  lemma {:induction false} LegChecks(x: Exch, legs: seq<Leg>, now: nat)
    requires legs != []
    ensures
      var done, leg := legs[..|legs| - 1], legs[|legs| - 1];
      LegVerdict(x.nonces, FilledAfter(x.filled, done, leg.order), leg, now).Committed? <==>
        leg.fill == 0 || (Authentic(x, leg, now) && FilledAfter(x.filled, legs, leg.order) <= leg.order.amount)
  {
    FillStep(legs, legs[|legs| - 1].order);
  }

  /**
   The order loop goes through exactly when every filled leg is authentic, the batch as a whole overfills
   no order, however often an order repeats in it, and no accumulator overflows.
   */
  lemma {:induction false} ChecksMeanAdmissible(x: Exch, legs: seq<Leg>, now: nat)
    ensures LegsVerdict(x.nonces, x.filled, x.rates, legs, now).Committed?
       <==> Admissible(x, legs, now) && AccumulatorsFit(legs, x.rates)
  {
    if legs == [] {
    } else {
      var n := |legs| - 1;
      ChecksMeanAdmissible(x, legs[..n], now);
      LegChecks(x, legs, now);
      if LegsVerdict(x.nonces, x.filled, x.rates, legs, now).Committed? {
        AdmissibleThen(x, legs, now);
      }
      if Admissible(x, legs, now) {
        AdmissibleInit(x, legs, now);
        assert legs[n].fill != 0 ==> Authentic(x, legs[n], now);
      }
    }
  }

  /** The first failing leg decides for the whole batch, whatever follows it. */
  lemma {:induction false} FirstFailureDecides(x: Exch, legs: seq<Leg>, n: nat, now: nat)
    requires n <= |legs| && LegsVerdict(x.nonces, x.filled, x.rates, legs[..n], now).Reverted?
    ensures LegsVerdict(x.nonces, x.filled, x.rates, legs, now)
         == LegsVerdict(x.nonces, x.filled, x.rates, legs[..n], now)
    decreases |legs|
  {
    if n < |legs| {
      assert legs[..|legs| - 1][..n] == legs[..n];
      FirstFailureDecides(x, legs[..|legs| - 1], n, now);
    } else {
      assert legs[..n] == legs;
    }
  }

  lemma {:induction false} AdmissibleOwners(x: Exch, legs: seq<Leg>, now: nat)
    requires Admissible(x, legs, now)
    ensures WalletOrders(legs)
  {
    forall i | 0 <= i < |legs| && legs[i].fill != 0 ensures legs[i].order.maker.Wallet? {
      assert Authentic(x, legs[i], now);
    }
  }

  // ---- A whole batch ----

  /** No account ends the batch below zero. */
  ghost predicate Affordable(balances: map<Address, int>, legs: seq<Leg>, rates: Rates) {
    forall a :: Get(balances, a) + SumOf(AllDeltas(legs, rates), a) >= 0
  }

  ghost predicate SellersApproved(approvals: set<(Address, Address)>, legs: seq<Leg>) {
    forall i | 0 <= i < |legs| && legs[i].fill != 0 && legs[i].order.side == SELL ::
      (legs[i].order.maker, EXCHANGE) in approvals
  }

  ghost function SharesVerdict(shares: Shares, approvals: set<(Address, Address)>, legs: seq<Leg>): Result {
    if !NettingFits(legs) then Reverted(ArithmeticOverflow)
    else if !ShareBalanced(legs) then Reverted(CtfNotConserved)
    else if !SellersApproved(approvals, legs) || !Payable(shares, Pulls(legs) + Pushes(legs))
    then Reverted(ShareTransferFailed)
    else Committed
  }

  /** The deltas handed to the vault: one per owner, in order of first appearance, and the exchange's own. */
  function VaultDeltas(legs: seq<Leg>, rates: Rates): seq<Entry<Address>> {
    Aggregated(Deltas(legs, rates)) + [Entry(EXCHANGE, ExchangeNet(legs, rates))]
  }

  /** Neither loop of the vault overflows on the deltas of the batch. */
  predicate VaultFits(balances: map<Address, int>, legs: seq<Leg>, rates: Rates) {
    Custody.SumFits(VaultDeltas(legs, rates)) && Custody.PostingsFit(balances, VaultDeltas(legs, rates))
  }

  ghost predicate VaultAccepts(v: Custody.Vault, batchId: nat) {
    !v.paused && (Chain.Settlement, EXCHANGE) in v.roles && batchId !in v.applied
  }

  /** How the vault ends the exchange's call. */
  ghost function ApplyVerdict(v: Custody.Vault, now: nat, batchId: nat, legs: seq<Leg>,
                              rates: Rates): Status<Custody.VaultError> {
    Custody.Verdict(v, Tx(EXCHANGE, now), Custody.ApplyNetDeltas(batchId, VaultDeltas(legs, rates)))
  }

  /** What the vault makes of a batch it accepts. */
  ghost predicate BatchApplied(v: Custody.Vault, now: nat, batchId: nat, legs: seq<Leg>, rates: Rates,
                               v': Custody.Vault) {
    && v' == v.(balances := v'.balances, applied := v.applied + {batchId}, lastActivity := now)
    && Posted(v.balances, AllDeltas(legs, rates), v'.balances)
  }

  ghost function LegsSettle(w: World, tx: Tx, batchId: nat, legs: seq<Leg>): Result {
    var r := LegsVerdict(w.exch.nonces, w.exch.filled, w.exch.rates, legs, tx.now);
    if r.Reverted? then r
    else if ExchangeNet(legs, w.exch.rates) < 0 then Reverted(ExchangeUsdcNetNegative)
    else
      var applied := ApplyVerdict(w.vault, tx.now, batchId, legs, w.exch.rates);
      if applied.Reverted? then Reverted(VaultReverted(applied.error))
      else SharesVerdict(w.shares, w.approvals, legs)
  }

  ghost function BatchVerdict(w: World, tx: Tx, batchId: nat, orders: seq<SignedOrder>, fills: seq<uint256>,
                              isMaker: seq<bool>): Result {
    if (Operator, tx.sender) !in w.exch.roles then Reverted(Unauthorized)
    else if w.exch.paused then Reverted(EnforcedPause)
    else if batchId in w.exch.settled then Reverted(BatchAlreadySettled)
    else if |orders| != |fills| || |orders| != |isMaker| then Reverted(LengthMismatch)
    else LegsSettle(w, tx, batchId, Legs(orders, fills, isMaker))
  }

  /** What a committed batch changes: balances, fills and shares by exactly the legs' postings. */
  ghost predicate BatchEffect(w: World, tx: Tx, batchId: nat, legs: seq<Leg>, w': World) {
    && BatchApplied(w.vault, tx.now, batchId, legs, w.exch.rates, w'.vault)
    && w'.exch == w.exch.(filled := w'.exch.filled, settled := w.exch.settled + {batchId})
    && Posted(w.exch.filled, Fills(legs), w'.exch.filled)
    && Posted(w.shares, Pulls(legs) + Pushes(legs), w'.shares)
    && w'.approvals == w.approvals
  }

  ghost predicate BatchNext(w: World, tx: Tx, batchId: nat, orders: seq<SignedOrder>, fills: seq<uint256>,
                            isMaker: seq<bool>, r: Result, w': World) {
    && r == BatchVerdict(w, tx, batchId, orders, fills, isMaker)
    && if r.Committed? then |orders| == |fills| == |isMaker|
        && BatchEffect(w, tx, batchId, Legs(orders, fills, isMaker), w')
       else w' == w
  }

  // ---- The other calls ----

  function SetFeeRatesVerdict(w: World, tx: Tx, takerFeeBps: nat, makerRebateBps: nat): Result {
    if (DefaultAdmin, tx.sender) !in w.exch.roles then Reverted(Unauthorized)
    else if takerFeeBps > MAX_BPS || makerRebateBps > MAX_BPS then Reverted(InvalidFee)
    else Committed
  }

  function PauseVerdict(w: World, tx: Tx, expected: bool): Result {
    if (Pauser, tx.sender) !in w.exch.roles then Reverted(Unauthorized)
    else if w.exch.paused == expected then Committed
    else Reverted(if expected then ExpectedPause else EnforcedPause)
  }

  ghost function FeesVerdict(w: World, tx: Tx, amount: nat, to: Address, deadline: nat,
                             auth: Custody.Authorization): Result {
    if (DefaultAdmin, tx.sender) !in w.exch.roles then Reverted(Unauthorized)
    else
      var r := Custody.Verdict(w.vault, Tx(EXCHANGE, tx.now), Custody.Withdraw(amount, deadline, auth));
      if r.Reverted? then Reverted(VaultReverted(r.error))
      else if to == Zero then Reverted(UsdcTransferFailed)
      else Committed
  }

  /** Fees leave the exchange's vault balance and reach `to` by way of the exchange. */
  ghost predicate FeesEffect(w: World, amount: nat, to: Address, w': World) {
    && w' == w.(vault := w.vault.(usdc := w'.vault.usdc, balances := w'.vault.balances,
                                  nonces := w.vault.nonces[EXCHANGE := Custody.NonceOf(w.vault.nonces, EXCHANGE) + 1]))
    && Posted(w.vault.balances, [Entry(EXCHANGE, -(amount as int))], w'.vault.balances)
    && Posted(w.vault.usdc, Custody.Transfer(VAULT, EXCHANGE, amount)
        + Custody.Transfer(EXCHANGE, to, amount), w'.vault.usdc)
  }

  /**
   Nothing makes the exchange's token the vault's.  Where it is another one, with balances `other`, the
   vault's payment stays with the exchange and as much of the other token is sent on.
   */
  ghost function ForeignFeesVerdict(w: World, other: Custody.Balances, tx: Tx, amount: nat, to: Address, deadline: nat,
                                    auth: Custody.Authorization): Result {
    if (DefaultAdmin, tx.sender) !in w.exch.roles then Reverted(Unauthorized)
    else
      var r := Custody.Verdict(w.vault, Tx(EXCHANGE, tx.now), Custody.Withdraw(amount, deadline, auth));
      if r.Reverted? then Reverted(VaultReverted(r.error))
      else if !Custody.TokenPays(other, EXCHANGE, to, amount) then Reverted(UsdcTransferFailed)
      else Committed
  }

  ghost predicate ForeignFeesEffect(w: World, other: Custody.Balances, tx: Tx, amount: nat, to: Address, deadline: nat,
                                    auth: Custody.Authorization, w': World, other': Custody.Balances) {
    && w' == w.(vault := w'.vault)
    && Custody.Effect(w.vault, Tx(EXCHANGE, tx.now), Custody.Withdraw(amount, deadline, auth), w'.vault)
    && Posted(other, Custody.Transfer(EXCHANGE, to, amount), other')
  }

  // ---- Aggregation ----

  /** `agg` posts what `raw` posts, with one entry per account. */
  ghost predicate Aggregates<K(!new)>(agg: seq<Entry<K>>, raw: seq<Entry<K>>) {
    && Distinct(agg)
    && (forall k :: SumOf(agg, k) == SumOf(raw, k))
    && SumAll(agg) == SumAll(raw)
    && |agg| <= |raw|
    && forall i | 0 <= i < |agg| :: exists j :: 0 <= j < |raw| && raw[j].account == agg[i].account
  }

  predicate AddedAt<K(==)>(agg: seq<Entry<K>>, i: nat, e: Entry<K>, agg': seq<Entry<K>>)
    requires i < |agg|
  {
    agg' == agg[i := Entry(agg[i].account, agg[i].amount + e.amount)]
  }

  /** One accrual: into the account's entry when there is one, else into a new one at the end. */
  ghost predicate Accrued<K(!new)>(agg: seq<Entry<K>>, e: Entry<K>, agg': seq<Entry<K>>) {
    || (exists i | 0 <= i < |agg| && agg[i].account == e.account ::
          AddedAt(agg, i, e, agg'))
    || ((forall i | 0 <= i < |agg| :: agg[i].account != e.account) && agg' == agg + [e])
  }

  /** Adds `e` to the entry of its account, or puts it at the end. */
  function AccrueInto<K(==)>(agg: seq<Entry<K>>, e: Entry<K>): seq<Entry<K>> {
    if agg == [] then [e]
    else if agg[0].account == e.account then [Entry(e.account, agg[0].amount + e.amount)] + agg[1..]
    else [agg[0]] + AccrueInto(agg[1..], e)
  }

  /** One entry per account, in order of first appearance. */
  function Aggregated<K(==)>(raw: seq<Entry<K>>): seq<Entry<K>> {
    if raw == [] then [] else AccrueInto(Aggregated(raw[..|raw| - 1]), raw[|raw| - 1])
  }

  /** Scanning for the account, as the contract does, comes to the same. */
  lemma {:induction false} AccruedIs<K(!new)>(agg: seq<Entry<K>>, e: Entry<K>, agg': seq<Entry<K>>)
    requires Distinct(agg) && Accrued(agg, e, agg')
    ensures agg' == AccrueInto(agg, e)
  {
    if agg == [] {
    } else {
      var rest := agg[1..];
      if agg[0].account == e.account {
        AccruedFirst(agg, e, agg');
      } else {
        AccruedLater(agg, e, agg');
        AccruedIs(rest, e, agg'[1..]);
      }
    }
  }

  lemma {:induction false} AccruedFirst<K(!new)>(agg: seq<Entry<K>>, e: Entry<K>, agg': seq<Entry<K>>)
    requires agg != [] && agg[0].account == e.account && Distinct(agg) && Accrued(agg, e, agg')
    ensures agg' == [Entry(e.account, agg[0].amount + e.amount)] + agg[1..]
  {
    var i :| 0 <= i < |agg| && agg[i].account == e.account && AddedAt(agg, i, e, agg');
    assert i == 0;
  }

  lemma {:induction false} AccruedLater<K(!new)>(agg: seq<Entry<K>>, e: Entry<K>, agg': seq<Entry<K>>)
    requires agg != [] && agg[0].account != e.account && Accrued(agg, e, agg')
    ensures agg' != [] && agg'[0] == agg[0] && Accrued(agg[1..], e, agg'[1..])
  {
    if i :| 0 <= i < |agg| && agg[i].account == e.account && AddedAt(agg, i, e, agg') {
      assert agg[1..][i - 1] == agg[i];
      assert AddedAt(agg[1..], i - 1, e, agg'[1..]);
    } else {
      assert agg'[1..] == agg[1..] + [e];
      forall j | 0 <= j < |agg[1..]| ensures agg[1..][j].account != e.account {
        assert agg[j + 1].account != e.account;
      }
    }
  }

  lemma {:induction false} AccrualAggregates<K(!new)>(agg: seq<Entry<K>>, raw: seq<Entry<K>>, e: Entry<K>,
                                                      agg': seq<Entry<K>>)
    requires Aggregates(agg, raw) && Accrued(agg, e, agg')
    ensures Aggregates(agg', raw + [e])
  {
    SumAllSnoc(raw, e);
    forall k ensures SumOf(agg', k) == SumOf(raw + [e], k) {
      SumOfSnoc(raw, e, k);
      assert SumOf(agg, k) == SumOf(raw, k);
      if i :| 0 <= i < |agg| && agg[i].account == e.account && AddedAt(agg, i, e, agg') {
        SumOfUpdate(agg, i, agg[i].amount + e.amount, k);
      } else {
        SumOfSnoc(agg, e, k);
        SumAllSnoc(agg, e);
      }
    }
    assert SumAll(agg') == SumAll(raw + [e]) by {
      if i :| 0 <= i < |agg| && agg[i].account == e.account && AddedAt(agg, i, e, agg') {
        SumOfUpdate(agg, i, agg[i].amount + e.amount, e.account);
      } else {
        SumAllSnoc(agg, e);
      }
    }
    assert (raw + [e])[|raw|] == e;
    forall i | 0 <= i < |agg'| ensures exists j :: 0 <= j < |raw + [e]| && (raw + [e])[j].account == agg'[i].account {
      if i < |agg| {
        var j :| 0 <= j < |raw| && raw[j].account == agg[i].account;
        assert (raw + [e])[j].account == agg'[i].account;
      }
    }
  }

  lemma {:induction false} OwnersAreWallets(legs: seq<Leg>, rates: Rates, j: nat)
    requires WalletOrders(legs) && j < |Deltas(legs, rates)|
    ensures Deltas(legs, rates)[j].account.Wallet?
  {
    var n := |legs| - 1;
    if j < |Deltas(legs[..n], rates)| {
      OwnersAreWallets(legs[..n], rates, j);
    }
  }

  /** Appending the exchange's own entry keeps the accounts distinct: no order belongs to the exchange. */
  lemma {:induction false} BalancingLeg(owners: seq<Entry<Address>>, legs: seq<Leg>, rates: Rates)
    requires WalletOrders(legs) && Aggregates(owners, Deltas(legs, rates))
    ensures Aggregates(owners + [Entry(EXCHANGE, ExchangeNet(legs, rates))], AllDeltas(legs, rates))
  {
    forall i | 0 <= i < |owners| ensures owners[i].account != EXCHANGE {
      var j :| 0 <= j < |Deltas(legs, rates)| && Deltas(legs, rates)[j].account == owners[i].account;
      OwnersAreWallets(legs, rates, j);
    }
    AccrualAggregates(owners, Deltas(legs, rates), Entry(EXCHANGE, ExchangeNet(legs, rates)),
                      owners + [Entry(EXCHANGE, ExchangeNet(legs, rates))]);
  }

  /**
   Aggregated deltas are affordable exactly when the batch is: the order in which the vault applies
   them does not matter.
   */
  lemma {:induction false} AggregatedPayable(balances: map<Address, int>, agg: seq<Entry<Address>>, legs: seq<Leg>,
                                             rates: Rates)
    requires NonNegative(balances) && Aggregates(agg, AllDeltas(legs, rates))
    ensures Payable(balances, agg) <==> Affordable(balances, legs, rates)
  {
    PayableDistinct(balances, agg);
    if Affordable(balances, legs, rates) {
      forall a ensures Get(balances, a) + SumOf(agg, a) >= 0 {
        assert Get(balances, a) + SumOf(AllDeltas(legs, rates), a) >= 0;
      }
    }
    if forall a :: Get(balances, a) + SumOf(agg, a) >= 0 {
      forall a ensures Get(balances, a) + SumOf(AllDeltas(legs, rates), a) >= 0 {
        assert Get(balances, a) + SumOf(agg, a) >= 0;
      }
    }
  }

  lemma {:induction false} AggregatedPosted(m: map<Address, int>, agg: seq<Entry<Address>>, raw: seq<Entry<Address>>,
                                            m': map<Address, int>)
    requires Aggregates(agg, raw) && Posted(m, agg, m')
    ensures Posted(m, raw, m')
  {
    forall a ensures Get(m', a) == Get(m, a) + SumOf(raw, a) {
      assert SumOf(agg, a) == SumOf(raw, a);
    }
  }

  /** What the vault makes of the aggregated deltas is what it makes of the legs' own. */
  lemma {:induction false} AggregateApplies(v: Custody.Vault, now: nat, batchId: nat, owners: seq<Entry<Address>>,
                                            legs: seq<Leg>, rates: Rates, r: Status<Custody.VaultError>,
                                            v': Custody.Vault)
    requires WalletOrders(legs) && Aggregates(owners, Deltas(legs, rates)) && owners == Aggregated(Deltas(legs, rates))
    requires
      var call := Custody.ApplyNetDeltas(batchId, owners + [Entry(EXCHANGE, ExchangeNet(legs, rates))]);
      Custody.Next(v, Tx(EXCHANGE, now), call, r, v')
    ensures r == ApplyVerdict(v, now, batchId, legs, rates)
    ensures if r.Committed? then BatchApplied(v, now, batchId, legs, rates, v') else v' == v
  {
    assert owners + [Entry(EXCHANGE, ExchangeNet(legs, rates))] == VaultDeltas(legs, rates);
    BalancingLeg(owners, legs, rates);
    if r.Committed? {
      AcceptedApplies(v, now, batchId, legs, rates, v');
    }
  }

  lemma {:induction false} AcceptedApplies(v: Custody.Vault, now: nat, batchId: nat, legs: seq<Leg>, rates: Rates,
                                           v': Custody.Vault)
    requires Aggregates(VaultDeltas(legs, rates), AllDeltas(legs, rates))
    requires
      Custody.Effect(v, Tx(EXCHANGE, now), Custody.ApplyNetDeltas(batchId, VaultDeltas(legs, rates)), v')
    ensures BatchApplied(v, now, batchId, legs, rates, v')
  {
    AggregatedPosted(v.balances, VaultDeltas(legs, rates), AllDeltas(legs, rates), v'.balances);
  }

  lemma {:induction false} DeltasAggregated(legs: seq<Leg>, rates: Rates)
    ensures |Deltas(legs, rates)| <= |legs|
    ensures Aggregates(Aggregated(Deltas(legs, rates)), Deltas(legs, rates))
  {
    if legs == [] {
    } else {
      var n := |legs| - 1;
      DeltasAggregated(legs[..n], rates);
      if legs[n].fill != 0 {
        var raw := Deltas(legs[..n], rates);
        var e := Entry(legs[n].order.maker, Payout(legs[n].order, legs[n].fill, legs[n].isMaker, rates));
        assert (raw + [e])[..|raw|] == raw;
        AccruedInto(Aggregated(raw), e);
        AccrualAggregates(Aggregated(raw), raw, e, AccrueInto(Aggregated(raw), e));
      }
    }
  }

  lemma {:induction false} AccruedInto<K(!new)>(agg: seq<Entry<K>>, e: Entry<K>)
    ensures Accrued(agg, e, AccrueInto(agg, e))
  {
    if agg == [] {
    } else if agg[0].account == e.account {
      assert AddedAt(agg, 0, e, AccrueInto(agg, e));
    } else {
      var rest, rest' := agg[1..], AccrueInto(agg[1..], e);
      AccruedInto(rest, e);
      if i :| 0 <= i < |rest| && rest[i].account == e.account && AddedAt(rest, i, e, rest') {
        assert agg[i + 1] == rest[i];
        assert AddedAt(agg, i + 1, e, [agg[0]] + rest');
      } else {
        forall j | 0 <= j < |agg| ensures agg[j].account != e.account {
          if j > 0 {
            assert agg[j] == rest[j - 1];
          }
        }
        assert [agg[0]] + (rest + [e]) == agg + [e];
      }
    }
  }

  /**
   The vault takes a batch exactly when it is up, authorized and fresh for it, nothing overflows and
   nobody ends overdrawn.  It never refuses one for not conserving.
   */
  lemma {:induction false} VaultTakesExactly(v: Custody.Vault, now: nat, batchId: nat, legs: seq<Leg>, rates: Rates)
    requires WalletOrders(legs)
    ensures ApplyVerdict(v, now, batchId, legs, rates) != Reverted(Custody.DeltasDoNotConserve)
    ensures ApplyVerdict(v, now, batchId, legs, rates).Committed? <==>
      && VaultAccepts(v, batchId)
      && VaultFits(v.balances, legs, rates)
      && Affordable(v.balances, legs, rates)
  {
    var agg := VaultDeltas(legs, rates);
    DeltasAggregated(legs, rates);
    BalancingLeg(Aggregated(Deltas(legs, rates)), legs, rates);
    AggregatedPayable(v.balances, agg, legs, rates);
    DeltasConserve(legs, rates);
    Custody.PostingsCommit(v.balances, agg);
  }

  /** Every order of postings with the same sums is affordable, and posts, alike. */
  lemma {:induction false} OrderIndependent(balances: map<Address, int>, a: seq<Entry<Address>>,
                                            b: seq<Entry<Address>>, balances': map<Address, int>)
    requires NonNegative(balances) && Distinct(a) && Distinct(b) && multiset(a) == multiset(b)
    ensures Payable(balances, a) <==> Payable(balances, b)
    ensures Posted(balances, a, balances') <==> Posted(balances, b, balances')
  {
    forall k ensures SumOf(a, k) == SumOf(b, k) {
      SameEntriesSameSum(a, b, k);
      SameEntriesSameSum(b, a, k);
    }
    PayableDistinct(balances, a);
    PayableDistinct(balances, b);
  }

  lemma {:induction false} SameEntriesSameSum<K>(a: seq<Entry<K>>, b: seq<Entry<K>>, k: K)
    requires Distinct(a) && Distinct(b) && multiset(a) == multiset(b)
    ensures SumOf(a, k) == SumOf(b, k)
  {
    if i :| 0 <= i < |a| && a[i].account == k {
      assert a[i] in multiset(b);
      var j :| 0 <= j < |b| && b[j] == a[i];
      SumOfDistinct(a, i);
      SumOfDistinct(b, j);
    } else {
      forall j | 0 <= j < |b| ensures b[j].account != k {
        assert b[j] in multiset(a);
      }
      SumOfAbsent(a, k);
      SumOfAbsent(b, k);
    }
  }

  // ---- Steps of the contract's loops ----

  lemma {:induction false} FillPosted(filled: map<Order, int>, legs: seq<Leg>, mid: map<Order, int>,
                                      mid': map<Order, int>)
    requires legs != [] && Posted(filled, Fills(legs[..|legs| - 1]), mid)
    requires
      var leg := legs[|legs| - 1];
      mid' == mid[leg.order := Get(mid, leg.order) + leg.fill]
    ensures Posted(filled, Fills(legs), mid')
  {
    forall o ensures Get(mid', o) == Get(filled, o) + SumOf(Fills(legs), o) {
      FillStep(legs, o);
      assert Get(mid, o) == Get(filled, o) + SumOf(Fills(legs[..|legs| - 1]), o);
    }
  }

  lemma {:induction false} PostedThen<K(!new)>(m: map<K, int>, a: seq<Entry<K>>, mid: map<K, int>,
                                               b: seq<Entry<K>>, m': map<K, int>)
    requires Posted(m, a, mid) && Posted(mid, b, m')
    ensures Posted(m, a + b, m')
  {
    forall k ensures Get(m', k) == Get(m, k) + SumOf(a + b, k) {
      SumOfConcat(a, b, k);
      assert Get(mid, k) == Get(m, k) + SumOf(a, k);
    }
  }

  /** A transfer goes through exactly when its debit is covered. */
  lemma {:induction false} TransferPayable(m: map<Holding, int>, done: seq<Entry<Holding>>, mid: map<Holding, nat>,
                                           from: Address, to: Address, p: nat, amount: nat)
    requires Posted(m, done, mid) && Payable(m, done)
    ensures Payable(m, done + ShareTransfer(from, to, p, amount)) <==> Get(mid, (from, p)) >= amount
  {
    var debit, credit := Entry((from, p), -(amount as int)), Entry((to, p), amount as int);
    assert done + ShareTransfer(from, to, p, amount) == done + [debit] + [credit];
    assert (done + [debit] + [credit])[..|done| + 1] == done + [debit];
    assert (done + [debit])[..|done|] == done;
    SumOfSnoc(done, debit, (from, p));
    SumOfSnoc(done, debit, (to, p));
    SumOfSnoc(done + [debit], credit, (to, p));
    assert Get(mid, (from, p)) == Get(m, (from, p)) + SumOf(done, (from, p));
    assert Get(mid, (to, p)) == Get(m, (to, p)) + SumOf(done, (to, p));
  }

  lemma {:induction false} PullStep(start: map<Holding, int>, legs: seq<Leg>, i: nat, mid: map<Holding, nat>,
                                    approvals: set<(Address, Address)>)
    requires i < |legs| && legs[i].fill != 0 && legs[i].order.side == SELL
    requires Posted(start, Pulls(legs[..i]), mid) && Payable(start, Pulls(legs[..i]))
    requires SellersApproved(approvals, legs[..i])
    ensures
      var o := legs[i].order;
      var goes := (o.maker, EXCHANGE) in approvals && Get(mid, (o.maker, o.positionId)) >= legs[i].fill;
      && (goes <==> SellersApproved(approvals, legs[..i + 1]) && Payable(start, Pulls(legs[..i + 1])))
      && (!goes ==> !(SellersApproved(approvals, legs) && Payable(start, Pulls(legs))))
  {
    var o := legs[i].order;
    assert legs[..i + 1][..i] == legs[..i];
    TransferPayable(start, Pulls(legs[..i]), mid, o.maker, EXCHANGE, o.positionId, legs[i].fill);
    assert legs[..i + 1][i] == legs[i];
    forall j | 0 <= j < i ensures legs[..i + 1][j] == legs[..i][j] {}
    PullsPrefix(legs, i + 1);
    var part := Pulls(legs[..i + 1]);
    assert Pulls(legs)[..|part|] == part;
    PayablePrefix(start, Pulls(legs), |part|);
  }

  lemma {:induction false} PullsPrefix(legs: seq<Leg>, n: nat)
    requires n <= |legs|
    ensures Pulls(legs[..n]) <= Pulls(legs)
    decreases |legs|
  {
    if n < |legs| {
      PullsPrefix(legs[..|legs| - 1], n);
      assert legs[..|legs| - 1][..n] == legs[..n];
    } else {
      assert legs[..n] == legs;
    }
  }

  lemma {:induction false} PushesPrefix(legs: seq<Leg>, n: nat)
    requires n <= |legs|
    ensures Pushes(legs[..n]) <= Pushes(legs)
    decreases |legs|
  {
    if n < |legs| {
      PushesPrefix(legs[..|legs| - 1], n);
      assert legs[..|legs| - 1][..n] == legs[..n];
    } else {
      assert legs[..n] == legs;
    }
  }

  /** Where the pushes up to leg `i` stand among all of them. */
  lemma {:induction false} PushesSoFar(pulls: seq<Entry<Holding>>, legs: seq<Leg>, i: nat)
    requires i < |legs| && legs[i].fill != 0 && legs[i].order.side == BUY
    ensures
      var o, done := legs[i].order, pulls + Pushes(legs[..i + 1]);
      && done == pulls + Pushes(legs[..i]) + ShareTransfer(EXCHANGE, o.maker, o.positionId, legs[i].fill)
      && |done| <= |pulls + Pushes(legs)| && (pulls + Pushes(legs))[..|done|] == done
  {
    assert legs[..i + 1][..i] == legs[..i];
    PushesPrefix(legs, i + 1);
  }

  lemma {:induction false} PushStep(start: map<Holding, int>, pulls: seq<Entry<Holding>>, legs: seq<Leg>, i: nat,
                                    mid: map<Holding, nat>)
    requires i < |legs| && legs[i].fill != 0 && legs[i].order.side == BUY
    requires Posted(start, pulls + Pushes(legs[..i]), mid) && Payable(start, pulls + Pushes(legs[..i]))
    ensures
      var goes := Get(mid, (EXCHANGE, legs[i].order.positionId)) >= legs[i].fill;
      && (goes <==> Payable(start, pulls + Pushes(legs[..i + 1])))
      && (!goes ==> !Payable(start, pulls + Pushes(legs)))
  {
    var o := legs[i].order;
    PushesSoFar(pulls, legs, i);
    TransferPayable(start, pulls + Pushes(legs[..i]), mid, EXCHANGE, o.maker, o.positionId, legs[i].fill);
    PayablePrefix(start, pulls + Pushes(legs), |pulls + Pushes(legs[..i + 1])|);
  }

  /** Where the order loop stands after `legs`: all checks passed, and its three accumulators are exact. */
  ghost predicate Progress(x: Exch, legs: seq<Leg>, now: nat, filled: map<Order, int>, agg: seq<Entry<Address>>,
                           net: int) {
    && LegsVerdict(x.nonces, x.filled, x.rates, legs, now).Committed?
    && Posted(x.filled, Fills(legs), filled)
    && agg == Aggregated(Deltas(legs, x.rates))
    && net == ExchangeNet(legs, x.rates)
  }

  /** What one leg that passes its checks adds to the three accumulators: nothing if it fills nothing. */
  ghost predicate LegAccrued(rates: Rates, leg: Leg, filled: map<Order, int>, agg: seq<Entry<Address>>, net: int,
                             filled': map<Order, int>, agg': seq<Entry<Address>>, net': int) {
    if leg.fill == 0 then filled' == filled && agg' == agg && net' == net
    else
      var payout := Payout(leg.order, leg.fill, leg.isMaker, rates);
      && filled' == filled[leg.order := Get(filled, leg.order) + leg.fill]
      && Accrued(agg, Entry(leg.order.maker, payout), agg')
      && net' == net - payout
  }

  /** The turn on leg `i` ends as what the loop has accumulated so far says. */
  lemma {:induction false} TurnKnown(x: Exch, legs: seq<Leg>, i: nat, now: nat, filled: map<Order, int>,
                                     agg: seq<Entry<Address>>, net: int)
    requires i < |legs| && Progress(x, legs[..i], now, filled, agg, net)
    ensures
      var leg := legs[i];
      LegsVerdict(x.nonces, x.filled, x.rates, legs[..i + 1], now)
        == AccrualVerdict(LegVerdict(x.nonces, Get(filled, leg.order), leg, now), leg, SumOf(agg, leg.order.maker), net,
                          Payout(leg.order, leg.fill, leg.isMaker, x.rates))
  {
    var done, leg := legs[..i], legs[i];
    assert legs[..i + 1][..i] == done;
    DeltasAggregated(done, x.rates);
    ProgressFilled(x, done, now, filled, agg, net, leg.order);
    VerdictSteps(x, legs[..i + 1], now);
    TurnIs(x, legs[..i + 1], now, Get(filled, leg.order));
  }

  lemma {:induction false} ProgressFilled(x: Exch, legs: seq<Leg>, now: nat, filled: map<Order, int>,
                                          agg: seq<Entry<Address>>, net: int, o: Order)
    requires Progress(x, legs, now, filled, agg, net)
    ensures Get(filled, o) == FilledAfter(x.filled, legs, o)
  {}

  lemma {:induction false} VerdictSteps(x: Exch, legs: seq<Leg>, now: nat)
    requires legs != [] && LegsVerdict(x.nonces, x.filled, x.rates, legs[..|legs| - 1], now).Committed?
    ensures LegsVerdict(x.nonces, x.filled, x.rates, legs, now)
         == TurnVerdict(x.nonces, x.filled, x.rates, legs, now)
  {}

  lemma {:induction false} TurnIs(x: Exch, legs: seq<Leg>, now: nat, sofar: int)
    requires legs != [] && sofar == FilledAfter(x.filled, legs[..|legs| - 1], legs[|legs| - 1].order)
    ensures
      var done, leg := legs[..|legs| - 1], legs[|legs| - 1];
      TurnVerdict(x.nonces, x.filled, x.rates, legs, now)
        == AccrualVerdict(LegVerdict(x.nonces, sofar, leg, now), leg, SumOf(Deltas(done, x.rates), leg.order.maker),
                          ExchangeNet(done, x.rates), Payout(leg.order, leg.fill, leg.isMaker, x.rates))
  {
    if legs[|legs| - 1].fill != 0 {
      TurnAdds(legs, x.rates);
    }
  }

  /** What the accumulators are after one leg more. */
  lemma {:induction false} AccumulatorsStep(x: Exch, legs: seq<Leg>, filled: map<Order, int>,
                                            agg: seq<Entry<Address>>, net: int,
                                            filled': map<Order, int>, agg': seq<Entry<Address>>, net': int)
    requires legs != []
    requires
      var done := legs[..|legs| - 1];
      && Posted(x.filled, Fills(done), filled) && agg == Aggregated(Deltas(done, x.rates))
      && net == ExchangeNet(done, x.rates)
    requires LegAccrued(x.rates, legs[|legs| - 1], filled, agg, net, filled', agg', net')
    ensures Posted(x.filled, Fills(legs), filled') && agg' == Aggregated(Deltas(legs, x.rates))
    ensures net' == ExchangeNet(legs, x.rates)
  {
    var done, leg := legs[..|legs| - 1], legs[|legs| - 1];
    if leg.fill != 0 {
      var raw := Deltas(done, x.rates);
      var e := Entry(leg.order.maker, Payout(leg.order, leg.fill, leg.isMaker, x.rates));
      FillPosted(x.filled, legs, filled, filled');
      DeltasAggregated(done, x.rates);
      AccruedIs(agg, e, agg');
      assert (raw + [e])[..|raw|] == raw;
      SumAllSnoc(raw, e);
    }
  }

  /** One turn of the order loop on leg `i`: it ends the loop with its reason, or the accumulators stay exact. */
  lemma {:induction false} OrderTurn(x: Exch, legs: seq<Leg>, i: nat, now: nat,
                                     filled: map<Order, int>, agg: seq<Entry<Address>>, net: int, r: Result,
                                     filled': map<Order, int>, agg': seq<Entry<Address>>, net': int)
    requires i < |legs| && Progress(x, legs[..i], now, filled, agg, net)
    requires
      var leg := legs[i];
      r == AccrualVerdict(LegVerdict(x.nonces, Get(filled, leg.order), leg, now), leg, SumOf(agg, leg.order.maker), net,
                          Payout(leg.order, leg.fill, leg.isMaker, x.rates))
    requires r.Committed? ==> LegAccrued(x.rates, legs[i], filled, agg, net, filled', agg', net')
    ensures if r.Committed? then Progress(x, legs[..i + 1], now, filled', agg', net')
            else r == LegsVerdict(x.nonces, x.filled, x.rates, legs, now)
  {
    TurnKnown(x, legs, i, now, filled, agg, net);
    if r.Committed? {
      assert legs[..i + 1][..i] == legs[..i];
      AccumulatorsStep(x, legs[..i + 1], filled, agg, net, filled', agg', net');
    } else {
      FirstFailureDecides(x, legs, i + 1, now);
    }
  }

  lemma {:induction false} ProgressDistinct(x: Exch, legs: seq<Leg>, now: nat, filled: map<Order, int>,
                                            agg: seq<Entry<Address>>, net: int)
    requires Progress(x, legs, now, filled, agg, net)
    ensures Distinct(agg)
  {
    DeltasAggregated(legs, x.rates);
  }

  /** The parallel arrays of the netting loop hold the exact sum of every position seen, once. */
  ghost predicate Netted(positions: seq<nat>, nets: seq<int>, raw: seq<Entry<nat>>) {
    && |positions| == |nets|
    && (forall j, k | 0 <= j < k < |positions| :: positions[j] != positions[k])
    && (forall j | 0 <= j < |positions| :: nets[j] == SumOf(raw, positions[j]))
    && (forall p: nat | p !in positions :: SumOf(raw, p) == 0)
  }

  /** The parallel arrays are all zero exactly when every position nets to zero. */
  lemma {:induction false} NettedZero(legs: seq<Leg>, positions: seq<nat>, nets: seq<int>)
    requires Netted(positions, nets, ShareNets(legs))
    ensures (forall j | 0 <= j < |nets| :: nets[j] == 0) <==> ShareBalanced(legs)
  {
    var raw := ShareNets(legs);
    if forall j | 0 <= j < |nets| :: nets[j] == 0 {
      forall p: nat ensures SumOf(raw, p) == 0 {
        if p in positions {
          var j :| 0 <= j < |positions| && positions[j] == p;
          assert nets[j] == SumOf(raw, positions[j]);
        }
      }
    }
    if ShareBalanced(legs) {
      forall j | 0 <= j < |nets| ensures nets[j] == 0 {
        var p: nat := positions[j];
        assert SumOf(raw, p) == 0;
      }
    }
  }

  /** What the arrays hold for position `p`: nothing is zero. */
  ghost predicate NetIs(positions: seq<nat>, nets: seq<int>, p: nat, net: int) {
    && |positions| == |nets|
    && (forall j | 0 <= j < |positions| && positions[j] == p :: nets[j] == net)
    && (p !in positions ==> net == 0)
  }

  lemma {:induction false} NetKnown(positions: seq<nat>, nets: seq<int>, raw: seq<Entry<nat>>, p: nat)
    requires Netted(positions, nets, raw)
    ensures NetIs(positions, nets, p, SumOf(raw, p))
  {}

  ghost predicate NetAdded(positions: seq<nat>, nets: seq<int>, e: Entry<nat>, positions': seq<nat>, nets': seq<int>) {
    && |positions| == |nets|
    && (|| (exists j | 0 <= j < |positions| && positions[j] == e.account ::
              positions' == positions && nets' == nets[j := nets[j] + e.amount])
        || (e.account !in positions && positions' == positions + [e.account] && nets' == nets + [e.amount]))
  }

  lemma {:induction false} NettedSteps(positions: seq<nat>, nets: seq<int>, raw: seq<Entry<nat>>, e: Entry<nat>,
                                       positions': seq<nat>, nets': seq<int>)
    requires Netted(positions, nets, raw) && NetAdded(positions, nets, e, positions', nets')
    ensures Netted(positions', nets', raw + [e])
  {
    forall p: nat ensures SumOf(raw + [e], p) == SumOf(raw, p) + if e.account == p then e.amount else 0 {
      SumOfSnoc(raw, e, p);
    }
  }

  /** One turn of the netting loop on leg `i`: what it adds, and whether that overflows. */
  lemma {:induction false} NettingTurn(legs: seq<Leg>, i: nat)
    requires i < |legs| && NettingFits(legs[..i])
    ensures
      var leg, raw := legs[i], ShareNets(legs[..i]);
      && ShareNets(legs[..i + 1]) == NetsWith(raw, leg)
      && (NettingFits(legs[..i + 1]) <==> LegNets(leg, SumOf(raw, leg.order.positionId)))
    ensures !NettingFits(legs[..i + 1]) ==> !NettingFits(legs)
  {
    var leg := legs[i];
    assert legs[..i + 1][..i] == legs[..i];
    SumOfSnoc(ShareNets(legs[..i]), Entry(leg.order.positionId, ShareDelta(leg)), leg.order.positionId);
    NettingFitsPrefix(legs, i + 1);
  }

  function NetsWith(raw: seq<Entry<nat>>, leg: Leg): seq<Entry<nat>> {
    if leg.fill == 0 then raw else raw + [Entry(leg.order.positionId, ShareDelta(leg))]
  }

  /** A leg can be added to a position's net so far. */
  predicate LegNets(leg: Leg, net: int) {
    leg.fill == 0 || (Signed256(ShareDelta(leg)) && Signed256(net + ShareDelta(leg)))
  }

  /** A filled buy among the pushes: one transfer more. */
  lemma {:induction false} PushedSteps(start: map<Holding, int>, pulls: seq<Entry<Holding>>, legs: seq<Leg>, i: nat,
                                       mid: map<Holding, int>, shares: map<Holding, int>)
    requires i < |legs| && legs[i].fill != 0 && legs[i].order.side == BUY
    requires Posted(start, pulls + Pushes(legs[..i]), mid)
    requires Posted(mid, ShareTransfer(EXCHANGE, legs[i].order.maker, legs[i].order.positionId, legs[i].fill), shares)
    ensures Posted(start, pulls + Pushes(legs[..i + 1]), shares)
  {
    var move := ShareTransfer(EXCHANGE, legs[i].order.maker, legs[i].order.positionId, legs[i].fill);
    PostedThen(start, pulls + Pushes(legs[..i]), mid, move, shares);
    assert legs[..i + 1][..i] == legs[..i];
    assert pulls + Pushes(legs[..i]) + move == pulls + Pushes(legs[..i + 1]);
  }
}
