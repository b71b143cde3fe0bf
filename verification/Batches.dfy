/** What a committed settlement batch guarantees, and exactly when a batch commits. */
module Batches {
  import opened Chain
  import opened Ledgers
  import opened Fees
  import opened Settlement
  import opened Exchange
  import Custody

  // ---- Exactly when a batch commits ----

  /** Every seller approved the exchange and holds what its sell legs fill. */
  ghost predicate SellersDeliver(w: World, legs: seq<Leg>) {
    && SellersApproved(w.approvals, legs)
    && forall maker, p: nat | maker != EXCHANGE :: SoldBy(legs, maker, p) <= Get(w.shares, (maker, p))
  }

  /** Neither the order loop nor the vault's loops overflow on the batch. */
  predicate UsdcFits(w: World, legs: seq<Leg>) {
    AccumulatorsFit(legs, w.exch.rates) && VaultFits(w.vault.balances, legs, w.exch.rates)
  }

  /**
   A batch goes through exactly when its legs are admissible, the exchange does not lose USDC, the
   vault takes it, nobody ends overdrawn, every position nets to zero, the sellers can deliver, and no
   sum formed on the way overflows.  But for the overflows, the order of the legs does not matter.
   */
  lemma {:induction false} LegsSettleExactly(w: World, tx: Tx, batchId: nat, legs: seq<Leg>)
    requires SmallFills(legs)
    ensures LegsSettle(w, tx, batchId, legs).Committed? <==>
      && Admissible(w.exch, legs, tx.now)
      && ExchangeNet(legs, w.exch.rates) >= 0
      && VaultAccepts(w.vault, batchId)
      && Affordable(w.vault.balances, legs, w.exch.rates)
      && ShareBalanced(legs)
      && SellersDeliver(w, legs)
      && UsdcFits(w, legs) && NettingFits(legs)
  {
    ChecksMeanAdmissible(w.exch, legs, tx.now);
    if Admissible(w.exch, legs, tx.now) {
      AdmissibleOwners(w.exch, legs, tx.now);
      VaultTakesExactly(w.vault, tx.now, batchId, legs, w.exch.rates);
      if ShareBalanced(legs) {
        NoInventoryNeeded(w.shares, legs);
      }
    }
  }

  /** The whole call, guards included. */
  lemma {:induction false} BatchCommitsExactly(w: World, tx: Tx, batchId: nat, orders: seq<SignedOrder>,
                                               fills: seq<uint256>, isMaker: seq<bool>)
    requires forall i | 0 <= i < |fills| :: fills[i] < TWO_255
    ensures BatchVerdict(w, tx, batchId, orders, fills, isMaker).Committed? <==>
      && (Operator, tx.sender) in w.exch.roles && !w.exch.paused && batchId !in w.exch.settled
      && |orders| == |fills| == |isMaker|
      && var legs := Legs(orders, fills, isMaker);
      && Admissible(w.exch, legs, tx.now)
      && ExchangeNet(legs, w.exch.rates) >= 0
      && VaultAccepts(w.vault, batchId)
      && Affordable(w.vault.balances, legs, w.exch.rates)
      && ShareBalanced(legs)
      && SellersDeliver(w, legs)
      && UsdcFits(w, legs) && NettingFits(legs)
  {
    if |orders| == |fills| == |isMaker| {
      LegsSettleExactly(w, tx, batchId, Legs(orders, fills, isMaker));
    }
  }

  /** The operator may settle this batch now. */
  predicate OperatorMaySettle(x: Exch, sender: Address, batchId: nat) {
    (Operator, sender) in x.roles && !x.paused && batchId !in x.settled
  }

  /** The call that settles `legs`. */
  ghost function CallVerdict(w: World, tx: Tx, batchId: nat, legs: seq<Leg>): Result {
    BatchVerdict(w, tx, batchId, OrdersOf(legs), FillsOf(legs), RolesOf(legs))
  }

  lemma {:induction false} CallCommitsExactly(w: World, tx: Tx, batchId: nat, legs: seq<Leg>)
    ensures CallVerdict(w, tx, batchId, legs).Committed? <==>
      OperatorMaySettle(w.exch, tx.sender, batchId) && LegsSettle(w, tx, batchId, legs).Committed?
  {
    LegsTakenApart(legs);
  }

  // ---- Shares pass through ----

  /**
   A committed batch leaves the exchange's share balance of every position as it was exactly when
   every filled leg has side 0 or 1; otherwise the exchange keeps what the other legs were to get.
   */
  lemma {:induction false} CommittedBatchPassesThrough(w: World, tx: Tx, batchId: nat, legs: seq<Leg>, w': World)
    requires SmallFills(legs) && LegsSettle(w, tx, batchId, legs).Committed? && BatchEffect(w, tx, batchId, legs, w')
    ensures forall p: nat :: Get(w'.shares, (EXCHANGE, p)) == Get(w.shares, (EXCHANGE, p)) + Undelivered(legs, p)
    ensures (forall p: nat :: Get(w'.shares, (EXCHANGE, p)) == Get(w.shares, (EXCHANGE, p))) <==> TwoSided(legs)
  {
    ChecksMeanAdmissible(w.exch, legs, tx.now);
    AdmissibleOwners(w.exch, legs, tx.now);
    PassthroughExactlyWhenTwoSided(legs);
    forall p: nat
      ensures Get(w'.shares, (EXCHANGE, p))
           == Get(w.shares, (EXCHANGE, p)) + SumOf(Pulls(legs) + Pushes(legs), (EXCHANGE, p))
    {}
    if !TwoSided(legs) {
      var p: nat :| SumOf(Pulls(legs) + Pushes(legs), (EXCHANGE, p)) != 0;
      assert Get(w'.shares, (EXCHANGE, p)) != Get(w.shares, (EXCHANGE, p));
    }
  }

  /**
   With fills of any size: a committed two-sided batch leaves the exchange's share balance of a position
   as it was, if the balance after the pulls fits in 256 bits.
   */
  lemma {:induction false} CommittedTwoSidedPassesThrough(w: World, tx: Tx, batchId: nat, legs: seq<Leg>, w': World,
                                                          p: nat)
    requires LegsSettle(w, tx, batchId, legs).Committed? && BatchEffect(w, tx, batchId, legs, w') && TwoSided(legs)
    requires Get(w.shares, (EXCHANGE, p)) + Sold(legs, p) < TWO_256
    ensures Get(w'.shares, (EXCHANGE, p)) == Get(w.shares, (EXCHANGE, p))
  {
    ChecksMeanAdmissible(w.exch, legs, tx.now);
    AdmissibleOwners(w.exch, legs, tx.now);
    ExchangeShareFlow(legs, p);
    assert Get(w'.shares, (EXCHANGE, p))
        == Get(w.shares, (EXCHANGE, p)) + SumOf(Pulls(legs) + Pushes(legs), (EXCHANGE, p));
    assert SumOf(ShareNets(legs), p) == 0;
    PassthroughWithWrappedFills(legs, p, Get(w.shares, (EXCHANGE, p)));
  }

  /** Two orders for ten free shares at position 5: one sells, the other has side 2. */
  const FREE_SELL := Order(0, Wallet(1), 5, 0, 10, SELL, 0, 100)
  const FREE_OTHER := Order(0, Wallet(2), 5, 0, 10, 2, 0, 100)
  const FREE_LEGS: seq<Leg> := [Leg(FREE_SELL, SignedBy(1), 10, true), Leg(FREE_OTHER, SignedBy(2), 10, true)]

  /** An exchange in service whose first seller approved it and holds ten shares. */
  function FreeWorld(operator: Address, rates: Rates): World {
    World(
      Custody.Vault(map[], map[], map[], {}, 0, Custody.MIN_INACTIVITY_THRESHOLD, false,
          {(Chain.Settlement, EXCHANGE)}),
      Exch(map[], map[], {}, rates, false, {(Operator, operator)}),
      map[(Wallet(1), 5) := 10], {(Wallet(1), EXCHANGE)})
  }

  /** A batch that commits and strands ten shares with the exchange. */
  lemma {:induction false} StrandedShares(operator: Address, rates: Rates)
    returns (w: World, tx: Tx, orders: seq<SignedOrder>, fills: seq<uint256>, isMaker: seq<bool>)
    ensures |orders| == |fills| == |isMaker| && BatchVerdict(w, tx, 1, orders, fills, isMaker).Committed?
    ensures w.exch.rates == rates && Get(w.shares, (EXCHANGE, 5)) == 0
    ensures forall w' | BatchEffect(w, tx, 1, Legs(orders, fills, isMaker), w') :: Get(w'.shares, (EXCHANGE, 5)) == 10
  {
    w, tx := FreeWorld(operator, rates), Tx(operator, 1);
    orders := [SignedOrder(FREE_SELL, SignedBy(1)), SignedOrder(FREE_OTHER, SignedBy(2))];
    fills, isMaker := [10, 10], [true, true];
    assert Legs(orders, fills, isMaker) == FREE_LEGS;
    FreeLegsCommit(operator, rates, tx, orders, fills, isMaker);
    FreeFlows(5, EXCHANGE);
    forall w' | BatchEffect(w, tx, 1, FREE_LEGS, w') ensures Get(w'.shares, (EXCHANGE, 5)) == 10 {
      CommittedBatchPassesThrough(w, tx, 1, FREE_LEGS, w');
    }
  }

  lemma {:induction false} FreeLegsCommit(operator: Address, rates: Rates, tx: Tx, orders: seq<SignedOrder>,
                                          fills: seq<uint256>, isMaker: seq<bool>)
    requires tx == Tx(operator, 1) && |orders| == |fills| == |isMaker| && fills == [10, 10]
    requires Legs(orders, fills, isMaker) == FREE_LEGS
    ensures BatchVerdict(FreeWorld(operator, rates), tx, 1, orders, fills, isMaker).Committed?
  {
    var w := FreeWorld(operator, rates);
    FreeLegsAdmissible(w.exch);
    FreeLegsAffordable(rates);
    FreeDeltas(rates);
    FreeLegsFit(rates);
    FreeLegsBalance();
    FreeLegsDelivered(operator, rates);
    BatchCommitsExactly(w, tx, 1, orders, fills, isMaker);
  }

  lemma {:induction false} FreeLegsDelivered(operator: Address, rates: Rates)
    ensures SellersDeliver(FreeWorld(operator, rates), FREE_LEGS)
  {
    var w := FreeWorld(operator, rates);
    forall maker, p: nat | maker != EXCHANGE ensures SoldBy(FREE_LEGS, maker, p) <= Get(w.shares, (maker, p)) {
      FreeFlows(p, maker);
    }
  }

  lemma {:induction false} FirstFreeLeg()
    ensures FREE_LEGS[..1] == [FREE_LEGS[0]] && FREE_LEGS[..1][..0] == []
  {}

  lemma {:induction false} FreeLegsAdmissible(x: Exch)
    requires x.filled == map[] && x.nonces == map[]
    ensures Admissible(x, FREE_LEGS, 1)
  {
    var legs := FREE_LEGS;
    FirstFreeLeg();
    forall o ensures SumOf(Fills(legs), o) == (if o == FREE_SELL then 10 else 0) + (if o == FREE_OTHER then 10 else 0) {
      FillStep(legs, o);
      FillStep(legs[..1], o);
    }
  }

  /** At price zero nothing is paid and nothing is charged. */
  lemma {:induction false} FreePayout(o: Order, rates: Rates)
    requires o.price == 0 && o.side != BUY
    ensures Payout(o, 10, true, rates) == 0
  {
    assert Volume(o, 10) == 0;
    assert Fee(0, true, rates) == 0;
  }

  lemma {:induction false} TwoFreeDeltas(a: Leg, b: Leg, rates: Rates)
    requires a.fill != 0 && Payout(a.order, a.fill, a.isMaker, rates) == 0
    requires b.fill != 0 && Payout(b.order, b.fill, b.isMaker, rates) == 0
    ensures Deltas([a], rates) == [Entry(a.order.maker, 0)]
    ensures Deltas([a, b], rates) == [Entry(a.order.maker, 0)] + [Entry(b.order.maker, 0)]
    ensures ExchangeNet([a], rates) == 0 && ExchangeNet([a, b], rates) == 0
  {
    assert [a, b][..1] == [a] && [a][..0] == [];
    assert Deltas([], rates) == [];
    assert Deltas([a], rates) == [] + [Entry(a.order.maker, 0)];
    SumAllSnoc([], Entry(a.order.maker, 0));
    SumAllSnoc([Entry(a.order.maker, 0)], Entry(b.order.maker, 0));
  }

  lemma {:induction false} FreeDeltas(rates: Rates)
    ensures Deltas(FREE_LEGS[..1], rates) == [Entry(Wallet(1), 0)]
    ensures Deltas(FREE_LEGS, rates) == [Entry(Wallet(1), 0)] + [Entry(Wallet(2), 0)]
    ensures ExchangeNet(FREE_LEGS[..1], rates) == 0 && ExchangeNet(FREE_LEGS, rates) == 0
  {
    FirstFreeLeg();
    FreePayout(FREE_SELL, rates);
    FreePayout(FREE_OTHER, rates);
    TwoFreeDeltas(FREE_LEGS[0], FREE_LEGS[1], rates);
  }

  lemma {:induction false} FreeLegsAffordable(rates: Rates)
    ensures Affordable(map[], FREE_LEGS, rates)
  {
    var d1, d2 := Entry(Wallet(1), 0), Entry(Wallet(2), 0);
    FreeDeltas(rates);
    forall a ensures SumOf(AllDeltas(FREE_LEGS, rates), a) == 0 {
      SumOfSnoc([d1] + [d2], Entry(EXCHANGE, 0), a);
      SumOfSnoc([d1], d2, a);
      SumOfOne(d1, a);
    }
  }

  /** Postings of nothing overflow nowhere. */
  lemma {:induction false} NothingFits(m: map<Address, int>, es: seq<Entry<Address>>)
    requires forall i | 0 <= i < |es| :: es[i].amount == 0
    ensures Custody.SumFits(es) && Custody.PostingsFit(m, es) && SumAll(es) == 0
  {
    if es == [] {
    } else {
      NothingFits(m, es[..|es| - 1]);
    }
  }

  lemma {:induction false} AggregatedTwo(a: Entry<Address>, b: Entry<Address>)
    requires a.account != b.account
    ensures Aggregated([a] + [b]) == [a] + [b]
  {
    assert ([a] + [b])[..1] == [a] && [a][..0] == [] && [a][1..] == [];
    assert Aggregated<Address>([]) == [] && Aggregated([a]) == [a];
    assert AccrueInto([a], b) == [a] + AccrueInto([], b);
  }

  lemma {:induction false} TwoLegsFit(a: Leg, b: Leg, rates: Rates)
    requires a.fill != 0 && Payout(a.order, a.fill, a.isMaker, rates) == 0
    requires b.fill != 0 && Payout(b.order, b.fill, b.isMaker, rates) == 0
    ensures AccumulatorsFit([a, b], rates)
  {
    var da, db := Entry(a.order.maker, 0), Entry(b.order.maker, 0);
    TwoFreeDeltas(a, b, rates);
    assert [a, b][..1] == [a] && [a][..0] == [];
    SumOfOne(da, a.order.maker);
    SumOfOne(da, b.order.maker);
    SumOfSnoc([da], db, b.order.maker);
    assert AccumulatorsFit([], rates);
    assert AccumulatorsFit([a], rates);
  }

  lemma {:induction false} FreeLegsFit(rates: Rates)
    ensures AccumulatorsFit(FREE_LEGS, rates) && VaultFits(map[], FREE_LEGS, rates)
  {
    var d1, d2 := Entry(Wallet(1), 0), Entry(Wallet(2), 0);
    FreeDeltas(rates);
    FreePayout(FREE_SELL, rates);
    FreePayout(FREE_OTHER, rates);
    TwoLegsFit(FREE_LEGS[0], FREE_LEGS[1], rates);
    AggregatedTwo(d1, d2);
    NothingFits(map[], [d1] + [d2] + [Entry(EXCHANGE, 0)]);
  }

  lemma {:induction false} FreeFlows(p: nat, maker: Address)
    ensures Sold(FREE_LEGS, p) == (if p == 5 then 10 else 0) == Undelivered(FREE_LEGS, p)
    ensures Bought(FREE_LEGS, p) == 0
    ensures SoldBy(FREE_LEGS, maker, p) == if p == 5 && maker == Wallet(1) then 10 else 0
  {
    FirstFreeLeg();
    FirstFreeFlows(p, maker);
  }

  lemma {:induction false} FirstFreeFlows(p: nat, maker: Address)
    ensures Sold(FREE_LEGS[..1], p) == if p == 5 then 10 else 0
    ensures Bought(FREE_LEGS[..1], p) == 0
    ensures Undelivered(FREE_LEGS[..1], p) == 0
    ensures SoldBy(FREE_LEGS[..1], maker, p) == if p == 5 && maker == Wallet(1) then 10 else 0
  {
    FirstFreeLeg();
    assert Sold([], p) == 0;
    assert Bought([], p) == 0;
    assert Undelivered([], p) == 0;
    assert SoldBy([], maker, p) == 0;
  }

  lemma {:induction false} FreeLegsBalance()
    ensures ShareBalanced(FREE_LEGS) && NettingFits(FREE_LEGS)
  {
    forall p: nat ensures SumOf(ShareNets(FREE_LEGS), p) == 0 && Sold(FREE_LEGS, p) < TWO_255 {
      NetsAreFlows(FREE_LEGS, p);
      FreeFlows(p, Zero);
    }
    BalancedNettingFits(FREE_LEGS);
  }

  // ---- Non-custodial ----

  /** Someone signed for `a` in this batch, and the leg fills something. */
  ghost predicate SignedFor(legs: seq<Leg>, a: Address) {
    exists i :: 0 <= i < |legs| && legs[i].fill != 0 && legs[i].order.maker == a
        && Recover(legs[i].signature) == Recovered(a)
  }

  lemma {:induction false} DeltasNeedLegs(legs: seq<Leg>, rates: Rates, a: Address)
    requires forall i | 0 <= i < |legs| && legs[i].fill != 0 :: legs[i].order.maker != a
    ensures SumOf(Deltas(legs, rates), a) == 0
  {
    if legs == [] {
    } else {
      var n := |legs| - 1;
      DeltasNeedLegs(legs[..n], rates, a);
      var leg := legs[n];
      SumOfSnoc(Deltas(legs[..n], rates), Entry(leg.order.maker, Payout(leg.order, leg.fill, leg.isMaker, rates)), a);
    }
  }

  lemma {:induction false} PullsNeedLegs(legs: seq<Leg>, h: Holding)
    requires h.0 != EXCHANGE && forall i | 0 <= i < |legs| && legs[i].fill != 0 :: legs[i].order.maker != h.0
    ensures SumOf(Pulls(legs), h) == 0
  {
    if legs == [] {
    } else {
      var n := |legs| - 1;
      PullsNeedLegs(legs[..n], h);
      var o, fill := legs[n].order, legs[n].fill;
      SumOfConcat(Pulls(legs[..n]), ShareTransfer(o.maker, EXCHANGE, o.positionId, fill), h);
      ShareTransferSums(o.maker, EXCHANGE, o.positionId, fill, h);
    }
  }

  lemma {:induction false} PushesNeedLegs(legs: seq<Leg>, h: Holding)
    requires h.0 != EXCHANGE && forall i | 0 <= i < |legs| && legs[i].fill != 0 :: legs[i].order.maker != h.0
    ensures SumOf(Pushes(legs), h) == 0
  {
    if legs == [] {
    } else {
      var n := |legs| - 1;
      PushesNeedLegs(legs[..n], h);
      var o, fill := legs[n].order, legs[n].fill;
      SumOfConcat(Pushes(legs[..n]), ShareTransfer(EXCHANGE, o.maker, o.positionId, fill), h);
      ShareTransferSums(EXCHANGE, o.maker, o.positionId, fill, h);
    }
  }

  /**
   The operator moves nothing the signatures do not justify: in a committed batch, no account but the
   exchange's own has its USDC or any of its shares moved without a leg it signed itself.
   */
  lemma {:induction false} OnlySignersMove(w: World, tx: Tx, batchId: nat, legs: seq<Leg>, w': World, a: Address,
                                           p: nat)
    requires LegsSettle(w, tx, batchId, legs).Committed? && BatchEffect(w, tx, batchId, legs, w')
    requires a != EXCHANGE && !SignedFor(legs, a)
    ensures Get(w'.vault.balances, a) == Get(w.vault.balances, a)
    ensures Get(w'.shares, (a, p)) == Get(w.shares, (a, p))
  {
    ChecksMeanAdmissible(w.exch, legs, tx.now);
    forall i | 0 <= i < |legs| && legs[i].fill != 0 ensures legs[i].order.maker != a {
      assert Authentic(w.exch, legs[i], tx.now);
    }
    DeltasNeedLegs(legs, w.exch.rates, a);
    SumOfSnoc(Deltas(legs, w.exch.rates), Entry(EXCHANGE, ExchangeNet(legs, w.exch.rates)), a);
    PullsNeedLegs(legs, (a, p));
    PushesNeedLegs(legs, (a, p));
    SumOfConcat(Pulls(legs), Pushes(legs), (a, p));
  }

  // ---- What an owner gets ----

  function BoughtBy(legs: seq<Leg>, maker: Address, p: nat): nat {
    if legs == [] then 0
    else
      var leg := legs[|legs| - 1];
      BoughtBy(legs[..|legs| - 1], maker, p)
      + if leg.order.positionId == p && leg.order.side == BUY && leg.order.maker == maker then leg.fill else 0
  }

  lemma {:induction false} PushesReach(legs: seq<Leg>, maker: Address, p: nat)
    requires WalletOrders(legs) && maker != EXCHANGE
    ensures SumOf(Pushes(legs), (maker, p)) == BoughtBy(legs, maker, p)
  {
    if legs == [] {
    } else {
      var n := |legs| - 1;
      PushesReach(legs[..n], maker, p);
      var o, fill := legs[n].order, legs[n].fill;
      SumOfConcat(Pushes(legs[..n]), ShareTransfer(EXCHANGE, o.maker, o.positionId, fill), (maker, p));
      ShareTransferSums(EXCHANGE, o.maker, o.positionId, fill, (maker, p));
    }
  }

  /** A batch moves an owner's shares of a position by exactly what its buy and sell legs fill. */
  lemma {:induction false} OwnerShareFlow(legs: seq<Leg>, maker: Address, p: nat)
    requires WalletOrders(legs) && maker != EXCHANGE
    ensures SumOf(Pulls(legs) + Pushes(legs), (maker, p)) == BoughtBy(legs, maker, p) - SoldBy(legs, maker, p)
  {
    PullsPost(legs, p, maker);
    PushesReach(legs, maker, p);
    SumOfConcat(Pulls(legs), Pushes(legs), (maker, p));
  }

  // ---- What one order settles for, to the unit ----

  /** Leg `i` is the only filled leg of its owner. */
  ghost predicate OnlyLeg(legs: seq<Leg>, i: nat)
    requires i < |legs|
  {
    forall j | 0 <= j < |legs| && j != i && legs[j].fill != 0 :: legs[j].order.maker != legs[i].order.maker
  }

  lemma {:induction false} OnlyLegInit(legs: seq<Leg>, i: nat)
    requires i < |legs| - 1 && OnlyLeg(legs, i)
    ensures OnlyLeg(legs[..|legs| - 1], i)
  {
    var init := legs[..|legs| - 1];
    forall j | 0 <= j < |init| && j != i && init[j].fill != 0 ensures init[j].order.maker != init[i].order.maker {
      assert init[j] == legs[j];
    }
  }

  lemma {:induction false} OnlyLegPays(legs: seq<Leg>, rates: Rates, i: nat)
    requires i < |legs| && legs[i].fill != 0 && OnlyLeg(legs, i)
    ensures SumOf(Deltas(legs, rates), legs[i].order.maker)
         == Payout(legs[i].order, legs[i].fill, legs[i].isMaker, rates)
  {
    var n := |legs| - 1;
    var a := legs[i].order.maker;
    var leg := legs[n];
    SumOfSnoc(Deltas(legs[..n], rates),
              Entry(leg.order.maker, Payout(leg.order, leg.fill, leg.isMaker, rates)), a);
    if i == n {
      forall j | 0 <= j < n && legs[..n][j].fill != 0 ensures legs[..n][j].order.maker != a {
        assert legs[j].order.maker != a;
      }
      DeltasNeedLegs(legs[..n], rates, a);
    } else {
      OnlyLegInit(legs, i);
      OnlyLegPays(legs[..n], rates, i);
    }
  }

  lemma {:induction false} OnlyLegFills(legs: seq<Leg>, i: nat)
    requires i < |legs| && legs[i].fill != 0 && OnlyLeg(legs, i)
    ensures SumOf(Fills(legs), legs[i].order) == legs[i].fill
  {
    var n := |legs| - 1;
    var o := legs[i].order;
    FillStep(legs, o);
    if i == n {
      NoLegNoFill(legs[..n], o);
    } else {
      OnlyLegInit(legs, i);
      OnlyLegFills(legs[..n], i);
    }
  }

  lemma {:induction false} NoLegNoFill(legs: seq<Leg>, o: Order)
    requires forall j | 0 <= j < |legs| && legs[j].fill != 0 :: legs[j].order.maker != o.maker
    ensures SumOf(Fills(legs), o) == 0
  {
    if legs == [] {
    } else {
      FillStep(legs, o);
      NoLegNoFill(legs[..|legs| - 1], o);
    }
  }

  /** Shares of position `p` that one leg moves to its owner. */
  function LegShares(leg: Leg, p: nat): int {
    if leg.order.positionId != p then 0
    else if leg.order.side == 0 then leg.fill
    else if leg.order.side == 1 then -(leg.fill as int)
    else 0
  }

  lemma {:induction false} NoLegNoShares(legs: seq<Leg>, maker: Address, p: nat)
    requires forall j | 0 <= j < |legs| && legs[j].fill != 0 :: legs[j].order.maker != maker
    ensures BoughtBy(legs, maker, p) == SoldBy(legs, maker, p) == 0
  {
    if legs == [] {
    } else {
      NoLegNoShares(legs[..|legs| - 1], maker, p);
    }
  }

  lemma {:induction false} OnlyLegShares(legs: seq<Leg>, i: nat, p: nat)
    requires i < |legs| && legs[i].fill != 0 && OnlyLeg(legs, i)
    ensures BoughtBy(legs, legs[i].order.maker, p) - SoldBy(legs, legs[i].order.maker, p) == LegShares(legs[i], p)
  {
    var n := |legs| - 1;
    if i == n {
      NoLegNoShares(legs[..n], legs[i].order.maker, p);
    } else {
      OnlyLegInit(legs, i);
      OnlyLegShares(legs[..n], i, p);
    }
  }

  lemma {:induction false} OneLegPaid(w: World, tx: Tx, batchId: nat, legs: seq<Leg>, w': World, i: nat)
    returns (v: nat, c: nat)
    requires WalletOrders(legs) && BatchEffect(w, tx, batchId, legs, w')
    requires i < |legs| && legs[i].fill != 0 && OnlyLeg(legs, i)
    ensures
      var o, product := legs[i].order, legs[i].fill * legs[i].order.price;
      if o.side == 0 then product <= 1_000_000 * v < product + 1_000_000
      else 1_000_000 * v <= product < 1_000_000 * (v + 1)
    ensures
      if legs[i].isMaker
      then 10_000 * c <= v * w.exch.rates.makerRebateBps < 10_000 * (c + 1)
      else v * w.exch.rates.takerFeeBps <= 10_000 * c < v * w.exch.rates.takerFeeBps + 10_000
    ensures
      var o := legs[i].order;
      Get(w'.vault.balances, o.maker) - Get(w.vault.balances, o.maker) ==
        if o.side == 0 then (if legs[i].isMaker then c - v else 0 - v - c)
        else (if legs[i].isMaker then v + c else v - c)
  {
    var leg, o, rates := legs[i], legs[i].order, w.exch.rates;
    v := Volume(o, leg.fill);
    var fee := Fee(v, leg.isMaker, rates);
    VolumeRounds(o, leg.fill);
    FeeRounds(v, rates);
    c := if leg.isMaker then -fee else fee;
    OnlyLegPays(legs, rates, i);
    SumOfSnoc(Deltas(legs, rates), Entry(EXCHANGE, ExchangeNet(legs, rates)), o.maker);
    assert Get(w'.vault.balances, o.maker) == Get(w.vault.balances, o.maker) + SumOf(AllDeltas(legs, rates), o.maker);
  }

  lemma {:induction false} OneLegDelivered(w: World, tx: Tx, batchId: nat, legs: seq<Leg>, w': World, i: nat, p: nat)
    requires WalletOrders(legs) && BatchEffect(w, tx, batchId, legs, w')
    requires i < |legs| && legs[i].fill != 0 && OnlyLeg(legs, i)
    ensures Get(w'.shares, (legs[i].order.maker, p)) - Get(w.shares, (legs[i].order.maker, p)) == LegShares(legs[i], p)
  {
    var maker := legs[i].order.maker;
    OwnerShareFlow(legs, maker, p);
    OnlyLegShares(legs, i, p);
    assert Get(w'.shares, (maker, p)) == Get(w.shares, (maker, p)) + SumOf(Pulls(legs) + Pushes(legs), (maker, p));
  }

  /**
   What the owner of one filled leg ends up with in a committed batch.  The volume `v` is the exact product
   of quantity and price, in millionths, rounded up for a buy and down otherwise; the charge `c` is the fee of
   a taker, rounded up, or the rebate of a maker, rounded down.  The order was signed, current and not
   overfilled.
   */
  lemma {:induction false} OneLegSettles(w: World, tx: Tx, batchId: nat, legs: seq<Leg>, w': World, i: nat)
    returns (v: nat, c: nat)
    requires LegsSettle(w, tx, batchId, legs).Committed? && BatchEffect(w, tx, batchId, legs, w')
    requires i < |legs| && legs[i].fill != 0 && OnlyLeg(legs, i)
    ensures
      var o, product := legs[i].order, legs[i].fill * legs[i].order.price;
      if o.side == 0 then product <= 1_000_000 * v < product + 1_000_000
      else 1_000_000 * v <= product < 1_000_000 * (v + 1)
    ensures
      if legs[i].isMaker
      then 10_000 * c <= v * w.exch.rates.makerRebateBps < 10_000 * (c + 1)
      else v * w.exch.rates.takerFeeBps <= 10_000 * c < v * w.exch.rates.takerFeeBps + 10_000
    ensures
      var o := legs[i].order;
      Get(w'.vault.balances, o.maker) - Get(w.vault.balances, o.maker) ==
        if o.side == 0 then (if legs[i].isMaker then c - v else 0 - v - c)
        else (if legs[i].isMaker then v + c else v - c)
    ensures forall p: nat ::
      Get(w'.shares, (legs[i].order.maker, p)) - Get(w.shares, (legs[i].order.maker, p)) == LegShares(legs[i], p)
    ensures Get(w'.exch.filled, legs[i].order) == Get(w.exch.filled, legs[i].order) + legs[i].fill
    ensures Get(w'.exch.filled, legs[i].order) <= legs[i].order.amount
  {
    ChecksMeanAdmissible(w.exch, legs, tx.now);
    AdmissibleOwners(w.exch, legs, tx.now);
    v, c := OneLegPaid(w, tx, batchId, legs, w', i);
    OnlyLegFills(legs, i);
    assert Get(w'.exch.filled, legs[i].order) == Get(w.exch.filled, legs[i].order) + SumOf(Fills(legs), legs[i].order);
    assert FilledAfter(w.exch.filled, legs, legs[i].order) <= legs[i].order.amount;
    forall p: nat
      ensures Get(w'.shares, (legs[i].order.maker, p)) - Get(w.shares, (legs[i].order.maker, p))
           == LegShares(legs[i], p)
    {
      OneLegDelivered(w, tx, batchId, legs, w', i, p);
    }
  }

  /** The same, for the arrays of the call. */
  lemma {:induction false} OneOrderSettles(w: World, tx: Tx, batchId: nat, orders: seq<SignedOrder>,
                                           fills: seq<uint256>, isMaker: seq<bool>, w': World, i: nat)
    returns (v: nat, c: nat)
    requires BatchVerdict(w, tx, batchId, orders, fills, isMaker).Committed?
    requires BatchNext(w, tx, batchId, orders, fills, isMaker, Committed, w')
    requires i < |orders| && |fills| == |orders| && fills[i] != 0
    requires forall j | 0 <= j < |orders| && j != i && fills[j] != 0 :: orders[j].order.maker != orders[i].order.maker
    ensures |isMaker| == |orders| && (Operator, tx.sender) in w.exch.roles
    ensures
      var o, product := orders[i].order, fills[i] * orders[i].order.price;
      if o.side == 0 then product <= 1_000_000 * v < product + 1_000_000
      else 1_000_000 * v <= product < 1_000_000 * (v + 1)
    ensures
      if isMaker[i]
      then 10_000 * c <= v * w.exch.rates.makerRebateBps < 10_000 * (c + 1)
      else v * w.exch.rates.takerFeeBps <= 10_000 * c < v * w.exch.rates.takerFeeBps + 10_000
    ensures
      var o := orders[i].order;
      Get(w'.vault.balances, o.maker) - Get(w.vault.balances, o.maker) ==
        if o.side == 0 then (if isMaker[i] then c - v else 0 - v - c) else (if isMaker[i] then v + c else v - c)
    ensures
      var o := orders[i].order;
      Get(w'.shares, (o.maker, o.positionId)) - Get(w.shares, (o.maker, o.positionId)) ==
        if o.side == 0 then fills[i] as int else if o.side == 1 then -(fills[i] as int) else 0
    ensures Get(w'.exch.filled, orders[i].order) == Get(w.exch.filled, orders[i].order) + fills[i]
    ensures Get(w'.exch.filled, orders[i].order) <= orders[i].order.amount
    ensures batchId in w'.exch.settled && batchId in w'.vault.applied && w'.vault.lastActivity == tx.now
  {
    var legs := Legs(orders, fills, isMaker);
    forall j | 0 <= j < |legs|
      ensures legs[j] == Leg(orders[j].order, orders[j].signature, fills[j], isMaker[j])
    {}
    v, c := OneLegSettles(w, tx, batchId, legs, w', i);
    var o := orders[i].order;
    assert Get(w'.shares, (o.maker, o.positionId)) - Get(w.shares, (o.maker, o.positionId))
        == LegShares(legs[i], o.positionId);
  }

  /**
   Which legs a batch may contain, written out: current, of the owner's epoch, signed with the owner's own
   key, small enough to be priced in 256 bits, and within the signed amount together with all else that was
   filled of the order.
   */
  lemma {:induction false} AdmissibleMeans(x: Exch, legs: seq<Leg>, now: nat)
    ensures Admissible(x, legs, now) <==>
      forall i | 0 <= i < |legs| && legs[i].fill != 0 ::
        var o, sig := legs[i].order, legs[i].signature;
        && now <= o.deadline
        && o.nonce == (if o.maker in x.nonces then x.nonces[o.maker] else 0)
        && sig.SignedBy? && o.maker == Wallet(sig.key)
        && legs[i].fill * o.price + (if o.side == 0 then 999_999 else 0)
             < 0x1_0000000000000000_0000000000000000_0000000000000000_0000000000000000
        && Get(x.filled, o) + SumOf(Fills(legs), o) <= o.amount
  {
    forall i | 0 <= i < |legs| && legs[i].fill != 0
      ensures Authentic(x, legs[i], now) <==>
        var o, sig := legs[i].order, legs[i].signature;
        && now <= o.deadline
        && o.nonce == (if o.maker in x.nonces then x.nonces[o.maker] else 0)
        && sig.SignedBy? && o.maker == Wallet(sig.key)
        && legs[i].fill * o.price + (if o.side == 0 then 999_999 else 0)
             < 0x1_0000000000000000_0000000000000000_0000000000000000_0000000000000000
    {}
  }
}
