/** From the matcher to the chain: the batch built from a match settles without the pool losing USDC or shares. */
module Settleable {
  import opened Chain
  import opened Ledgers
  import Fees
  import S = Settlement
  import X = Exchange
  import B = Batches
  import opened Matching
  import opened OrderBook
  import opened Engine
  import opened MatcherRuns
  import opened MatchBatches

  // ---- The linking theorem ----

  /** Fills that come out of a sweep name registered makers that cross the taker's limit. */
  lemma {:induction false} SweptMakers(signed: Registry, q: Queue, t: Incoming, left: nat, positionId: nat, i: nat)
    requires AllRegistered(signed, q, positionId, Opposite(t.side)) && i < |Sweep(q, t, left).fills|
    ensures
      var o := signed(Sweep(q, t, left).fills[i].makerOrderId).order;
      o.positionId == positionId && o.side == SideCode(Opposite(t.side)) && Crosses(t.side, o.price, t.price)
  {
    assert Registered(signed, q[0].orderId, q[0].maker, positionId, q[0].price, Opposite(t.side));
    forall j | 0 <= j < |q[1..]|
      ensures Registered(signed, q[1..][j].orderId, q[1..][j].maker, positionId, q[1..][j].price, Opposite(t.side))
    {
      assert q[1..][j] == q[j + 1];
    }
    if q[0].maker == t.maker {
      SweptMakers(signed, q[1..], t, left, positionId, i);
    } else {
      var amount := Min(left, q[0].Remaining());
      if amount == q[0].Remaining() && i > 0 {
        SweptMakers(signed, q[1..], t, left - amount, positionId, i - 1);
      }
    }
  }

  /**
   Every match is settleable.  For any list of resting orders and any incoming order, with the maker
   rebate no higher than the taker fee, the batch built from the fills, with one taker leg or one per
   fill, nets the pool no loss of USDC and leaves every share position at zero.
   */
  lemma {:induction false} EveryMatchSettles(signed: Registry, q: Queue, t: Incoming, positionId: nat,
                                             rates: Fees.Rates)
    requires AllRegistered(signed, q, positionId, Opposite(t.side)) && TakerRegistered(signed, t, positionId)
    requires t.amount < TWO_64
    requires rates.makerRebateBps <= rates.takerFeeBps <= Fees.MAX_BPS
    ensures
      var fills := Sweep(q, t, t.amount).fills;
      && Fits(fills)
      && var one, many := AggregateBatch(signed, t.orderId, fills), PerFillBatch(signed, t.orderId, fills);
      && 0 <= S.ExchangeNet(one, rates) <= S.ExchangeNet(many, rates)
      && Clears(one) && Clears(many)
  {
    SweepConserves(q, t, t.amount);
    var fills := Sweep(q, t, t.amount).fills;
    forall i | 0 <= i < |fills| ensures
      var o := signed(fills[i].makerOrderId).order;
      o.positionId == positionId && o.side == SideCode(Opposite(t.side)) && Crosses(t.side, o.price, t.price)
    {
      SweptMakers(signed, q, t, t.amount, positionId, i);
    }
    forall i | 0 <= i < |fills| ensures MakerOn(signed, fills[i], positionId, Opposite(t.side)) {
      SweptMakers(signed, q, t, t.amount, positionId, i);
    }
    BatchNets(signed, fills, t, rates);
    BatchShares(signed, fills, t, positionId);
  }

  lemma {:induction false} BatchNets(signed: Registry, fills: seq<Fill>, t: Incoming, rates: Fees.Rates)
    requires Fits(fills)
    requires rates.makerRebateBps <= rates.takerFeeBps <= Fees.MAX_BPS
    requires signed(t.orderId).order.side == SideCode(t.side) && signed(t.orderId).order.price == t.price
    requires forall i | 0 <= i < |fills| ::
        && signed(fills[i].makerOrderId).order.side == SideCode(Opposite(t.side))
        && Crosses(t.side, signed(fills[i].makerOrderId).order.price, t.price)
    ensures
      var one, many := AggregateBatch(signed, t.orderId, fills), PerFillBatch(signed, t.orderId, fills);
      0 <= S.ExchangeNet(one, rates) <= S.ExchangeNet(many, rates)
  {
    var makers, takers := MakerLegs(signed, fills), TakerLegs(signed, t.orderId, fills);
    var taker := LegFor(signed, t.orderId, SumAmounts(fills), false);
    NetIsSumPay(makers + [taker], rates);
    NetIsSumPay(makers + takers, rates);
    SumPayConcat(makers, [taker], rates);
    SumPayConcat(makers, takers, rates);
    assert [taker][..0] == [];
    MakersPaid(signed, fills, t, rates);
    Fees.FeeCoversRebate(signed(t.orderId).order, AtLimit(t.price, Opposite(t.side)), SumAmounts(fills), rates);
    TakerPieces(signed, t.orderId, fills, rates);
  }

  lemma {:induction false} BatchShares(signed: Registry, fills: seq<Fill>, t: Incoming, positionId: nat)
    requires Fits(fills)
    requires signed(t.orderId).order.positionId == positionId && signed(t.orderId).order.side == SideCode(t.side)
    requires MakersOn(signed, fills, positionId, Opposite(t.side))
    ensures
      var one, many := AggregateBatch(signed, t.orderId, fills), PerFillBatch(signed, t.orderId, fills);
      Clears(one) && Clears(many)
  {
    var makers, takers := MakerLegs(signed, fills), TakerLegs(signed, t.orderId, fills);
    var taker := LegFor(signed, t.orderId, SumAmounts(fills), false);
    MakerLegsShape(signed, fills, positionId, Opposite(t.side));
    TakerLegsShape(signed, t.orderId, fills, positionId, t.side);
    OneMore([], taker, positionId, t.side);
    assert [] + [taker] == [taker];
    SmallLegsAreSmall(makers);
    SmallLegsAreSmall(takers);
    SmallLegsAreSmall([taker]);
    OppositeLegsBalance(makers, [taker], positionId, t.side);
    OppositeLegsBalance(makers, takers, positionId, t.side);
  }

  /**
   The call for the batch commits exactly when the operator may settle, the orders are admissible, the vault
   takes it, nobody ends overdrawn, the sellers can deliver and no USDC sum overflows.
   */
  ghost predicate CommitsWhenReady(w: X.World, tx: Tx, batchId: nat, legs: seq<S.Leg>) {
    B.CallVerdict(w, tx, batchId, legs).Committed? <==>
      && B.OperatorMaySettle(w.exch, tx.sender, batchId)
      && X.Admissible(w.exch, legs, tx.now)
      && X.VaultAccepts(w.vault, batchId)
      && X.Affordable(w.vault.balances, legs, w.exch.rates)
      && B.SellersDeliver(w, legs)
      && B.UsdcFits(w, legs)
  }

  /**
   On chain, neither of the exchange's own checks can be what stops a match: the call commits exactly when
   the operator may settle, the signed orders are current and unspent, the vault is up, both parties can pay
   and deliver, and no USDC sum overflows.
   */
  lemma {:induction false} MatchCommitsOnChain(signed: Registry, q: Queue, t: Incoming, positionId: nat, w: X.World,
                                               tx: Tx, batchId: nat)
    requires AllRegistered(signed, q, positionId, Opposite(t.side)) && TakerRegistered(signed, t, positionId)
    requires t.amount < TWO_64
    requires w.exch.rates.makerRebateBps <= w.exch.rates.takerFeeBps <= Fees.MAX_BPS
    ensures
      var fills := Sweep(q, t, t.amount).fills;
      && Fits(fills)
      && CommitsWhenReady(w, tx, batchId, AggregateBatch(signed, t.orderId, fills))
      && CommitsWhenReady(w, tx, batchId, PerFillBatch(signed, t.orderId, fills))
  {
    EveryMatchSettles(signed, q, t, positionId, w.exch.rates);
    var fills := Sweep(q, t, t.amount).fills;
    ClearedCommits(w, tx, batchId, AggregateBatch(signed, t.orderId, fills));
    ClearedCommits(w, tx, batchId, PerFillBatch(signed, t.orderId, fills));
  }

  /** What is left to decide once a batch nets the pool no loss and its shares clear. */
  lemma {:induction false} ClearedCommits(w: X.World, tx: Tx, batchId: nat, legs: seq<S.Leg>)
    requires S.ExchangeNet(legs, w.exch.rates) >= 0 && Clears(legs)
    ensures CommitsWhenReady(w, tx, batchId, legs)
  {
    B.CallCommitsExactly(w, tx, batchId, legs);
    B.LegsSettleExactly(w, tx, batchId, legs);
  }

  /**
   The rebate cap is what makes matches settleable: `setFeeRates` bounds the two rates separately, and
   every match settles exactly when the rebate does not exceed the fee.
   */
  lemma {:induction false} SettleableExactlyWhenFeeCoversRebate(rates: Fees.Rates)
    requires rates.takerFeeBps <= Fees.MAX_BPS && rates.makerRebateBps <= Fees.MAX_BPS
    ensures rates.makerRebateBps <= rates.takerFeeBps
       <==> forall signed: Registry, q: Queue, t: Incoming, positionId: nat |
              && AllRegistered(signed, q, positionId, Opposite(t.side)) && TakerRegistered(signed, t, positionId)
              && t.amount < TWO_64 && Fits(Sweep(q, t, t.amount).fills) ::
              S.ExchangeNet(AggregateBatch(signed, t.orderId, Sweep(q, t, t.amount).fills), rates) >= 0
  {
    if rates.makerRebateBps <= rates.takerFeeBps {
      forall signed: Registry, q: Queue, t: Incoming, positionId: nat |
        && AllRegistered(signed, q, positionId, Opposite(t.side)) && TakerRegistered(signed, t, positionId)
        && t.amount < TWO_64 && Fits(Sweep(q, t, t.amount).fills)
        ensures S.ExchangeNet(AggregateBatch(signed, t.orderId, Sweep(q, t, t.amount).fills), rates) >= 0
      {
        EveryMatchSettles(signed, q, t, positionId, rates);
      }
    } else {
      UncoveredRebate(rates);
    }
  }

  lemma {:induction false} UncoveredNet(sell: S.Leg, buy: S.Leg, rates: Fees.Rates)
    requires rates.makerRebateBps > rates.takerFeeBps
    requires sell.fill == buy.fill == 10_000_000_000 && sell.isMaker && !buy.isMaker
    requires sell.order.price == buy.order.price == 1_000_000 && sell.order.side == Fees.SELL
    requires buy.order.side == Fees.BUY
    ensures S.ExchangeNet([sell, buy], rates) < 0
  {
    NetIsSumPay([sell, buy], rates);
    assert [sell, buy][..1] == [sell] && [sell][..0] == [];
    assert SumPay([sell], rates) == SumPay([], rates) + Pay(sell, rates);
    assert SumPay([sell, buy], rates) == SumPay([sell], rates) + Pay(buy, rates);
    assert Pay(sell, rates) == 10_000_000_000 + 1_000_000 * rates.makerRebateBps;
    assert Pay(buy, rates) == -10_000_000_000 - 1_000_000 * rates.takerFeeBps;
  }

  /** A match of 10,000 USDC at the full price, whose rebate exceeds its fee. */
  lemma {:induction false} UncoveredRebate(rates: Fees.Rates)
    requires rates.makerRebateBps > rates.takerFeeBps
    ensures exists signed: Registry, q: Queue, t: Incoming, positionId: nat ::
      && AllRegistered(signed, q, positionId, Opposite(t.side)) && TakerRegistered(signed, t, positionId)
      && t.amount < TWO_64 && Fits(Sweep(q, t, t.amount).fills)
      && S.ExchangeNet(AggregateBatch(signed, t.orderId, Sweep(q, t, t.amount).fills), rates) < 0
  {
    var maker: RestingOrder := Order(1, Wallet(1), 1_000_000, 10_000_000_000, 0, Sell, 0, 0, 0);
    var t := Incoming(2, Wallet(2), 1_000_000, 10_000_000_000, Buy, 0, 0);
    var ask := Fees.Order(0, Wallet(1), 0, 1_000_000, 10_000_000_000, Fees.SELL, 0, 0);
    var bid := Fees.Order(0, Wallet(2), 0, 1_000_000, 10_000_000_000, Fees.BUY, 0, 0);
    var signed: Registry := (id: nat) => if id == 1 then S.SignedOrder(ask, SignedBy(1))
        else S.SignedOrder(bid, SignedBy(2));
    var q: Queue := [maker];
    var f := FillOf(maker, t, 10_000_000_000);
    assert q[1..] == [];
    assert Sweep([], t, 0) == Swept([], [], 0, []);
    assert Sweep(q, t, t.amount).fills == [f];
    assert [f][1..] == [] && [f][..0] == [];
    var sell, buy := LegFor(signed, 1, 10_000_000_000, true), LegFor(signed, 2, 10_000_000_000, false);
    assert MakerLegs(signed, [f]) == [sell];
    assert AggregateBatch(signed, 2, [f]) == [sell, buy];
    UncoveredNet(sell, buy, rates);
    assert AllRegistered(signed, q, 0, Opposite(t.side)) && TakerRegistered(signed, t, 0);
  }
}
