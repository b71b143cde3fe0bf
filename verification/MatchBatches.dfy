/**
 The batch of a match.  The service that would build it is deferred, so the step from fills to legs is
 defined here: each maker leg is the maker's signed order for the quantity of its fill, and the taker has
 one aggregate leg or one leg per fill.
 */
module MatchBatches {
  import opened Chain
  import opened Ledgers
  import Fees
  import S = Settlement
  import opened Matching
  import opened OrderBook

  /** The signed order behind every order identifier the gateway has accepted. */
  type Registry = nat -> S.SignedOrder

  function SideCode(side: Side): nat {
    if side == Buy then Fees.BUY else Fees.SELL
  }

  /** The matcher's order and the signed order agree on maker, position, price and side. */
  predicate Registered(signed: Registry, id: nat, maker: Address, positionId: nat, price: nat, side: Side) {
    var o := signed(id).order;
    o.maker == maker && o.positionId == positionId && o.price == price && o.side == SideCode(side)
  }

  ghost predicate AllRegistered(signed: Registry, q: Queue, positionId: nat, side: Side) {
    forall i | 0 <= i < |q| :: Registered(signed, q[i].orderId, q[i].maker, positionId, q[i].price, side)
  }

  predicate TakerRegistered(signed: Registry, t: Incoming, positionId: nat) {
    Registered(signed, t.orderId, t.maker, positionId, t.price, t.side)
  }

  function LegFor(signed: Registry, id: nat, amount: uint256, isMaker: bool): S.Leg {
    S.Leg(signed(id).order, signed(id).signature, amount, isMaker)
  }

  /** Quantities are 64-bit in the matcher. */
  const TWO_64: nat := 0x1_0000_0000_0000_0000

  predicate Fits(fills: seq<Fill>) {
    SumAmounts(fills) < TWO_64
  }

  function MakerLegs(signed: Registry, fills: seq<Fill>): seq<S.Leg>
    requires Fits(fills)
  {
    if fills == [] then []
    else
      AmountsOfParts(fills);
      var n := |fills| - 1;
      MakerLegs(signed, fills[..n]) + [LegFor(signed, fills[n].makerOrderId, fills[n].amount, true)]
  }

  /** One taker leg per fill. */
  function TakerLegs(signed: Registry, takerId: nat, fills: seq<Fill>): seq<S.Leg>
    requires Fits(fills)
  {
    if fills == [] then []
    else
      AmountsOfParts(fills);
      TakerLegs(signed, takerId, fills[..|fills| - 1]) + [LegFor(signed, takerId, fills[|fills| - 1].amount, false)]
  }

  /** The batch with one aggregate taker leg. */
  function AggregateBatch(signed: Registry, takerId: nat, fills: seq<Fill>): seq<S.Leg>
    requires Fits(fills)
  {
    MakerLegs(signed, fills) + [LegFor(signed, takerId, SumAmounts(fills), false)]
  }

  /** The batch with one taker leg per fill. */
  function PerFillBatch(signed: Registry, takerId: nat, fills: seq<Fill>): seq<S.Leg>
    requires Fits(fills)
  {
    MakerLegs(signed, fills) + TakerLegs(signed, takerId, fills)
  }

  lemma {:induction false} AmountsConcat(a: seq<Fill>, b: seq<Fill>)
    ensures SumAmounts(a + b) == SumAmounts(a) + SumAmounts(b)
  {
    if a == [] {
      assert a + b == b;
    } else {
      assert (a + b)[1..] == a[1..] + b;
      AmountsConcat(a[1..], b);
    }
  }

  lemma {:induction false} AmountsOfParts(fills: seq<Fill>)
    requires fills != []
    ensures SumAmounts(fills) == SumAmounts(fills[..|fills| - 1]) + fills[|fills| - 1].amount
  {
    var n := |fills| - 1;
    assert fills == fills[..n] + [fills[n]];
    assert [fills[n]][1..] == [];
    AmountsConcat(fills[..n], [fills[n]]);
  }

  // ---- What batches come to ----

  function Pay(leg: S.Leg, rates: Fees.Rates): int {
    Fees.Payout(leg.order, leg.fill, leg.isMaker, rates)
  }

  function SumPay(legs: seq<S.Leg>, rates: Fees.Rates): int {
    if legs == [] then 0 else SumPay(legs[..|legs| - 1], rates) + Pay(legs[|legs| - 1], rates)
  }

  /** A leg that fills nothing pays nothing, so skipping it changes no sum. */
  lemma {:induction false} NetIsSumPay(legs: seq<S.Leg>, rates: Fees.Rates)
    ensures S.ExchangeNet(legs, rates) == -SumPay(legs, rates)
  {
    if legs == [] {
    } else {
      var n := |legs| - 1;
      NetIsSumPay(legs[..n], rates);
      if legs[n].fill == 0 {
        Fees.NothingPays(legs[n].order, legs[n].isMaker, rates);
      } else {
        SumAllSnoc(S.Deltas(legs[..n], rates), Entry(legs[n].order.maker, Pay(legs[n], rates)));
      }
    }
  }

  lemma {:induction false} SumPayConcat(a: seq<S.Leg>, b: seq<S.Leg>, rates: Fees.Rates)
    ensures SumPay(a + b, rates) == SumPay(a, rates) + SumPay(b, rates)
  {
    if b == [] {
      assert a + b == a;
    } else {
      assert (a + b)[..|a + b| - 1] == a + b[..|b| - 1];
      SumPayConcat(a, b[..|b| - 1], rates);
    }
  }

  /** The order a maker of side `side` would have signed at the taker's own limit. */
  function AtLimit(limit: nat, side: Side): Fees.Order {
    Fees.Order(0, Zero, 0, limit, 0, SideCode(side), 0, 0)
  }

  /** All makers together are paid no more than one maker would be, at the taker's limit, for the total. */
  lemma {:induction false} MakersPaid(signed: Registry, fills: seq<Fill>, t: Incoming, rates: Fees.Rates)
    requires rates.takerFeeBps <= Fees.BPS && rates.makerRebateBps <= Fees.BPS
    requires Fits(fills)
    requires forall i | 0 <= i < |fills| ::
        && signed(fills[i].makerOrderId).order.side == SideCode(Opposite(t.side))
        && Crosses(t.side, signed(fills[i].makerOrderId).order.price, t.price)
    ensures SumPay(MakerLegs(signed, fills), rates)
         <= Fees.Payout(AtLimit(t.price, Opposite(t.side)), SumAmounts(fills), true, rates)
  {
    var l := AtLimit(t.price, Opposite(t.side));
    if fills == [] {
      Fees.NothingPays(l, true, rates);
    } else {
      var n := |fills| - 1;
      AmountsOfParts(fills);
      MakersPaid(signed, fills[..n], t, rates);
      Fees.BetterPricePaysNoMore(signed(fills[n].makerOrderId).order, l, fills[n].amount, rates);
      Fees.PayoutSplits(l, SumAmounts(fills[..n]), fills[n].amount, true, rates);
    }
  }

  lemma {:induction false} TakerPieces(signed: Registry, takerId: nat, fills: seq<Fill>, rates: Fees.Rates)
    requires rates.takerFeeBps <= Fees.BPS && rates.makerRebateBps <= Fees.BPS
    requires Fits(fills)
    ensures SumPay(TakerLegs(signed, takerId, fills), rates)
         <= Fees.Payout(signed(takerId).order, SumAmounts(fills), false, rates)
  {
    var o := signed(takerId).order;
    if fills == [] {
      Fees.NothingPays(o, false, rates);
    } else {
      var n := |fills| - 1;
      AmountsOfParts(fills);
      TakerPieces(signed, takerId, fills[..n], rates);
      Fees.PayoutSplits(o, SumAmounts(fills[..n]), fills[n].amount, false, rates);
    }
  }

  // ---- Shares ----

  lemma {:induction false} FlowsConcat(a: seq<S.Leg>, b: seq<S.Leg>, p: nat)
    ensures S.Sold(a + b, p) == S.Sold(a, p) + S.Sold(b, p)
    ensures S.Bought(a + b, p) == S.Bought(a, p) + S.Bought(b, p)
  {
    if b == [] {
      assert a + b == a;
    } else {
      assert (a + b)[..|a + b| - 1] == a + b[..|b| - 1];
      FlowsConcat(a, b[..|b| - 1], p);
    }
  }

  /** Legs that all fill orders of one side at one position. */
  ghost predicate OneWay(legs: seq<S.Leg>, positionId: nat, side: Side) {
    forall i | 0 <= i < |legs| :: legs[i].order.positionId == positionId && legs[i].order.side == SideCode(side)
  }

  function Quantity(legs: seq<S.Leg>): nat {
    if legs == [] then 0 else Quantity(legs[..|legs| - 1]) + legs[|legs| - 1].fill
  }

  lemma {:induction false} OneWayFlows(legs: seq<S.Leg>, positionId: nat, side: Side, p: nat)
    requires OneWay(legs, positionId, side)
    ensures S.Sold(legs, p) == if p == positionId && side == Sell then Quantity(legs) else 0
    ensures S.Bought(legs, p) == if p == positionId && side == Buy then Quantity(legs) else 0
  {
    if legs == [] {
    } else {
      OneWayFlows(legs[..|legs| - 1], positionId, side, p);
    }
  }

  /** The share half of a batch settles: every position nets to zero, and nothing overflows on the way. */
  ghost predicate Clears(legs: seq<S.Leg>) {
    S.ShareBalanced(legs) && S.TwoSided(legs) && S.SmallFills(legs) && S.NettingFits(legs)
  }

  /** Makers on one side, takers on the other, for the same quantity: every position nets to zero. */
  lemma {:induction false} OppositeLegsBalance(makers: seq<S.Leg>, takers: seq<S.Leg>, positionId: nat, side: Side)
    requires OneWay(makers, positionId, Opposite(side)) && OneWay(takers, positionId, side)
    requires Quantity(makers) == Quantity(takers) && Quantity(makers) < TWO_64
    requires S.SmallFills(makers) && S.SmallFills(takers)
    ensures Clears(makers + takers)
  {
    var legs := makers + takers;
    assert TWO_64 < TWO_255;
    forall p: nat ensures SumOf(S.ShareNets(legs), p) == 0 && S.Sold(legs, p) < TWO_255 {
      S.NetsAreFlows(legs, p);
      FlowsConcat(makers, takers, p);
      OneWayFlows(makers, positionId, Opposite(side), p);
      OneWayFlows(takers, positionId, side, p);
      S.UndeliveredNothing(legs, p);
    }
    S.BalancedNettingFits(legs);
  }

  /** The maker of every fill signed an order of this side at this position. */
  ghost predicate MakersOn(signed: Registry, fills: seq<Fill>, positionId: nat, side: Side) {
    forall i | 0 <= i < |fills| :: MakerOn(signed, fills[i], positionId, side)
  }

  predicate MakerOn(signed: Registry, f: Fill, positionId: nat, side: Side) {
    signed(f.makerOrderId).order.positionId == positionId && signed(f.makerOrderId).order.side == SideCode(side)
  }

  ghost predicate SmallLegs(legs: seq<S.Leg>) {
    forall i | 0 <= i < |legs| :: legs[i].fill < TWO_64
  }

  lemma {:induction false} SmallLegsAreSmall(legs: seq<S.Leg>)
    requires SmallLegs(legs)
    ensures S.SmallFills(legs)
  {
    forall i | 0 <= i < |legs| ensures legs[i].fill < TWO_255 {
      assert legs[i].fill < TWO_64;
    }
  }

  /** One more leg of the same way. */
  lemma {:induction false} OneMore(legs: seq<S.Leg>, leg: S.Leg, positionId: nat, side: Side)
    requires OneWay(legs, positionId, side) && SmallLegs(legs)
    requires leg.order.positionId == positionId && leg.order.side == SideCode(side) && leg.fill < TWO_64
    ensures OneWay(legs + [leg], positionId, side) && SmallLegs(legs + [leg])
    ensures Quantity(legs + [leg]) == Quantity(legs) + leg.fill
  {
    assert (legs + [leg])[..|legs|] == legs;
  }

  lemma {:induction false} MakerLegsShape(signed: Registry, fills: seq<Fill>, positionId: nat, side: Side)
    requires Fits(fills) && MakersOn(signed, fills, positionId, side)
    ensures OneWay(MakerLegs(signed, fills), positionId, side) && SmallLegs(MakerLegs(signed, fills))
    ensures Quantity(MakerLegs(signed, fills)) == SumAmounts(fills)
  {
    if fills == [] {
    } else {
      var n := |fills| - 1;
      AmountsOfParts(fills);
      MakerLegsShape(signed, fills[..n], positionId, side);
      assert MakerOn(signed, fills[n], positionId, side);
      OneMore(MakerLegs(signed, fills[..n]), LegFor(signed, fills[n].makerOrderId, fills[n].amount, true),
          positionId, side);
    }
  }

  lemma {:induction false} TakerLegsShape(signed: Registry, takerId: nat, fills: seq<Fill>, positionId: nat, side: Side)
    requires Fits(fills)
    requires signed(takerId).order.positionId == positionId && signed(takerId).order.side == SideCode(side)
    ensures OneWay(TakerLegs(signed, takerId, fills), positionId, side) && SmallLegs(TakerLegs(signed, takerId, fills))
    ensures Quantity(TakerLegs(signed, takerId, fills)) == SumAmounts(fills)
  {
    if fills == [] {
    } else {
      var n := |fills| - 1;
      AmountsOfParts(fills);
      TakerLegsShape(signed, takerId, fills[..n], positionId, side);
      OneMore(TakerLegs(signed, takerId, fills[..n]), LegFor(signed, takerId, fills[n].amount, false), positionId,
          side);
    }
  }
}
