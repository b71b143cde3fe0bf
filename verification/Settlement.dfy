/**
 What a settlement batch means, independently of the loops that compute it: the legs it consists
 of, the signed lists of postings the legs justify, and how the two halves of a batch, USDC and
 outcome shares, balance.
 */
module Settlement {
  import opened Chain
  import opened Fees
  import opened Ledgers

  datatype SignedOrder = SignedOrder(order: Order, signature: Signature)

  /** One row of a batch: a signed order, how much of it to fill, and its role in the match. */
  datatype Leg = Leg(order: Order, signature: Signature, fill: uint256, isMaker: bool)

  function Legs(orders: seq<SignedOrder>, fills: seq<uint256>, isMaker: seq<bool>): (legs: seq<Leg>)
    requires |orders| == |fills| == |isMaker|
    ensures |legs| == |orders|
  {
    seq(|orders|, i requires 0 <= i < |orders| => Leg(orders[i].order, orders[i].signature, fills[i], isMaker[i]))
  }

  /** Legs taken apart into the three arrays of a call. */
  function OrdersOf(legs: seq<Leg>): seq<SignedOrder> {
    seq(|legs|, i requires 0 <= i < |legs| => SignedOrder(legs[i].order, legs[i].signature))
  }

  function FillsOf(legs: seq<Leg>): seq<uint256> {
    seq(|legs|, i requires 0 <= i < |legs| => legs[i].fill)
  }

  function RolesOf(legs: seq<Leg>): seq<bool> {
    seq(|legs|, i requires 0 <= i < |legs| => legs[i].isMaker)
  }

  lemma {:induction false} LegsTakenApart(legs: seq<Leg>)
    ensures |OrdersOf(legs)| == |FillsOf(legs)| == |RolesOf(legs)|
    ensures Legs(OrdersOf(legs), FillsOf(legs), RolesOf(legs)) == legs
  {}

  /** The USDC postings the makers' signatures justify; a leg with nothing to fill justifies none. */
  function Deltas(legs: seq<Leg>, rates: Rates): seq<Entry<Address>> {
    if legs == [] then []
    else
      var leg := legs[|legs| - 1];
      var rest := Deltas(legs[..|legs| - 1], rates);
      if leg.fill == 0 then rest
      else rest + [Entry(leg.order.maker, Payout(leg.order, leg.fill, leg.isMaker, rates))]
  }

  /** What the exchange keeps: everything the order owners pay, less everything they receive. */
  function ExchangeNet(legs: seq<Leg>, rates: Rates): int {
    -SumAll(Deltas(legs, rates))
  }

  /** The owners' postings and the exchange's own. */
  function AllDeltas(legs: seq<Leg>, rates: Rates): seq<Entry<Address>> {
    Deltas(legs, rates) + [Entry(EXCHANGE, ExchangeNet(legs, rates))]
  }

  /** How much of each order the batch fills. */
  function Fills(legs: seq<Leg>): seq<Entry<Order>> {
    if legs == [] then []
    else
      var leg := legs[|legs| - 1];
      var rest := Fills(legs[..|legs| - 1]);
      if leg.fill == 0 then rest else rest + [Entry(leg.order, leg.fill)]
  }

  /** The signed share flow the netting loop books: anything that is not side 1 counts as a buy. */
  function ShareNets(legs: seq<Leg>): seq<Entry<nat>> {
    if legs == [] then []
    else
      var leg := legs[|legs| - 1];
      var rest := ShareNets(legs[..|legs| - 1]);
      if leg.fill == 0 then rest else rest + [Entry(leg.order.positionId, ShareDelta(leg))]
  }

  function ShareDelta(leg: Leg): int {
    if leg.order.side == SELL then ToInt256(leg.fill) else -ToInt256(leg.fill)
  }

  type Holding = (Address, nat)

  function ShareTransfer(from: Address, to: Address, positionId: nat, amount: nat): seq<Entry<Holding>> {
    [Entry((from, positionId), -(amount as int)), Entry((to, positionId), amount)]
  }

  /** The share transfers of the sells: owner to exchange. */
  function Pulls(legs: seq<Leg>): seq<Entry<Holding>> {
    if legs == [] then []
    else
      var leg := legs[|legs| - 1];
      var rest := Pulls(legs[..|legs| - 1]);
      if leg.fill == 0 || leg.order.side != SELL then rest
      else rest + ShareTransfer(leg.order.maker, EXCHANGE, leg.order.positionId, leg.fill)
  }

  /** The share transfers of the buys: exchange to owner. */
  function Pushes(legs: seq<Leg>): seq<Entry<Holding>> {
    if legs == [] then []
    else
      var leg := legs[|legs| - 1];
      var rest := Pushes(legs[..|legs| - 1]);
      if leg.fill == 0 || leg.order.side != BUY then rest
      else rest + ShareTransfer(EXCHANGE, leg.order.maker, leg.order.positionId, leg.fill)
  }

  // ---- Quantities, for stating what the postings come to ----

  /** Shares of position `p` filled on the legs of one class of sides. */
  function Sold(legs: seq<Leg>, p: nat): nat {
    if legs == [] then 0
    else
      var leg := legs[|legs| - 1];
      Sold(legs[..|legs| - 1], p) + if leg.order.positionId == p && leg.order.side == SELL then leg.fill else 0
  }

  function Bought(legs: seq<Leg>, p: nat): nat {
    if legs == [] then 0
    else
      var leg := legs[|legs| - 1];
      Bought(legs[..|legs| - 1], p) + if leg.order.positionId == p && leg.order.side == BUY then leg.fill else 0
  }

  /** Shares filled on legs whose side is neither 0 nor 1: netted as buys, never transferred. */
  function Undelivered(legs: seq<Leg>, p: nat): nat {
    if legs == [] then 0
    else
      var leg := legs[|legs| - 1];
      Undelivered(legs[..|legs| - 1], p)
      + if leg.order.positionId == p && leg.order.side != SELL && leg.order.side != BUY then leg.fill else 0
  }

  function SoldBy(legs: seq<Leg>, maker: Address, p: nat): nat {
    if legs == [] then 0
    else
      var leg := legs[|legs| - 1];
      SoldBy(legs[..|legs| - 1], maker, p)
      + if leg.order.positionId == p && leg.order.side == SELL && leg.order.maker == maker then leg.fill else 0
  }

  ghost predicate WalletOrders(legs: seq<Leg>) {
    forall i | 0 <= i < |legs| && legs[i].fill != 0 :: legs[i].order.maker.Wallet?
  }

  ghost predicate SmallFills(legs: seq<Leg>) {
    forall i | 0 <= i < |legs| :: legs[i].fill < TWO_255
  }

  ghost predicate ShareBalanced(legs: seq<Leg>) {
    forall p: nat :: SumOf(ShareNets(legs), p) == 0
  }

  /** Every leg that fills something buys or sells. */
  ghost predicate TwoSided(legs: seq<Leg>) {
    forall i | 0 <= i < |legs| && legs[i].fill != 0 :: legs[i].order.side == BUY || legs[i].order.side == SELL
  }

  // ---- USDC ----

  lemma {:induction false} DeltasConserve(legs: seq<Leg>, rates: Rates)
    ensures SumAll(AllDeltas(legs, rates)) == 0
  {
    SumAllSnoc(Deltas(legs, rates), Entry(EXCHANGE, ExchangeNet(legs, rates)));
  }

  /** The signatures justify no posting against the exchange: it is nobody's order owner. */
  lemma {:induction false} ExchangeHasNoLegs(legs: seq<Leg>, rates: Rates)
    requires WalletOrders(legs)
    ensures SumOf(Deltas(legs, rates), EXCHANGE) == 0
  {
    if legs == [] {
    } else {
      var n := |legs| - 1;
      ExchangeHasNoLegs(legs[..n], rates);
      if legs[n].fill != 0 {
        SumOfSnoc(Deltas(legs[..n], rates), Entry(legs[n].order.maker,
            Payout(legs[n].order, legs[n].fill, legs[n].isMaker, rates)), EXCHANGE);
      }
    }
  }

  // ---- Shares ----

  lemma {:induction false} ShareTransferSums(from: Address, to: Address, p: nat, amount: nat, h: Holding)
    ensures SumOf(ShareTransfer(from, to, p, amount), h)
         == (if (from, p) == h then -(amount as int) else 0) + (if (to, p) == h then amount else 0)
  {
    var debit := Entry((from, p), -(amount as int));
    assert ShareTransfer(from, to, p, amount) == [debit] + [Entry((to, p), amount)];
    SumOfOne(debit, h);
    SumOfSnoc([debit], Entry((to, p), amount), h);
  }

  /** With every fill inside the signed range, the netting loop's sums are sells less everything else. */
  lemma {:induction false} NetsAreFlows(legs: seq<Leg>, p: nat)
    requires SmallFills(legs)
    ensures SumOf(ShareNets(legs), p) == Sold(legs, p) - Bought(legs, p) - Undelivered(legs, p)
  {
    if legs == [] {
    } else {
      var n := |legs| - 1;
      NetsAreFlows(legs[..n], p);
      if legs[n].fill != 0 {
        SumOfSnoc(ShareNets(legs[..n]), Entry(legs[n].order.positionId, ShareDelta(legs[n])), p);
      }
    }
  }

  /** For any fills at all, the same holds up to a multiple of 2^256. */
  lemma {:induction false} NetsAreFlowsModulo(legs: seq<Leg>, p: nat) returns (k: int)
    ensures SumOf(ShareNets(legs), p) == Sold(legs, p) - Bought(legs, p) - Undelivered(legs, p) + k * TWO_256
  {
    if legs == [] {
      k := 0;
    } else {
      var n := |legs| - 1;
      k := NetsAreFlowsModulo(legs[..n], p);
      if legs[n].fill != 0 {
        SumOfSnoc(ShareNets(legs[..n]), Entry(legs[n].order.positionId, ShareDelta(legs[n])), p);
        if legs[n].order.positionId == p && legs[n].fill >= TWO_255 {
          k := if legs[n].order.side == SELL then k - 1 else k + 1;
        }
      }
    }
  }

  lemma {:induction false} PullsPost(legs: seq<Leg>, p: nat, maker: Address)
    requires WalletOrders(legs)
    ensures SumOf(Pulls(legs), (EXCHANGE, p)) == Sold(legs, p)
    ensures maker != EXCHANGE ==> SumOf(Pulls(legs), (maker, p)) == 0 - SoldBy(legs, maker, p)
  {
    if legs == [] {
    } else {
      var n := |legs| - 1;
      PullsPost(legs[..n], p, maker);
      var o := legs[n].order;
      if legs[n].fill != 0 && o.side == SELL {
        var moves := ShareTransfer(o.maker, EXCHANGE, o.positionId, legs[n].fill);
        SumOfConcat(Pulls(legs[..n]), moves, (EXCHANGE, p));
        SumOfConcat(Pulls(legs[..n]), moves, (maker, p));
        ShareTransferSums(o.maker, EXCHANGE, o.positionId, legs[n].fill, (EXCHANGE, p));
        ShareTransferSums(o.maker, EXCHANGE, o.positionId, legs[n].fill, (maker, p));
      }
    }
  }

  lemma {:induction false} PushesPost(legs: seq<Leg>, p: nat)
    requires WalletOrders(legs)
    ensures SumOf(Pushes(legs), (EXCHANGE, p)) == 0 - Bought(legs, p)
  {
    if legs == [] {
    } else {
      var n := |legs| - 1;
      PushesPost(legs[..n], p);
      var o := legs[n].order;
      if legs[n].fill != 0 && o.side == BUY {
        var moves := ShareTransfer(EXCHANGE, o.maker, o.positionId, legs[n].fill);
        SumOfConcat(Pushes(legs[..n]), moves, (EXCHANGE, p));
        ShareTransferSums(EXCHANGE, o.maker, o.positionId, legs[n].fill, (EXCHANGE, p));
      }
    }
  }

  lemma {:induction false} ExchangeShareFlow(legs: seq<Leg>, p: nat)
    requires WalletOrders(legs)
    ensures SumOf(Pulls(legs) + Pushes(legs), (EXCHANGE, p)) == Sold(legs, p) - Bought(legs, p)
  {
    PullsPost(legs, p, EXCHANGE);
    PushesPost(legs, p);
    SumOfConcat(Pulls(legs), Pushes(legs), (EXCHANGE, p));
  }

  lemma {:induction false} UndeliveredNothing(legs: seq<Leg>, p: nat)
    requires TwoSided(legs)
    ensures Undelivered(legs, p) == 0
  {
    if legs == [] {
    } else {
      UndeliveredNothing(legs[..|legs| - 1], p);
    }
  }

  lemma {:induction false} UndeliveredSomething(legs: seq<Leg>, i: nat)
    requires i < |legs| && legs[i].fill != 0
    requires legs[i].order.side != BUY && legs[i].order.side != SELL
    ensures Undelivered(legs, legs[i].order.positionId) > 0
  {
    if i < |legs| - 1 {
      UndeliveredSomething(legs[..|legs| - 1], i);
    }
  }

  /**
   The netting check makes the exchange a pure passthrough exactly when every filled leg's side is
   0 or 1.  A leg with any other side is netted as a buy but never delivered, and what it would have
   received stays with the exchange.
   */
  lemma {:induction false} PassthroughExactlyWhenTwoSided(legs: seq<Leg>)
    requires WalletOrders(legs) && SmallFills(legs) && ShareBalanced(legs)
    ensures forall p: nat :: SumOf(Pulls(legs) + Pushes(legs), (EXCHANGE, p)) == Undelivered(legs, p)
    ensures (forall p: nat :: SumOf(Pulls(legs) + Pushes(legs), (EXCHANGE, p)) == 0) <==> TwoSided(legs)
  {
    forall p: nat ensures SumOf(Pulls(legs) + Pushes(legs), (EXCHANGE, p)) == Undelivered(legs, p) {
      ExchangeShareFlow(legs, p);
      NetsAreFlows(legs, p);
      assert SumOf(ShareNets(legs), p) == 0;
    }
    if TwoSided(legs) {
      forall p: nat ensures SumOf(Pulls(legs) + Pushes(legs), (EXCHANGE, p)) == 0 {
        UndeliveredNothing(legs, p);
      }
    } else {
      var i :| 0 <= i < |legs| && legs[i].fill != 0 && legs[i].order.side != BUY && legs[i].order.side != SELL;
      UndeliveredSomething(legs, i);
    }
  }

  /**
   Fills outside the signed range wrap in the netting loop, yet a two-sided batch whose transfers
   all fit in 256-bit balances is a passthrough all the same.
   */
  lemma {:induction false} PassthroughWithWrappedFills(legs: seq<Leg>, p: nat, inventory: nat)
    requires WalletOrders(legs) && TwoSided(legs) && SumOf(ShareNets(legs), p) == 0
    requires inventory + Sold(legs, p) < TWO_256 && Bought(legs, p) <= inventory + Sold(legs, p)
    ensures SumOf(Pulls(legs) + Pushes(legs), (EXCHANGE, p)) == 0
  {
    ExchangeShareFlow(legs, p);
    var k := NetsAreFlowsModulo(legs, p);
    UndeliveredNothing(legs, p);
  }

  // ---- The range of the netting sums ----

  /** The netting loop overflows nowhere: neither in a leg's signed quantity nor in any sum it forms. */
  predicate NettingFits(legs: seq<Leg>) {
    legs == [] ||
    (var leg := legs[|legs| - 1];
     && NettingFits(legs[..|legs| - 1])
     && (leg.fill == 0 ||
           (Signed256(ShareDelta(leg)) && Signed256(SumOf(ShareNets(legs), leg.order.positionId)))))
  }

  lemma {:induction false} NettingFitsPrefix(legs: seq<Leg>, n: nat)
    requires n <= |legs|
    ensures NettingFits(legs) ==> NettingFits(legs[..n])
    decreases |legs|
  {
    if n < |legs| {
      assert legs[..|legs| - 1][..n] == legs[..n];
      NettingFitsPrefix(legs[..|legs| - 1], n);
    } else {
      assert legs[..n] == legs;
    }
  }

  lemma {:induction false} FlowsGrow(legs: seq<Leg>, n: nat, p: nat)
    requires n <= |legs|
    ensures Sold(legs[..n], p) <= Sold(legs, p) && Bought(legs[..n], p) <= Bought(legs, p)
    ensures Undelivered(legs[..n], p) <= Undelivered(legs, p)
    decreases |legs|
  {
    if n < |legs| {
      assert legs[..|legs| - 1][..n] == legs[..n];
      FlowsGrow(legs[..|legs| - 1], n, p);
    } else {
      assert legs[..n] == legs;
    }
  }

  lemma {:induction false} PartialNetFits(legs: seq<Leg>, n: nat, p: nat)
    requires SmallFills(legs) && SumOf(ShareNets(legs), p) == 0 && Sold(legs, p) < TWO_255 && n <= |legs|
    ensures Signed256(SumOf(ShareNets(legs[..n]), p))
  {
    NetsAreFlows(legs, p);
    NetsAreFlows(legs[..n], p);
    FlowsGrow(legs, n, p);
  }

  /** A balanced batch that sells less than 2^255 shares of each position never overflows the netting loop. */
  lemma {:induction false} BalancedNettingFits(legs: seq<Leg>)
    requires SmallFills(legs) && ShareBalanced(legs) && forall p: nat :: Sold(legs, p) < TWO_255
    ensures NettingFits(legs)
  {
    PartialNettingFits(legs, |legs|);
    assert legs[..|legs|] == legs;
  }

  lemma {:induction false} PartialNettingFits(legs: seq<Leg>, n: nat)
    requires SmallFills(legs) && ShareBalanced(legs) && (forall p: nat :: Sold(legs, p) < TWO_255) && n <= |legs|
    ensures NettingFits(legs[..n])
  {
    if n == 0 {
    } else {
      var p := legs[n - 1].order.positionId;
      PartialNettingFits(legs, n - 1);
      assert legs[..n][..n - 1] == legs[..n - 1];
      assert SumOf(ShareNets(legs), p) == 0 && Sold(legs, p) < TWO_255;
      PartialNetFits(legs, n, p);
    }
  }

  // ---- Coverage of the share transfers ----

  lemma {:induction false} PullsPayable(shares: map<Holding, int>, legs: seq<Leg>)
    requires NonNegative(shares) && WalletOrders(legs)
    ensures Payable(shares, Pulls(legs))
       <==> forall maker, p: nat | maker != EXCHANGE :: SoldBy(legs, maker, p) <= Get(shares, (maker, p))
  {
    if Payable(shares, Pulls(legs)) {
      forall maker, p: nat | maker != EXCHANGE ensures SoldBy(legs, maker, p) <= Get(shares, (maker, p)) {
        PayableNonNegative(shares, Pulls(legs), (maker, p));
        PullsPost(legs, p, maker);
      }
    }
    if forall maker, p: nat | maker != EXCHANGE :: SoldBy(legs, maker, p) <= Get(shares, (maker, p)) {
      PullsCovered(shares, legs);
    }
  }

  lemma {:induction false} PullsCovered(shares: map<Holding, int>, legs: seq<Leg>)
    requires NonNegative(shares) && WalletOrders(legs)
    requires forall maker, p: nat | maker != EXCHANGE :: SoldBy(legs, maker, p) <= Get(shares, (maker, p))
    ensures Payable(shares, Pulls(legs))
  {
    if legs == [] {
    } else {
      var n := |legs| - 1;
      var o := legs[n].order;
      forall maker, p: nat | maker != EXCHANGE ensures SoldBy(legs[..n], maker, p) <= Get(shares, (maker, p)) {
        assert SoldBy(legs, maker, p) <= Get(shares, (maker, p));
      }
      PullsCovered(shares, legs[..n]);
      if legs[n].fill != 0 && o.side == SELL {
        var before := Pulls(legs[..n]);
        var debit, credit := Entry((o.maker, o.positionId), -(legs[n].fill as int)),
            Entry((EXCHANGE, o.positionId), legs[n].fill as int);
        assert Pulls(legs) == before + [debit] + [credit];
        assert (before + [debit] + [credit])[..|before| + 1] == before + [debit];
        assert (before + [debit])[..|before|] == before;
        PullsPost(legs[..n], o.positionId, o.maker);
        SumOfSnoc(before, debit, debit.account);
        assert SoldBy(legs, o.maker, o.positionId) <= Get(shares, (o.maker, o.positionId));
        SumOfSnoc(before, debit, credit.account);
        SumOfSnoc(before + [debit], credit, credit.account);
        assert Get(shares, credit.account) >= 0;
      }
    }
  }

  /** After `done`, in which every seller's shares reached the exchange, pushing the buys out is covered. */
  lemma {:induction false} PushesCovered(shares: map<Holding, int>, pulled: seq<Entry<Holding>>, legs: seq<Leg>)
    requires WalletOrders(legs) && Payable(shares, pulled)
    requires forall h: Holding :: Get(shares, h) + SumOf(pulled, h) >= 0
    requires forall p: nat :: Bought(legs, p) <= Get(shares, (EXCHANGE, p)) + SumOf(pulled, (EXCHANGE, p))
    ensures Payable(shares, pulled + Pushes(legs))
    ensures forall h: Holding | h.0 != EXCHANGE :: SumOf(Pushes(legs), h) >= 0
  {
    if legs == [] {
      assert pulled + Pushes(legs) == pulled;
    } else {
      var n := |legs| - 1;
      var o := legs[n].order;
      forall p: nat ensures Bought(legs[..n], p) <= Get(shares, (EXCHANGE, p)) + SumOf(pulled, (EXCHANGE, p)) {
        assert Bought(legs, p) <= Get(shares, (EXCHANGE, p)) + SumOf(pulled, (EXCHANGE, p));
      }
      PushesCovered(shares, pulled, legs[..n]);
      if legs[n].fill != 0 && o.side == BUY {
        PushCovered(shares, pulled, legs);
      }
    }
  }

  lemma {:induction false} PushCovered(shares: map<Holding, int>, pulled: seq<Entry<Holding>>, legs: seq<Leg>)
    requires legs != [] && WalletOrders(legs)
    requires legs[|legs| - 1].fill != 0 && legs[|legs| - 1].order.side == BUY
    requires Payable(shares, pulled + Pushes(legs[..|legs| - 1]))
    requires forall h: Holding :: Get(shares, h) + SumOf(pulled, h) >= 0
    requires forall h: Holding | h.0 != EXCHANGE :: SumOf(Pushes(legs[..|legs| - 1]), h) >= 0
    requires forall p: nat :: Bought(legs, p) <= Get(shares, (EXCHANGE, p)) + SumOf(pulled, (EXCHANGE, p))
    ensures Payable(shares, pulled + Pushes(legs))
    ensures forall h: Holding | h.0 != EXCHANGE :: SumOf(Pushes(legs), h) >= 0
  {
    var n := |legs| - 1;
    var o := legs[n].order;
    var sent := Pushes(legs[..n]);
    var before := pulled + sent;
    var debit, credit := Entry((EXCHANGE, o.positionId), -(legs[n].fill as int)),
        Entry((o.maker, o.positionId), legs[n].fill as int);
    assert pulled + Pushes(legs) == before + [debit] + [credit];
    assert (before + [debit] + [credit])[..|before| + 1] == before + [debit];
    assert (before + [debit])[..|before|] == before;
    SumOfConcat(pulled, sent, debit.account);
    SumOfConcat(pulled, sent, credit.account);
    PushesPost(legs[..n], o.positionId);
    SumOfSnoc(before, debit, debit.account);
    assert Bought(legs, o.positionId) <= Get(shares, debit.account) + SumOf(pulled, debit.account);
    SumOfSnoc(before, debit, credit.account);
    SumOfSnoc(before + [debit], credit, credit.account);
    assert Get(shares, credit.account) + SumOf(pulled, credit.account) >= 0;
    assert SumOf(sent, credit.account) >= 0;
    forall h: Holding | h.0 != EXCHANGE ensures SumOf(Pushes(legs), h) >= 0 {
      assert Pushes(legs) == sent + ShareTransfer(EXCHANGE, o.maker, o.positionId, legs[n].fill);
      SumOfConcat(sent, ShareTransfer(EXCHANGE, o.maker, o.positionId, legs[n].fill), h);
      ShareTransferSums(EXCHANGE, o.maker, o.positionId, legs[n].fill, h);
      assert SumOf(sent, h) >= 0;
    }
  }

  /**
   With the nets at zero, the share transfers of a batch go through exactly when every seller holds
   what its sell legs fill.  The exchange needs no shares of its own.
   */
  lemma {:induction false} NoInventoryNeeded(shares: map<Holding, int>, legs: seq<Leg>)
    requires NonNegative(shares) && WalletOrders(legs) && SmallFills(legs) && ShareBalanced(legs)
    ensures Payable(shares, Pulls(legs) + Pushes(legs))
       <==> forall maker, p: nat | maker != EXCHANGE :: SoldBy(legs, maker, p) <= Get(shares, (maker, p))
  {
    PullsPayable(shares, legs);
    PayablePrefix(shares, Pulls(legs) + Pushes(legs), |Pulls(legs)|);
    assert (Pulls(legs) + Pushes(legs))[..|Pulls(legs)|] == Pulls(legs);
    if Payable(shares, Pulls(legs)) {
      forall h: Holding ensures Get(shares, h) + SumOf(Pulls(legs), h) >= 0 {
        PayableNonNegative(shares, Pulls(legs), h);
      }
      forall p: nat ensures Bought(legs, p) <= Get(shares, (EXCHANGE, p)) + SumOf(Pulls(legs), (EXCHANGE, p)) {
        PullsPost(legs, p, EXCHANGE);
        NetsAreFlows(legs, p);
        assert SumOf(ShareNets(legs), p) == 0;
        assert Get(shares, (EXCHANGE, p)) >= 0;
      }
      PushesCovered(shares, Pulls(legs), legs);
    }
  }
}
