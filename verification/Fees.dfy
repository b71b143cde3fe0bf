/**
 The money one order pays or receives for one fill.  Buy volume and taker fee round up, sell volume
 and maker rebate round down; a rebate is a negative fee.
 */
module Fees {
  import opened Chain

  const SCALE: nat := 1_000_000
  const BPS: nat := 10_000
  const MAX_BPS: nat := 1000

  /** An order as signed.  `side` is a `uint8`: 0 buys, 1 sells, and the type admits 2..255 too. */
  datatype Order = Order(salt: nat, maker: Address, positionId: nat, price: nat, amount: nat,
                         side: nat, nonce: nat, deadline: nat)

  const BUY: nat := 0
  const SELL: nat := 1

  datatype Rates = Rates(takerFeeBps: nat, makerRebateBps: nat)

  function Volume(o: Order, fill: nat): (v: nat) {
    if o.side == BUY then (fill * o.price + 999_999) / 1_000_000 else fill * o.price / 1_000_000
  }

  function Fee(volume: nat, isMaker: bool, rates: Rates): (f: int) {
    if isMaker then -(volume * rates.makerRebateBps / 10_000)
    else (volume * rates.takerFeeBps + 9999) / 10_000
  }

  /** The change of the order owner's vault balance when `fill` shares of the order settle. */
  function Payout(o: Order, fill: nat, isMaker: bool, rates: Rates): (p: int) {
    var volume := Volume(o, fill);
    var fee := Fee(volume, isMaker, rates);
    if o.side == BUY then -(volume + fee) else volume - fee
  }

  /** The collateral the gateway reserves for an order: USDC for a buy, shares for a sell. */
  function RequiredCollateral(o: Order): nat {
    if o.side == BUY then (o.amount * o.price + 999_999) / 1_000_000 else o.amount
  }

  function SumFills(fills: seq<nat>): nat {
    if fills == [] then 0 else fills[0] + SumFills(fills[1..])
  }

  function SumPayouts(o: Order, fills: seq<nat>, isMaker: bool, rates: Rates): int {
    if fills == [] then 0
    else Payout(o, fills[0], isMaker, rates) + SumPayouts(o, fills[1..], isMaker, rates)
  }

  function SumVolumes(o: Order, fills: seq<nat>): nat {
    if fills == [] then 0 else Volume(o, fills[0]) + SumVolumes(o, fills[1..])
  }

  // ---- The exact rounding ----

  /** A buy's volume is the exact product rounded up to a unit, a sell's rounded down. */
  lemma {:induction false} VolumeRounds(o: Order, fill: nat)
    ensures o.side == 0 ==> fill * o.price <= 1_000_000 * Volume(o, fill) < fill * o.price + 1_000_000
    ensures o.side != 0 ==> 1_000_000 * Volume(o, fill) <= fill * o.price < 1_000_000 * (Volume(o, fill) + 1)
  {}

  /** A taker's fee is the exact share rounded up, and a maker's rebate, a negative fee, rounded down. */
  lemma {:induction false} FeeRounds(volume: nat, rates: Rates)
    ensures
      var product, fee := volume * rates.takerFeeBps, Fee(volume, false, rates);
      product <= 10_000 * fee < product + 10_000
    ensures
      var product, rebate := volume * rates.makerRebateBps, -Fee(volume, true, rates);
      10_000 * rebate <= product < 10_000 * (rebate + 1)
  {}

  // ---- Arithmetic ----

  lemma {:induction false} MulMonotone(a: nat, b: nat, c: nat)
    requires a <= b
    ensures a * c <= b * c
  {}

  lemma {:induction false} MulSum(a: nat, b: nat, c: nat)
    ensures (a + b) * c == a * c + b * c
  {}

  /** Rounding up twice never comes to less than rounding up once, nor down twice to more. */
  lemma {:induction false} VolumeSplits(o: Order, a: nat, b: nat)
    ensures o.side == BUY ==> Volume(o, a + b) <= Volume(o, a) + Volume(o, b) <= Volume(o, a + b) + 1
    ensures o.side != BUY ==> Volume(o, a) + Volume(o, b) <= Volume(o, a + b)
  {
    MulSum(a, b, o.price);
  }

  /** What a buyer pays on a volume: grows with the volume, and splitting the volume never lowers it. */
  lemma {:induction false} ChargeSplits(v: nat, v1: nat, v2: nat, isMaker: bool, rates: Rates)
    requires rates.makerRebateBps <= BPS
    requires v <= v1 + v2
    ensures v + Fee(v, isMaker, rates) <= v1 + Fee(v1, isMaker, rates) + v2 + Fee(v2, isMaker, rates)
  {
    var d := v1 + v2 - v;
    var r := if isMaker then rates.makerRebateBps else rates.takerFeeBps;
    assert (v1 + v2) * r == v * r + d * r by { MulSum(v, d, r); }
    MulSum(v1, v2, r);
    if isMaker {
      MulMonotone(r, BPS, d);
      assert d * r <= d * 10_000;
    }
  }

  /** What a seller receives on a volume: grows with the volume, and splitting never raises it. */
  lemma {:induction false} ProceedsSplit(v: nat, v1: nat, v2: nat, isMaker: bool, rates: Rates)
    requires rates.takerFeeBps <= BPS
    requires v1 + v2 <= v
    ensures v1 - Fee(v1, isMaker, rates) + v2 - Fee(v2, isMaker, rates) <= v - Fee(v, isMaker, rates)
  {
    var d := v - v1 - v2;
    var r := if isMaker then rates.makerRebateBps else rates.takerFeeBps;
    assert v * r == (v1 + v2) * r + d * r by { MulSum(v1 + v2, d, r); }
    MulSum(v1, v2, r);
    if !isMaker {
      MulMonotone(r, BPS, d);
      assert d * r <= d * 10_000;
    }
  }

  /** Settling two fills separately never serves the user better than settling them as one. */
  lemma {:induction false} PayoutSplits(o: Order, a: nat, b: nat, isMaker: bool, rates: Rates)
    requires rates.takerFeeBps <= BPS && rates.makerRebateBps <= BPS
    ensures Payout(o, a, isMaker, rates) + Payout(o, b, isMaker, rates) <= Payout(o, a + b, isMaker, rates)
  {
    VolumeSplits(o, a, b);
    var v, v1, v2 := Volume(o, a + b), Volume(o, a), Volume(o, b);
    if o.side == BUY {
      ChargeSplits(v, v1, v2, isMaker, rates);
    } else {
      ProceedsSplit(v, v1, v2, isMaker, rates);
    }
  }

  /**
   Splitting never helps the user, on either side and in either role: `k` pieces together pay the
   user no more, or charge no less, than the same shares settled at once.
   */
  lemma {:induction false} SplittingNeverHelps(o: Order, fills: seq<nat>, isMaker: bool, rates: Rates)
    requires rates.takerFeeBps <= MAX_BPS && rates.makerRebateBps <= MAX_BPS
    ensures SumPayouts(o, fills, isMaker, rates) <= Payout(o, SumFills(fills), isMaker, rates)
  {
    if fills != [] {
      SplittingNeverHelps(o, fills[1..], isMaker, rates);
      PayoutSplits(o, fills[0], SumFills(fills[1..]), isMaker, rates);
    } else {
      assert Volume(o, 0) == 0;
    }
  }

  lemma {:induction false} PiecesOverrun(o: Order, fills: seq<nat>)
    requires o.side == BUY && fills != []
    ensures Volume(o, SumFills(fills)) <= SumVolumes(o, fills) <= Volume(o, SumFills(fills)) + |fills| - 1
  {
    if |fills| > 1 {
      PiecesOverrun(o, fills[1..]);
      VolumeSplits(o, fills[0], SumFills(fills[1..]));
    } else {
      assert fills[1..] == [];
      assert Volume(o, 0) == 0;
    }
  }

  /**
   A buy order filled in `k` pieces, never beyond its amount, is charged a volume of at most its
   reserved collateral plus one unit for every piece after the first.
   */
  lemma {:induction false} CollateralOverrun(o: Order, fills: seq<nat>)
    requires o.side == BUY && fills != [] && SumFills(fills) <= o.amount
    ensures SumVolumes(o, fills) <= RequiredCollateral(o) + |fills| - 1
  {
    PiecesOverrun(o, fills);
    MulMonotone(SumFills(fills), o.amount, o.price);
  }

  /** The bound is reached: one share at a time, each piece of a 1-unit price costs a whole unit. */
  lemma {:induction false} CollateralOverrunIsTight(k: nat)
    requires 0 < k <= SCALE
    ensures
      var o := Order(0, Wallet(0), 0, 1, k, BUY, 0, 0);
      var fills := seq(k, _ => 1);
      SumFills(fills) == o.amount && SumVolumes(o, fills) == RequiredCollateral(o) + k - 1
  {
    OnesCost(k, Order(0, Wallet(0), 0, 1, k, BUY, 0, 0));
  }

  lemma {:induction false} OnesCost(k: nat, o: Order)
    requires o.side == BUY && o.price == 1
    ensures SumFills(seq(k, _ => 1)) == k && SumVolumes(o, seq(k, _ => 1)) == k
  {
    if k == 0 {
    } else {
      OnesCost(k - 1, o);
      assert seq(k, _ => 1)[1..] == seq(k - 1, _ => 1);
      assert Volume(o, 1) == 1;
    }
  }

  // ---- Takers and makers ----

  /** The better a maker's price is for the taker, the less the maker is paid, or the more it is charged. */
  lemma {:induction false} BetterPricePaysNoMore(o: Order, l: Order, fill: nat, rates: Rates)
    requires rates.makerRebateBps <= BPS && o.side == l.side
    requires if o.side == BUY then o.price >= l.price else o.price <= l.price
    ensures Payout(o, fill, true, rates) <= Payout(l, fill, true, rates)
  {
    if o.side == BUY {
      MulMonotone(l.price, o.price, fill);
      ChargeSplits(Volume(l, fill), Volume(o, fill), 0, true, rates);
    } else {
      MulMonotone(o.price, l.price, fill);
      MulMonotone(Volume(o, fill), Volume(l, fill), rates.makerRebateBps);
    }
  }

  /** One maker and one taker at the same price: the taker's fee covers the maker's rebate. */
  lemma {:induction false} FeeCoversRebate(taker: Order, maker: Order, fill: nat, rates: Rates)
    requires rates.makerRebateBps <= rates.takerFeeBps && rates.makerRebateBps <= BPS
    requires taker.price == maker.price && (taker.side == BUY <==> maker.side != BUY)
    ensures Payout(taker, fill, false, rates) + Payout(maker, fill, true, rates) <= 0
  {
    var up, down := (fill * taker.price + 999_999) / 1_000_000, fill * taker.price / 1_000_000;
    var fee, rebate := rates.takerFeeBps, rates.makerRebateBps;
    MulMonotone(rebate, fee, down);
    assert down * rebate <= down * fee;
    if taker.side == BUY {
      MulMonotone(down, up, fee);
      assert Volume(taker, fill) == up && Volume(maker, fill) == down;
    } else {
      assert Volume(taker, fill) == down && Volume(maker, fill) == up;
      MulSum(down, up - down, rebate);
      MulMonotone(rebate, BPS, up - down);
      assert up * rebate <= down * rebate + (up - down) * 10_000;
    }
  }

  /** Filling nothing pays nothing. */
  lemma {:induction false} NothingPays(o: Order, isMaker: bool, rates: Rates)
    ensures Payout(o, 0, isMaker, rates) == 0
  {
    assert Volume(o, 0) == 0;
  }

  // ---- Collateral ----

  /**
   A sell reserves exactly the shares that its fills can ask for; a buy reserves exactly the volume of its
   full amount, rounded up.
   */
  lemma {:induction false} CollateralIsExact(o: Order, fills: seq<nat>)
    requires SumFills(fills) <= o.amount
    ensures o.side != 0 ==> SumFills(fills) <= RequiredCollateral(o)
    ensures o.side != 0 && SumFills(fills) == o.amount ==> SumFills(fills) == RequiredCollateral(o)
    ensures o.side == 0 ==>
      o.amount * o.price <= 1_000_000 * RequiredCollateral(o) < o.amount * o.price + 1_000_000
  {
    VolumeRounds(o, o.amount);
  }
}
