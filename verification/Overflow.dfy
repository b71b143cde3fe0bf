/**
 When nothing overflows: in a batch of fewer than 2^18 legs that sells less than 2^255 shares of each
 position, against a solvent vault holding less than 2^255, no sum that the contracts form on the way
 leaves its 256-bit type, and so no overflow is ever what stops the batch.
 */
module Overflow {
  import opened Chain
  import opened Ledgers
  import opened Fees
  import opened Settlement
  import opened Exchange
  import opened Batches
  import Custody
  import ChainRuns

  // ---- The accumulators of the order loop ----

  const TWO_237: nat := 0x2000_00000000_0000000000000000_0000000000000000_0000000000000000
  const TWO_18: nat := 0x40000

  /** What a priced leg pays or receives is below 2^237. */
  lemma {:induction false} PayoutBounded(leg: Leg, rates: Rates)
    requires Product(leg) < TWO_256 && rates.takerFeeBps <= MAX_BPS && rates.makerRebateBps <= MAX_BPS
    ensures -(TWO_237 as int) <= Payout(leg.order, leg.fill, leg.isMaker, rates) <= TWO_237
  {
    var volume := Volume(leg.order, leg.fill);
    assert volume <= TWO_256 / 1_000_000;
    var r := if leg.isMaker then rates.makerRebateBps else rates.takerFeeBps;
    MulMonotone(r, MAX_BPS, volume);
    assert volume * r <= volume * 1000;
    FeeBounded(volume, volume * r, leg.isMaker, rates);
  }

  lemma {:induction false} FeeBounded(volume: nat, product: nat, isMaker: bool, rates: Rates)
    requires product == volume * if isMaker then rates.makerRebateBps else rates.takerFeeBps
    requires product <= volume * 1000
    ensures -(volume as int) <= Fee(volume, isMaker, rates) <= volume / 10 + 1
  {}

  ghost predicate AllPriceable(legs: seq<Leg>) {
    forall i | 0 <= i < |legs| && legs[i].fill != 0 :: Product(legs[i]) < TWO_256
  }

  /** Every sum the order loop forms, per account and for the exchange, after any number of legs. */
  lemma {:induction false} AccumulatorsBounded(legs: seq<Leg>, rates: Rates, a: Address)
    requires AllPriceable(legs) && rates.takerFeeBps <= MAX_BPS && rates.makerRebateBps <= MAX_BPS
    ensures -(|legs| * TWO_237) <= SumOf(Deltas(legs, rates), a) <= |legs| * TWO_237
    ensures -(|legs| * TWO_237) <= ExchangeNet(legs, rates) <= |legs| * TWO_237
  {
    if legs == [] {
    } else {
      var n := |legs| - 1;
      var leg := legs[n];
      AccumulatorsBounded(legs[..n], rates, a);
      if leg.fill != 0 {
        PayoutBounded(leg, rates);
        var e := Entry(leg.order.maker, Payout(leg.order, leg.fill, leg.isMaker, rates));
        SumOfSnoc(Deltas(legs[..n], rates), e, a);
        SumAllSnoc(Deltas(legs[..n], rates), e);
      }
    }
  }

  /** So the accumulators of a batch of fewer than 2^18 legs stay in range. */
  lemma {:induction false} AccumulatorsNeverOverflow(x: Exch, legs: seq<Leg>, now: nat, n: nat)
    requires Admissible(x, legs, now) && n <= |legs| < TWO_18
    requires x.rates.takerFeeBps <= MAX_BPS && x.rates.makerRebateBps <= MAX_BPS
    ensures AccumulatorsFit(legs[..n], x.rates)
  {
    if n == 0 {
    } else {
      AccumulatorsNeverOverflow(x, legs, now, n - 1);
      assert legs[..n][..n - 1] == legs[..n - 1];
      LegAccumulates(x, legs, now, n);
    }
  }

  lemma {:induction false} LegAccumulates(x: Exch, legs: seq<Leg>, now: nat, n: nat)
    requires Admissible(x, legs, now) && 0 < n <= |legs| < TWO_18
    requires x.rates.takerFeeBps <= MAX_BPS && x.rates.makerRebateBps <= MAX_BPS
    ensures TurnFits(legs[..n], x.rates)
  {
    var done := legs[..n];
    forall i | 0 <= i < n && done[i].fill != 0 ensures Product(done[i]) < TWO_256 {
      assert Authentic(x, legs[i], now);
    }
    AccumulatorsBounded(done, x.rates, done[n - 1].order.maker);
    MulMonotone(n, TWO_18 - 1, TWO_237);
    assert (TWO_18 - 1) * TWO_237 < TWO_255;
  }

  // ---- The vault's loops ----

  lemma {:induction false} PostingExists(m: map<Address, int>, es: seq<Entry<Address>>) returns (m': map<Address, int>)
    ensures Posted(m, es, m')
  {
    if es == [] {
      m' := m;
    } else {
      var n := |es| - 1;
      var mid := PostingExists(m, es[..n]);
      m' := mid[es[n].account := Get(mid, es[n].account) + es[n].amount];
      forall k ensures Get(m', k) == Get(m, k) + SumOf(es, k) {
        assert Get(mid, k) == Get(m, k) + SumOf(es[..n], k);
      }
    }
  }

  /** Postings that overdraw nobody take at most everything there is. */
  lemma {:induction false} TakesAtMostAll(m: map<Address, int>, es: seq<Entry<Address>>)
    requires NonNegative(m) && Payable(m, es)
    ensures SumAll(es) >= -Total(m)
    ensures forall k :: Get(m, k) + SumOf(es, k) <= Total(m) + SumAll(es)
  {
    var m' := PostingExists(m, es);
    PostedTotal(m, es, m');
    forall k ensures Get(m', k) >= 0 {
      PayableNonNegative(m, es, k);
      assert Get(m', k) == Get(m, k) + SumOf(es, k);
    }
    TotalBounds(m', Zero);
    forall k ensures Get(m, k) + SumOf(es, k) <= Total(m) + SumAll(es) {
      TotalBounds(m', k);
      assert Get(m', k) == Get(m, k) + SumOf(es, k);
    }
  }

  /** With distinct accounts, the rest of a payable list is payable by itself. */
  lemma {:induction false} RestPayable(m: map<Address, int>, es: seq<Entry<Address>>, n: nat)
    requires NonNegative(m) && Distinct(es) && Payable(m, es) && n <= |es|
    ensures Payable(m, es[n..])
  {
    assert es == es[..n] + es[n..];
    forall k ensures Get(m, k) + SumOf(es[n..], k) >= 0 {
      SumOfConcat(es[..n], es[n..], k);
      PayableNonNegative(m, es, k);
      assert Get(m, k) >= 0;
      if i :| 0 <= i < |es[n..]| && es[n..][i].account == k {
        forall j | 0 <= j < n ensures es[..n][j].account != k {
          assert es[j].account != es[n + i].account;
        }
        SumOfAbsent(es[..n], k);
      } else {
        SumOfAbsent(es[n..], k);
      }
    }
    PayableDistinct(m, es[n..]);
  }

  /**
   Against balances that total less than 2^255, a conserving list of deltas over distinct accounts that
   overdraws nobody keeps the running sum and every balance in range at every step of the vault's loops.
   */
  lemma {:induction false} VaultLoopsFit(m: map<Address, int>, deltas: seq<Entry<Address>>, n: nat)
    requires NonNegative(m) && Total(m) < TWO_255 && Distinct(deltas) && Payable(m, deltas)
    requires SumAll(deltas) == 0 && n <= |deltas|
    ensures Signed256(SumAll(deltas[..n]))
    ensures forall k :: 0 <= Get(m, k) + SumOf(deltas[..n], k) < TWO_256
  {
    PayablePrefix(m, deltas, n);
    TakesAtMostAll(m, deltas[..n]);
    RestPayable(m, deltas, n);
    TakesAtMostAll(m, deltas[n..]);
    assert deltas == deltas[..n] + deltas[n..];
    SumAllConcat(deltas[..n], deltas[n..]);
    forall k ensures 0 <= Get(m, k) + SumOf(deltas[..n], k) < TWO_256 {
      PayableNonNegative(m, deltas[..n], k);
    }
  }

  /** So neither loop of the vault overflows. */
  lemma {:induction false} VaultNeverOverflows(m: map<Address, int>, deltas: seq<Entry<Address>>, n: nat)
    requires NonNegative(m) && Total(m) < TWO_255 && Distinct(deltas) && Payable(m, deltas)
    requires SumAll(deltas) == 0 && n <= |deltas|
    ensures Custody.SumFits(deltas[..n]) && Custody.PostingsFit(m, deltas[..n])
  {
    if n == 0 {
    } else {
      var last := deltas[n - 1];
      assert deltas[..n][..n - 1] == deltas[..n - 1];
      VaultNeverOverflows(m, deltas, n - 1);
      VaultLoopsFit(m, deltas, n);
      var done := deltas[..n - 1];
      forall i | 0 <= i < |done| ensures done[i].account != last.account {
        assert deltas[i].account != last.account;
      }
      SumOfAbsent(done, last.account);
      TotalBounds(m, last.account);
      assert SumOf(deltas[..n], last.account) == last.amount;
      assert 0 <= Get(m, last.account) + SumOf(deltas[..n], last.account) < TWO_256;
    }
  }

  /** Rates as `setFeeRates` admits them, a solvent vault holding less than 2^255, fewer than 2^18 legs. */
  ghost predicate WithinBounds(w: World, legs: seq<Leg>) {
    && w.exch.rates.takerFeeBps <= MAX_BPS && w.exch.rates.makerRebateBps <= MAX_BPS
    && ChainRuns.Surplus(w) >= 0 && Get(w.vault.usdc, VAULT) < TWO_255
    && |legs| < TWO_18
  }

  lemma {:induction false} VaultTakesWithoutOverflow(m: map<Address, int>, legs: seq<Leg>, rates: Rates)
    requires NonNegative(m) && Total(m) < TWO_255 && WalletOrders(legs) && Affordable(m, legs, rates)
    ensures VaultFits(m, legs, rates)
  {
    var deltas := VaultDeltas(legs, rates);
    DeltasAggregated(legs, rates);
    BalancingLeg(Aggregated(Deltas(legs, rates)), legs, rates);
    AggregatedPayable(m, deltas, legs, rates);
    DeltasConserve(legs, rates);
    VaultNeverOverflows(m, deltas, |deltas|);
    assert deltas[..|deltas|] == deltas;
  }

  /** An admissible batch that nobody is overdrawn by overflows neither the order loop nor the vault's loops. */
  lemma {:induction false} UsdcNeverOverflows(w: World, now: nat, legs: seq<Leg>)
    requires Admissible(w.exch, legs, now) && Affordable(w.vault.balances, legs, w.exch.rates) && WithinBounds(w, legs)
    ensures UsdcFits(w, legs)
  {
    AccumulatorsNeverOverflow(w.exch, legs, now, |legs|);
    assert legs[..|legs|] == legs;
    AdmissibleOwners(w.exch, legs, now);
    VaultTakesWithoutOverflow(w.vault.balances, legs, w.exch.rates);
  }

  /**
   Within the bounds no overflow ever stops a batch: it goes through exactly when its legs are admissible,
   the exchange does not lose USDC, the vault takes it, nobody ends overdrawn, every position nets to zero
   and the sellers can deliver.  There, the order of the legs does not matter at all.
   */
  lemma {:induction false} NoOverflowWithinBounds(w: World, tx: Tx, batchId: nat, legs: seq<Leg>)
    requires WithinBounds(w, legs) && SmallFills(legs) && forall p: nat :: Sold(legs, p) < TWO_255
    ensures LegsSettle(w, tx, batchId, legs).Committed? <==>
      && Admissible(w.exch, legs, tx.now)
      && ExchangeNet(legs, w.exch.rates) >= 0
      && VaultAccepts(w.vault, batchId)
      && Affordable(w.vault.balances, legs, w.exch.rates)
      && ShareBalanced(legs)
      && SellersDeliver(w, legs)
  {
    LegsSettleExactly(w, tx, batchId, legs);
    if Admissible(w.exch, legs, tx.now) && Affordable(w.vault.balances, legs, w.exch.rates) {
      UsdcNeverOverflows(w, tx.now, legs);
    }
    if ShareBalanced(legs) {
      BalancedNettingFits(legs);
    }
  }

  // ---- Beyond the bound on shares ----

  const TWO_254: uint256 := 0x4000000000000000_0000000000000000_0000000000000000_0000000000000000

  /** A leg for 2^254 shares of position `p`. */
  predicate Huge(leg: Leg, p: nat, side: nat) {
    leg.fill == TWO_254 && leg.order.positionId == p && leg.order.side == side
  }

  lemma {:induction false} HugeDelta(leg: Leg, p: nat)
    ensures Huge(leg, p, SELL) ==> ShareDelta(leg) == TWO_254
    ensures Huge(leg, p, BUY) ==> ShareDelta(leg) == -(TWO_254 as int)
  {}

  /** What one more leg does to the netting loop. */
  lemma {:induction false} NettingThen(legs: seq<Leg>, leg: Leg)
    requires leg.fill != 0
    ensures ShareNets(legs + [leg]) == ShareNets(legs) + [Entry(leg.order.positionId, ShareDelta(leg))]
    ensures NettingFits(legs + [leg]) <==>
      NettingFits(legs) && LegNets(leg, SumOf(ShareNets(legs), leg.order.positionId))
  {
    assert (legs + [leg])[..|legs|] == legs;
    SumOfSnoc(ShareNets(legs), Entry(leg.order.positionId, ShareDelta(leg)), leg.order.positionId);
  }

  lemma {:induction false} HugeStep(legs: seq<Leg>, leg: Leg, p: nat, side: nat, net: int)
    requires Huge(leg, p, side) && (side == SELL || side == BUY) && NettingFits(legs)
    requires SumOf(ShareNets(legs), p) == net
    ensures
      var net' := net + if side == SELL then TWO_254 as int else -(TWO_254 as int);
      && SumOf(ShareNets(legs + [leg]), p) == net'
      && (NettingFits(legs + [leg]) <==> Signed256(net'))
  {
    NettingThen(legs, leg);
    HugeDelta(leg, p);
    SumOfSnoc(ShareNets(legs), Entry(p, ShareDelta(leg)), p);
  }

  lemma {:induction false} ElsewhereSame(legs: seq<Leg>, leg: Leg, q: nat)
    requires leg.fill != 0 && q != leg.order.positionId
    ensures SumOf(ShareNets(legs + [leg]), q) == SumOf(ShareNets(legs), q)
  {
    NettingThen(legs, leg);
    SumOfSnoc(ShareNets(legs), Entry(leg.order.positionId, ShareDelta(leg)), q);
  }

  lemma {:induction false} SecondHugeSell(legs: seq<Leg>, b: Leg, p: nat)
    requires Huge(b, p, SELL) && SumOf(ShareNets(legs), p) == TWO_254
    ensures !NettingFits(legs + [b])
  {
    if NettingFits(legs) {
      HugeStep(legs, b, p, SELL, TWO_254);
    } else {
      NettingThen(legs, b);
    }
  }

  /** An overflow of the netting loop stops the batch. */
  lemma {:induction false} NettingOverflowReverts(w: World, tx: Tx, batchId: nat, legs: seq<Leg>)
    ensures !NettingFits(legs) ==> !LegsSettle(w, tx, batchId, legs).Committed?
  {}

  /**
   The bound on shares is needed, and beyond it the order of the legs matters: two sells of 2^254 shares in
   a row overflow the netting loop whatever follows them, even if everything nets to zero in the end.
   */
  lemma {:induction false} HugeSellsOverflow(a: Leg, b: Leg, rest: seq<Leg>, p: nat, w: World, tx: Tx, batchId: nat)
    requires Huge(a, p, SELL) && Huge(b, p, SELL)
    ensures !LegsSettle(w, tx, batchId, [a] + [b] + rest).Committed?
  {
    var legs, two := [a] + [b] + rest, [] + [a] + [b];
    assert two == [a] + [b] && legs[..2] == two;
    HugeStep([], a, p, SELL, 0);
    SecondHugeSell([] + [a], b, p);
    NettingFitsPrefix(legs, 2);
    NettingOverflowReverts(w, tx, batchId, legs);
  }

  lemma {:induction false} HugePair(legs: seq<Leg>, sell: Leg, buy: Leg, p: nat)
    requires Huge(sell, p, SELL) && Huge(buy, p, BUY) && NettingFits(legs) && ShareBalanced(legs)
    ensures NettingFits(legs + [sell] + [buy]) && ShareBalanced(legs + [sell] + [buy])
  {
    assert SumOf(ShareNets(legs), p) == 0;
    HugeStep(legs, sell, p, SELL, 0);
    HugeStep(legs + [sell], buy, p, BUY, TWO_254);
    forall q: nat ensures SumOf(ShareNets(legs + [sell] + [buy]), q) == 0 {
      assert SumOf(ShareNets(legs), q) == 0;
      if q != p {
        ElsewhereSame(legs, sell, q);
        ElsewhereSame(legs + [sell], buy, q);
      }
    }
  }

  /** Alternating the same sells with buys of as many shares overflows nothing and nets to zero. */
  lemma {:induction false} AlternatingFits(a: Leg, b: Leg, c: Leg, d: Leg, p: nat)
    requires Huge(a, p, SELL) && Huge(b, p, BUY) && Huge(c, p, SELL) && Huge(d, p, BUY)
    ensures NettingFits([a] + [b] + [c] + [d]) && ShareBalanced([a] + [b] + [c] + [d])
  {
    assert [] + [a] + [b] == [a] + [b];
    HugePair([], a, b, p);
    HugePair([a] + [b], c, d, p);
  }
}
