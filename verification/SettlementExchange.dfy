/** The settlement exchange and the share ledger it moves outcome shares in. */
module SettlementExchange {
  import opened Chain
  import opened Ledgers
  import opened Fees
  import opened Settlement
  import opened Exchange
  import C = Custody

  /** The ERC-1155 share ledger, reduced to balances, approvals and transfers. */
  class ConditionalTokens {
    var shares: Shares
    var approvals: set<(Address, Address)>

    constructor (shares: Shares, approvals: set<(Address, Address)>)
      ensures this.shares == shares && this.approvals == approvals
    {
      this.shares, this.approvals := shares, approvals;
    }

    method SafeTransferFrom(caller: Address, from: Address, to: Address, positionId: nat,
                            amount: nat) returns (ok: bool)
      requires to != Zero
      modifies this`shares
      ensures ok <==> (from == caller || (from, caller) in approvals) && Get(old(shares), (from, positionId)) >= amount
      ensures if ok then Posted(old(shares), ShareTransfer(from, to, positionId, amount), shares)
          else shares == old(shares)
    {
      if !(from == caller || (from, caller) in approvals) || Get(shares, (from, positionId)) < amount {
        return false;
      }
      shares := shares[(from, positionId) := Get(shares, (from, positionId)) - amount];
      shares := shares[(to, positionId) := Get(shares, (to, positionId)) + amount];
      forall h ensures Get(shares, h) == Get(old(shares), h) + SumOf(ShareTransfer(from, to, positionId, amount), h) {
        ShareTransferSums(from, to, positionId, amount, h);
      }
      return true;
    }
  }

  /** What the vault has just paid, the exchange can pay on. */
  lemma {:induction false} PaidInto(usdc: C.Balances, amount: nat, usdc': C.Balances)
    requires Posted(usdc, C.Transfer(VAULT, EXCHANGE, amount), usdc')
    ensures Get(usdc', EXCHANGE) == Get(usdc, EXCHANGE) + amount
  {
    C.TransferSums(VAULT, EXCHANGE, amount, EXCHANGE);
    assert Get(usdc', EXCHANGE) == Get(usdc, EXCHANGE) + SumOf(C.Transfer(VAULT, EXCHANGE, amount), EXCHANGE);
  }

  class SettlementExchange {
    const custody: C.Custody
    const ctf: ConditionalTokens
    const usdc: C.Token
    var takerFeeBps: nat
    var makerRebateBps: nat
    var filledAmount: map<Order, nat>
    var nonces: map<Address, nat>
    var settledBatches: set<nat>
    var paused: bool
    var roles: Grants

    function Storage(): Exch
      reads this
    {
      Exch(filledAmount, nonces, settledBatches, Rates(takerFeeBps, makerRebateBps), paused, roles)
    }

    function State(): World
      reads this, custody, custody.usdc, ctf
    {
      World(custody.State(), Storage(), ctf.shares, ctf.approvals)
    }

    constructor (custody: C.Custody, ctf: ConditionalTokens, usdc: C.Token, admin: Address)
      ensures this.custody == custody && this.ctf == ctf && this.usdc == usdc
      ensures Storage() == Exch(map[], map[], {}, Rates(0, 0), false, {(DefaultAdmin, admin)})
    {
      this.custody, this.ctf, this.usdc := custody, ctf, usdc;
      takerFeeBps, makerRebateBps := 0, 0;
      filledAmount, nonces, settledBatches := map[], map[], {};
      paused, roles := false, {(DefaultAdmin, admin)};
    }

    // ---- Batches ----

    method SettleBatch(tx: Tx, batchId: nat, orders: seq<SignedOrder>, fills: seq<uint256>, isMaker: seq<bool>)
      returns (r: Result)
      modifies this, custody, ctf
      ensures BatchNext(old(State()), tx, batchId, orders, fills, isMaker, r, State())
    {
      if (Operator, tx.sender) !in roles { return Reverted(Unauthorized); }
      if paused { return Reverted(EnforcedPause); }
      if batchId in settledBatches { return Reverted(BatchAlreadySettled); }
      var before := State();
      settledBatches := settledBatches + {batchId};
      if |orders| != |fills| || |orders| != |isMaker| {
        settledBatches := before.exch.settled;
        return Reverted(LengthMismatch);
      }
      r := SettleLegs(tx, batchId, orders, fills, isMaker);
      if r.Reverted? {
        filledAmount, settledBatches := before.exch.filled, before.exch.settled;
        custody.Rollback(before.vault);
        ctf.shares := before.shares;
      }
    }

    /** The body of `settleBatch` after the batch is marked; on a revert the caller undoes it. */
    method SettleLegs(tx: Tx, batchId: nat, orders: seq<SignedOrder>, fills: seq<uint256>, isMaker: seq<bool>)
      returns (r: Result)
      requires |orders| == |fills| == |isMaker|
      modifies this`filledAmount, custody, ctf`shares
      ensures r == LegsSettle(old(State()), tx, batchId, Legs(orders, fills, isMaker))
      ensures r.Committed? ==>
        var w, w', legs := old(State()), State(), Legs(orders, fills, isMaker);
        BatchEffect(w, tx, batchId, legs, w'.(exch := w'.exch.(settled := w.exch.settled + {batchId})))
    {
      ghost var legs := Legs(orders, fills, isMaker);
      ghost var x := Storage();
      var deltas := new Entry<Address>[|orders| + 1](_ => Entry(Zero, 0));
      var count, exchangeUsdcNet;
      r, count, exchangeUsdcNet := AccrueLegs(tx.now, orders, fills, isMaker, deltas);
      if r.Reverted? { return; }
      if exchangeUsdcNet < 0 { return Reverted(ExchangeUsdcNetNegative); }
      ChecksMeanAdmissible(x, legs, tx.now);
      AdmissibleOwners(x, legs, tx.now);
      var applied := ApplyBatch(tx.now, batchId, deltas, count, exchangeUsdcNet, legs, x.rates);
      if applied.Reverted? { return Reverted(VaultReverted(applied.error)); }
      r := SettleCtf(orders, fills, isMaker);
    }

    /** Appends the exchange's own leg and hands the aggregated deltas to the vault. */
    method ApplyBatch(now: nat, batchId: nat, deltas: array<Entry<Address>>, count: nat, exchangeUsdcNet: int,
                      ghost legs: seq<Leg>, ghost rates: Rates)
      returns (applied: Status<C.VaultError>)
      requires count < deltas.Length && WalletOrders(legs) && exchangeUsdcNet == ExchangeNet(legs, rates)
      requires deltas[..count] == Aggregated(Deltas(legs, rates))
      modifies deltas, custody
      ensures applied == ApplyVerdict(old(custody.State()), now, batchId, legs, rates)
      ensures if applied.Committed? then BatchApplied(old(custody.State()), now, batchId, legs, rates, custody.State())
              else custody.State() == old(custody.State())
    {
      ghost var owners, v := deltas[..count], custody.State();
      deltas[count] := Entry(EXCHANGE, exchangeUsdcNet);
      var trimmed := Trim(deltas, count + 1);
      assert trimmed[..] == owners + [Entry(EXCHANGE, exchangeUsdcNet)];
      applied := custody.ApplyNetDeltas(Tx(EXCHANGE, now), batchId, trimmed[..]);
      DeltasAggregated(legs, rates);
      AggregateApplies(v, now, batchId, owners, legs, rates, applied, custody.State());
    }

    /** The order loop: checks every leg, records its fill, and aggregates what it moves per account. */
    method AccrueLegs(now: nat, orders: seq<SignedOrder>, fills: seq<uint256>, isMaker: seq<bool>,
                      deltas: array<Entry<Address>>)
      returns (r: Result, count: nat, exchangeUsdcNet: int)
      requires |orders| == |fills| == |isMaker| && deltas.Length == |orders| + 1
      modifies this`filledAmount, deltas
      ensures
        var legs := Legs(orders, fills, isMaker);
        && r == LegsVerdict(nonces, old(filledAmount), Rates(takerFeeBps, makerRebateBps), legs, now)
        && (r.Committed? ==>
              count <= |orders| && Progress(old(Storage()), legs, now, filledAmount, deltas[..count], exchangeUsdcNet))
    {
      ghost var legs := Legs(orders, fills, isMaker);
      ghost var x := Storage();
      count, exchangeUsdcNet := 0, 0;
      for i := 0 to |orders|
        invariant Storage() == x.(filled := filledAmount) && count <= i
        invariant Progress(x, legs[..i], now, filledAmount, deltas[..count], exchangeUsdcNet)
      {
        ghost var agg, filled, net := deltas[..count], filledAmount, exchangeUsdcNet;
        ProgressDistinct(x, legs[..i], now, filled, agg, net);
        assert x.nonces == nonces && x.rates == Rates(takerFeeBps, makerRebateBps);
        assert legs[i] == Leg(orders[i].order, orders[i].signature, fills[i], isMaker[i]);
        r, count, exchangeUsdcNet := AccrueLeg(now, orders[i], fills[i], isMaker[i], deltas, count, exchangeUsdcNet);
        OrderTurn(x, legs, i, now, filled, agg, net, r, filledAmount, deltas[..count], exchangeUsdcNet);
        if r.Reverted? { return; }
      }
      assert legs[..|orders|] == legs;
      r := Committed;
    }

    /** One turn of the order loop. */
    method AccrueLeg(now: nat, signed: SignedOrder, fill: uint256, isMaker: bool, deltas: array<Entry<Address>>,
                     count: nat, exchangeUsdcNet: int)
      returns (r: Result, count': nat, exchangeUsdcNet': int)
      requires count < deltas.Length && Distinct(deltas[..count])
      modifies this`filledAmount, deltas
      ensures
        var leg := Leg(signed.order, signed.signature, fill, isMaker);
        && r == AccrualVerdict(LegVerdict(nonces, Get(old(filledAmount), signed.order), leg, now), leg,
                               SumOf(old(deltas[..count]), signed.order.maker), exchangeUsdcNet,
                               Payout(signed.order, fill, isMaker, Rates(takerFeeBps, makerRebateBps)))
        && count <= count' <= count + 1
        && (r.Committed? ==>
              LegAccrued(Rates(takerFeeBps, makerRebateBps), leg,
                         old(filledAmount), old(deltas[..count]), exchangeUsdcNet,
                         filledAmount, deltas[..count'], exchangeUsdcNet'))
    {
      count', exchangeUsdcNet' := count, exchangeUsdcNet;
      if fill == 0 { return Committed, count, exchangeUsdcNet; }
      var o := signed.order;
      if now > o.deadline { return Reverted(OrderExpired), count, exchangeUsdcNet; }
      if o.nonce != C.NonceOf(nonces, o.maker) { return Reverted(InvalidNonce), count, exchangeUsdcNet; }
      if Recover(signed.signature) != Recovered(o.maker) { return Reverted(InvalidSignature), count, exchangeUsdcNet; }
      var filled := Get(filledAmount, o);
      if filled + fill > o.amount { return Reverted(Overfill), count, exchangeUsdcNet; }
      if fill * o.price + (if o.side == BUY then 999_999 else 0) >= TWO_256 {
        return Reverted(ArithmeticOverflow), count, exchangeUsdcNet;
      }
      filledAmount := filledAmount[o := filled + fill];

      var volume: int := if o.side == 0 then (fill * o.price + 999_999) / 1_000_000 else fill * o.price / 1_000_000;
      var fee := if isMaker then -((volume * makerRebateBps) / 10_000) else (volume * takerFeeBps + 9999) / 10_000;
      var fits;
      if o.side == 0 {
        fits, count' := Accrue(deltas, count, o.maker, -(volume + fee));
        exchangeUsdcNet' := exchangeUsdcNet + (volume + fee);
      } else {
        fits, count' := Accrue(deltas, count, o.maker, volume - fee);
        exchangeUsdcNet' := exchangeUsdcNet - (volume - fee);
      }
      r := if fits && Signed256(exchangeUsdcNet') then Committed else Reverted(ArithmeticOverflow);
    }

    /**
     Adds `amount` to the entry of `account`, or appends one, unless that overflows.  Returns how many
     entries there are then.
     */
    static method Accrue(deltas: array<Entry<Address>>, count: nat, account: Address, amount: int)
      returns (fits: bool, count': nat)
      requires count < deltas.Length && Distinct(deltas[..count])
      modifies deltas
      ensures fits <==> Signed256(SumOf(old(deltas[..count]), account) + amount)
      ensures count <= count' <= count + 1
      ensures fits ==> Accrued(old(deltas[..count]), Entry(account, amount), deltas[..count'])
    {
      for i := 0 to count
        invariant forall j | 0 <= j < i :: deltas[j].account != account
        invariant deltas[..] == old(deltas[..])
      {
        if deltas[i].account == account {
          SumOfDistinct(deltas[..count], i);
          if !Signed256(deltas[i].amount + amount) { return false, count; }
          deltas[i] := Entry(account, deltas[i].amount + amount);
          assert deltas[..count] == old(deltas[..count])[i := Entry(account, old(deltas[i]).amount + amount)];
          assert AddedAt(old(deltas[..count]), i, Entry(account, amount), deltas[..count]);
          return true, count;
        }
      }
      SumOfAbsent(deltas[..count], account);
      deltas[count] := Entry(account, amount);
      assert deltas[..count + 1] == old(deltas[..count]) + [Entry(account, amount)];
      return Signed256(amount), count + 1;
    }

    /** A copy of the first `count` entries. */
    static method Trim(deltas: array<Entry<Address>>, count: nat) returns (out: array<Entry<Address>>)
      requires count <= deltas.Length
      ensures fresh(out) && out[..] == deltas[..count]
    {
      out := new Entry<Address>[count](_ => Entry(Zero, 0));
      for i := 0 to count
        invariant forall j | 0 <= j < i :: out[j] == deltas[j]
      {
        out[i] := deltas[i];
      }
    }

    // ---- Outcome shares ----

    method SettleCtf(orders: seq<SignedOrder>, fills: seq<uint256>, ghost isMaker: seq<bool>) returns (r: Result)
      requires |orders| == |fills| == |isMaker| && WalletOrders(Legs(orders, fills, isMaker))
      modifies ctf`shares
      ensures
        var legs := Legs(orders, fills, isMaker);
        && r == SharesVerdict(old(ctf.shares), ctf.approvals, legs)
        && (r.Committed? ==> Posted(old(ctf.shares), Pulls(legs) + Pushes(legs), ctf.shares))
    {
      ghost var legs := Legs(orders, fills, isMaker);
      ghost var start := ctf.shares;
      var positions := new nat[|orders|](_ => 0);
      var nets := new int[|orders|](_ => 0);
      var fits, pCount := NetPositions(orders, fills, isMaker, positions, nets);
      if !fits { return Reverted(ArithmeticOverflow); }
      var conserved := AllZero(nets, pCount);
      NettedZero(legs, positions[..pCount], nets[..pCount]);
      if !conserved { return Reverted(CtfNotConserved); }
      assert (Pulls(legs) + Pushes(legs))[..|Pulls(legs)|] == Pulls(legs);
      PayablePrefix(start, Pulls(legs) + Pushes(legs), |Pulls(legs)|);
      var ok := PullSells(orders, fills, isMaker);
      if ok {
        ok := PushBuys(start, orders, fills, isMaker);
      }
      return if ok then Committed else Reverted(ShareTransferFailed);
    }

    /** Whether the first `count` nets are all zero. */
    static method AllZero(nets: array<int>, count: nat) returns (zero: bool)
      requires count <= nets.Length
      ensures zero <==> forall j | 0 <= j < count :: nets[..count][j] == 0
    {
      for j := 0 to count
        invariant forall k | 0 <= k < j :: nets[k] == 0
      {
        if nets[j] != 0 {
          assert nets[..count][j] != 0;
          return false;
        }
      }
      return true;
    }

    /** Nets the share flow per position, in two parallel arrays scanned linearly, unless a sum overflows. */
    static method NetPositions(orders: seq<SignedOrder>, fills: seq<uint256>, ghost isMaker: seq<bool>,
                               positions: array<nat>, nets: array<int>)
      returns (fits: bool, pCount: nat)
      requires |orders| == |fills| == |isMaker| == positions.Length == nets.Length
      modifies positions, nets
      ensures fits <==> NettingFits(Legs(orders, fills, isMaker))
      ensures pCount <= |orders|
      ensures fits ==> Netted(positions[..pCount], nets[..pCount], ShareNets(Legs(orders, fills, isMaker)))
    {
      ghost var legs := Legs(orders, fills, isMaker);
      pCount := 0;
      for i := 0 to |orders|
        invariant pCount <= i && NettingFits(legs[..i])
        invariant Netted(positions[..pCount], nets[..pCount], ShareNets(legs[..i]))
      {
        NettingTurn(legs, i);
        fits, pCount := NetLeg(orders[i].order, fills[i], positions, nets, pCount, legs[i], ShareNets(legs[..i]));
        if !fits { return; }
      }
      assert legs[..|orders|] == legs;
      fits := true;
    }

    /** One turn of the netting loop. */
    static method NetLeg(o: Order, fill: uint256, positions: array<nat>, nets: array<int>, pCount: nat,
                         ghost leg: Leg, ghost raw: seq<Entry<nat>>)
      returns (fits: bool, pCount': nat)
      requires pCount < positions.Length == nets.Length && leg.order == o && leg.fill == fill
      requires Netted(positions[..pCount], nets[..pCount], raw)
      modifies positions, nets
      ensures fits <==> LegNets(leg, SumOf(raw, leg.order.positionId))
      ensures pCount <= pCount' <= pCount + 1
      ensures fits ==> Netted(positions[..pCount'], nets[..pCount'], NetsWith(raw, leg))
    {
      if fill == 0 { return true, pCount; }
      var delta := if o.side == 1 then ToInt256(fill) else -ToInt256(fill);
      if !Signed256(delta) { return false, pCount; }
      ghost var ps, ns := positions[..pCount], nets[..pCount];
      NetKnown(ps, ns, raw, o.positionId);
      fits, pCount' := NetPosition(positions, nets, pCount, o.positionId, delta, SumOf(raw, o.positionId));
      if fits {
        NettedSteps(ps, ns, raw, Entry(o.positionId, delta), positions[..pCount'], nets[..pCount']);
      }
    }

    /** Adds `delta` to the net of `positionId`, unless that overflows, or starts one; `net` is what it is so far. */
    static method NetPosition(positions: array<nat>, nets: array<int>, pCount: nat, positionId: nat, delta: int,
                              ghost net: int)
      returns (fits: bool, pCount': nat)
      requires pCount < positions.Length == nets.Length && Signed256(delta)
      requires NetIs(positions[..pCount], nets[..pCount], positionId, net)
      modifies positions, nets
      ensures fits <==> Signed256(net + delta)
      ensures pCount <= pCount' <= pCount + 1
      ensures fits ==> NetAdded(old(positions[..pCount]), old(nets[..pCount]), Entry(positionId, delta),
                                positions[..pCount'], nets[..pCount'])
    {
      for j := 0 to pCount
        invariant positions[..] == old(positions[..]) && nets[..] == old(nets[..])
        invariant positionId !in positions[..j]
      {
        if positions[j] == positionId {
          assert old(positions[..pCount])[j] == positionId && nets[..pCount][j] == net;
          if !Signed256(nets[j] + delta) { return false, pCount; }
          nets[j] := nets[j] + delta;
          assert nets[..pCount] == old(nets[..pCount])[j := old(nets[j]) + delta];
          return true, pCount;
        }
      }
      positions[pCount], nets[pCount] := positionId, delta;
      assert positions[..pCount + 1] == old(positions[..pCount]) + [positionId];
      assert nets[..pCount + 1] == old(nets[..pCount]) + [delta];
      return true, pCount + 1;
    }

    /** Pulls the shares of every sell in from its owner. */
    method PullSells(orders: seq<SignedOrder>, fills: seq<uint256>, ghost isMaker: seq<bool>) returns (ok: bool)
      requires |orders| == |fills| == |isMaker| && WalletOrders(Legs(orders, fills, isMaker))
      modifies ctf`shares
      ensures
        var legs := Legs(orders, fills, isMaker);
        && (ok <==> SellersApproved(ctf.approvals, legs) && Payable(old(ctf.shares), Pulls(legs)))
        && (ok ==> Posted(old(ctf.shares), Pulls(legs), ctf.shares))
    {
      ghost var legs := Legs(orders, fills, isMaker);
      ghost var start := ctf.shares;
      for i := 0 to |orders|
        invariant SellersApproved(ctf.approvals, legs[..i]) && Payable(start, Pulls(legs[..i]))
        invariant Posted(start, Pulls(legs[..i]), ctf.shares)
      {
        assert legs[..i + 1][..i] == legs[..i];
        var fill := fills[i];
        if fill == 0 { continue; }
        var o := orders[i].order;
        if o.side == 1 {
          ghost var mid := ctf.shares;
          PullStep(start, legs, i, mid, ctf.approvals);
          ok := ctf.SafeTransferFrom(EXCHANGE, o.maker, EXCHANGE, o.positionId, fill);
          if !ok { return; }
          PostedThen(start, Pulls(legs[..i]), mid, ShareTransfer(o.maker, EXCHANGE, o.positionId, fill), ctf.shares);
        }
      }
      assert legs[..|orders|] == legs;
      ok := true;
    }

    /** Pushes the shares of every buy out to its owner. */
    method PushBuys(ghost start: Shares, orders: seq<SignedOrder>, fills: seq<uint256>, ghost isMaker: seq<bool>)
      returns (ok: bool)
      requires |orders| == |fills| == |isMaker| && WalletOrders(Legs(orders, fills, isMaker))
      requires
        var legs := Legs(orders, fills, isMaker);
        Payable(start, Pulls(legs)) && Posted(start, Pulls(legs), ctf.shares)
      modifies ctf`shares
      ensures
        var legs := Legs(orders, fills, isMaker);
        && (ok <==> Payable(start, Pulls(legs) + Pushes(legs)))
        && (ok ==> Posted(start, Pulls(legs) + Pushes(legs), ctf.shares))
    {
      ghost var legs := Legs(orders, fills, isMaker);
      ghost var pulls := Pulls(legs);
      assert pulls + Pushes(legs[..0]) == pulls;
      for i := 0 to |orders|
        invariant Payable(start, pulls + Pushes(legs[..i]))
        invariant Posted(start, pulls + Pushes(legs[..i]), ctf.shares)
      {
        assert legs[..i + 1][..i] == legs[..i];
        var fill := fills[i];
        if fill == 0 { continue; }
        var o := orders[i].order;
        if o.side == 0 {
          ghost var mid := ctf.shares;
          PushStep(start, pulls, legs, i, mid);
          ok := ctf.SafeTransferFrom(EXCHANGE, EXCHANGE, o.maker, o.positionId, fill);
          if !ok { return; }
          PushedSteps(start, pulls, legs, i, mid, ctf.shares);
        }
      }
      assert legs[..|orders|] == legs;
      ok := true;
    }

    // ---- Everything else ----

    method SetFeeRates(tx: Tx, takerFeeBps: nat, makerRebateBps: nat) returns (r: Result)
      modifies this
      ensures r == SetFeeRatesVerdict(old(State()), tx, takerFeeBps, makerRebateBps)
      ensures State() == if r.Committed? then
          old(State()).(exch := old(Storage()).(rates := Rates(takerFeeBps, makerRebateBps)))
                         else old(State())
    {
      if (DefaultAdmin, tx.sender) !in roles { return Reverted(Unauthorized); }
      if takerFeeBps > 1000 || makerRebateBps > 1000 { return Reverted(InvalidFee); }
      this.takerFeeBps := takerFeeBps;
      this.makerRebateBps := makerRebateBps;
      return Committed;
    }

    method CancelAllOrders(tx: Tx) returns (next: nat)
      modifies this
      ensures next == C.NonceOf(old(nonces), tx.sender) + 1
      ensures State() == old(State()).(exch := old(Storage()).(nonces := old(nonces)[tx.sender := next]))
    {
      next := C.NonceOf(nonces, tx.sender) + 1;
      nonces := nonces[tx.sender := next];
    }

    method Pause(tx: Tx) returns (r: Result)
      modifies this
      ensures r == PauseVerdict(old(State()), tx, false)
      ensures State() == if r.Committed? then old(State()).(exch := old(Storage()).(paused := true)) else old(State())
    {
      if (Pauser, tx.sender) !in roles { return Reverted(Unauthorized); }
      if paused { return Reverted(EnforcedPause); }
      paused := true;
      return Committed;
    }

    method Unpause(tx: Tx) returns (r: Result)
      modifies this
      ensures r == PauseVerdict(old(State()), tx, true)
      ensures State() == if r.Committed? then old(State()).(exch := old(Storage()).(paused := false)) else old(State())
    {
      if (Pauser, tx.sender) !in roles { return Reverted(Unauthorized); }
      if !paused { return Reverted(ExpectedPause); }
      paused := false;
      return Committed;
    }

    /** Takes fees out of the vault, which pays only the exchange itself, and forwards them. */
    method WithdrawFees(tx: Tx, amount: nat, to: Address, deadline: nat, auth: C.Authorization) returns (r: Result)
      modifies custody, custody.usdc, usdc
      ensures usdc == custody.usdc ==>
        && r == FeesVerdict(old(State()), tx, amount, to, deadline, auth)
        && if r.Committed? then FeesEffect(old(State()), amount, to, State()) else State() == old(State())
      ensures usdc != custody.usdc ==>
        && r == ForeignFeesVerdict(old(State()), old(usdc.balances), tx, amount, to, deadline, auth)
        && (if r.Committed? then ForeignFeesEffect(old(State()), old(usdc.balances), tx, amount, to, deadline, auth,
                                                   State(), usdc.balances)
            else State() == old(State()) && usdc.balances == old(usdc.balances))
    {
      if (DefaultAdmin, tx.sender) !in roles { return Reverted(Unauthorized); }
      var before := State();
      var w := custody.Withdraw(Tx(EXCHANGE, tx.now), amount, deadline, auth);
      if w.Reverted? { return Reverted(VaultReverted(w.error)); }
      ghost var mid := usdc.balances;
      if usdc == custody.usdc {
        PaidInto(before.vault.usdc, amount, mid);
      }
      var ok := usdc.TransferFrom(EXCHANGE, to, amount);
      if !ok {
        custody.Rollback(before.vault);
        custody.usdc.balances := before.vault.usdc;
        return Reverted(UsdcTransferFailed);
      }
      if usdc == custody.usdc {
        PostedThen(before.vault.usdc, C.Transfer(VAULT, EXCHANGE, amount), mid,
                   C.Transfer(EXCHANGE, to, amount), usdc.balances);
      }
      return Committed;
    }
  }
}
