/**
 Whole runs of the matcher, settled: every result of every run yields a batch the exchange can settle,
 and settling them one after another never fills an order beyond the amount its owner signed.
 */
module SettledRuns {
  import opened Chain
  import opened Ledgers
  import Fees
  import S = Settlement
  import X = Exchange
  import B = Batches
  import R = ChainRuns
  import opened Matching
  import opened OrderBook
  import opened Engine
  import opened MatcherRuns
  import opened MatchBatches
  import opened Settleable

  /** The batch of one match, with one taker leg or one per fill. */
  function Batch(signed: Registry, takerId: nat, fills: seq<Fill>, perFill: bool): seq<S.Leg>
    requires Fits(fills)
  {
    if perFill then PerFillBatch(signed, takerId, fills) else AggregateBatch(signed, takerId, fills)
  }

  // ---- Books of registered orders ----

  ghost predicate BookRegistered(signed: Registry, b: Book, positionId: nat) {
    AllRegistered(signed, b.bids, positionId, Buy) && AllRegistered(signed, b.asks, positionId, Sell)
  }

  ghost predicate BooksRegistered(signed: Registry, bs: Books) {
    forall p | p in bs :: BookRegistered(signed, bs[p], p)
  }

  /** Every order the gateway passes on is backed by a signed one. */
  ghost predicate CommandsRegistered(signed: Registry, cmds: seq<Command>) {
    forall i | 0 <= i < |cmds| :: CommandRegistered(signed, cmds[i])
  }

  predicate CommandRegistered(signed: Registry, cmd: Command) {
    cmd.PlaceOrder? ==> TakerRegistered(signed, cmd.order, cmd.positionId) && cmd.order.amount < TWO_64
  }

  lemma {:induction false} WithinRegistered(signed: Registry, q: Queue, q': Queue, positionId: nat, side: Side)
    requires AllRegistered(signed, q, positionId, side) && Within(q', q)
    ensures AllRegistered(signed, q', positionId, side)
  {
    forall i | 0 <= i < |q'|
      ensures Registered(signed, q'[i].orderId, q'[i].maker, positionId, q'[i].price, side)
    {
      assert From(q'[i], q);
      var j :| 0 <= j < |q| && Survives(q'[i], q[j]);
      assert Registered(signed, q[j].orderId, q[j].maker, positionId, q[j].price, side);
    }
  }

  lemma {:induction false} RemovedRegistered(signed: Registry, q: Queue, o: RestingOrder, q': Queue, positionId: nat,
                                             side: Side)
    requires AllRegistered(signed, q, positionId, side) && RemovesFirst(q, o, q')
    ensures AllRegistered(signed, q', positionId, side)
  {
    var i :| 0 <= i < |q| && q[i] == o && q' == q[..i] + q[i + 1..];
    forall k | 0 <= k < |q'|
      ensures Registered(signed, q'[k].orderId, q'[k].maker, positionId, q'[k].price, side)
    {
      assert q'[k] == q[if k < i then k else k + 1];
    }
  }

  lemma {:induction false} OthersRegistered(signed: Registry, q: Queue, maker: Address, positionId: nat, side: Side)
    requires AllRegistered(signed, q, positionId, side)
    ensures AllRegistered(signed, Others(q, maker), positionId, side)
  {
    if q == [] {
    } else {
      TailRegistered(signed, q, positionId, side);
      OthersRegistered(signed, q[1..], maker, positionId, side);
    }
  }

  lemma {:induction false} TailRegistered(signed: Registry, q: Queue, positionId: nat, side: Side)
    requires q != [] && AllRegistered(signed, q, positionId, side)
    ensures AllRegistered(signed, q[1..], positionId, side)
    ensures Registered(signed, q[0].orderId, q[0].maker, positionId, q[0].price, side)
  {
    forall i | 0 <= i < |q[1..]|
      ensures Registered(signed, q[1..][i].orderId, q[1..][i].maker, positionId, q[1..][i].price, side)
    {
      assert q[1..][i] == q[i + 1];
    }
  }

  lemma {:induction false} InsertedRegistered(signed: Registry, q: Queue, o: RestingOrder, positionId: nat, side: Side)
    requires AllRegistered(signed, q, positionId, side)
    requires Registered(signed, o.orderId, o.maker, positionId, o.price, side)
    ensures AllRegistered(signed, Matching.Insert(side, q, o), positionId, side)
  {
    if q != [] && !Better(side, o.price, q[0].price) {
      TailRegistered(signed, q, positionId, side);
      InsertedRegistered(signed, q[1..], o, positionId, side);
    }
  }

  lemma {:induction false} PlaceRegistered(signed: Registry, b: Book, t: Incoming, rule: Rule, positionId: nat)
    requires BookRegistered(signed, b, positionId) && TakerRegistered(signed, t, positionId)
    ensures BookRegistered(signed, Place(b, t, rule).book, positionId)
  {
    var q := Against(b, t.side);
    SweepWithin(q, t, t.amount);
    WithinRegistered(signed, q, Sweep(q, t, t.amount).rest, positionId, Opposite(t.side));
    var p := Place(b, t, rule);
    if p.resting.Some? {
      InsertedRegistered(signed, if t.side == Buy then b.bids else b.asks, p.resting.value, positionId, t.side);
    }
  }

  lemma {:induction false} StepRegistered(signed: Registry, rule: Rule, bs: Books, cmd: Command, out: Out, bs': Books)
    requires Next(rule, bs, cmd, out, bs') && BooksRegistered(signed, bs) && CommandRegistered(signed, cmd)
    ensures BooksRegistered(signed, bs')
  {
    match cmd
    case PlaceOrder(_, p, order) => PlaceRegistered(signed, BookAt(bs, p), order, rule, p);
    case CancelOrder(p, orderId) =>
      if p in bs && out.removed != [] {
        if Contains(bs[p].bids, orderId) {
          RemovedRegistered(signed, bs[p].bids, out.removed[0], bs'[p].bids, p, Buy);
        } else {
          RemovedRegistered(signed, bs[p].asks, out.removed[0], bs'[p].asks, p, Sell);
        }
      }
    case CancelAll(p, maker) =>
      if p in bs {
        OthersRegistered(signed, bs[p].bids, maker, p, Buy);
        OthersRegistered(signed, bs[p].asks, maker, p, Sell);
      }
    case Shutdown =>
  }

  lemma {:induction false} RunRegistered(signed: Registry, rule: Rule, states: seq<Books>, cmds: seq<Command>,
                                         outs: seq<Out>, n: nat)
    requires IsRun(rule, states, cmds, outs) && n <= |cmds|
    requires BooksRegistered(signed, states[0]) && CommandsRegistered(signed, cmds)
    ensures BooksRegistered(signed, states[n])
  {
    if n == 0 {
    } else {
      RunRegistered(signed, rule, states, cmds, outs, n - 1);
      assert CommandRegistered(signed, cmds[n - 1]);
      StepRegistered(signed, rule, states[n - 1], cmds[n - 1], outs[n - 1], states[n]);
    }
  }

  // ---- The batch of every result ----

  /** What the matcher hands to settlement for one command. */
  ghost predicate Fit(cmd: Command, out: Out) {
    cmd.PlaceOrder? ==> out.result.Some? && Fits(out.result.value.fills)
  }

  function ResultLegs(signed: Registry, cmd: Command, out: Out, perFill: bool): seq<S.Leg>
    requires Fit(cmd, out)
  {
    if cmd.PlaceOrder? then Batch(signed, cmd.order.orderId, out.result.value.fills, perFill) else []
  }

  /**
   Every result of every run settles, whichever way fills are recorded: with the rebate no higher than
   the fee, its batch nets the pool no loss of USDC and leaves every share position at zero.
   */
  lemma {:induction false} EveryResultSettles(signed: Registry, rule: Rule, states: seq<Books>, cmds: seq<Command>,
                                              outs: seq<Out>, n: nat,
                                              rates: Fees.Rates, perFill: bool)
    requires IsRun(rule, states, cmds, outs) && n < |cmds|
    requires BooksRegistered(signed, states[0]) && CommandsRegistered(signed, cmds)
    requires rates.makerRebateBps <= rates.takerFeeBps <= Fees.MAX_BPS
    ensures Fit(cmds[n], outs[n])
    ensures
      var legs := ResultLegs(signed, cmds[n], outs[n], perFill);
      S.ExchangeNet(legs, rates) >= 0 && Clears(legs)
  {
    RunRegistered(signed, rule, states, cmds, outs, n);
    assert CommandRegistered(signed, cmds[n]) && Next(rule, states[n], cmds[n], outs[n], states[n + 1]);
    if cmds[n].PlaceOrder? {
      var p, t := cmds[n].positionId, cmds[n].order;
      EveryMatchSettles(signed, Against(BookAt(states[n], p), t.side), t, p, rates);
    }
  }

  // ---- Fills on chain are fills in the matcher ----

  lemma {:induction false} FillsConcat(a: seq<S.Leg>, b: seq<S.Leg>, o: Fees.Order)
    ensures SumOf(S.Fills(a + b), o) == SumOf(S.Fills(a), o) + SumOf(S.Fills(b), o)
  {
    if b == [] {
      assert a + b == a;
    } else {
      assert (a + b)[..|a + b| - 1] == a + b[..|b| - 1];
      FillsConcat(a, b[..|b| - 1], o);
      X.FillStep(a + b, o);
      X.FillStep(b, o);
    }
  }

  lemma {:induction false} MadeConcat(a: seq<Fill>, b: seq<Fill>, x: nat)
    ensures Made(a + b, x) == Made(a, x) + Made(b, x)
  {
    if a == [] {
      assert a + b == b;
    } else {
      assert (a + b)[1..] == a[1..] + b;
      MadeConcat(a[1..], b, x);
    }
  }

  /** No two identifiers share the signed order of `x`. */
  ghost predicate OwnOrder(signed: Registry, x: nat) {
    forall id: nat | signed(id).order == signed(x).order :: id == x
  }

  lemma {:induction false} MakerFills(signed: Registry, fills: seq<Fill>, x: nat)
    requires Fits(fills) && OwnOrder(signed, x)
    ensures SumOf(S.Fills(MakerLegs(signed, fills)), signed(x).order) == Made(fills, x)
  {
    if fills == [] {
    } else {
      var n := |fills| - 1;
      AmountsOfParts(fills);
      MakerFills(signed, fills[..n], x);
      var legs := MakerLegs(signed, fills);
      assert legs[..|legs| - 1] == MakerLegs(signed, fills[..n]);
      X.FillStep(legs, signed(x).order);
      assert fills == fills[..n] + [fills[n]] && [fills[n]][1..] == [];
      MadeConcat(fills[..n], [fills[n]], x);
    }
  }

  lemma {:induction false} TakerFills(signed: Registry, takerId: nat, fills: seq<Fill>, x: nat)
    requires Fits(fills) && OwnOrder(signed, x)
    ensures SumOf(S.Fills(TakerLegs(signed, takerId, fills)), signed(x).order)
        == if takerId == x then SumAmounts(fills) else 0
  {
    if fills == [] {
    } else {
      var n := |fills| - 1;
      AmountsOfParts(fills);
      TakerFills(signed, takerId, fills[..n], x);
      var legs := TakerLegs(signed, takerId, fills);
      assert legs[..|legs| - 1] == TakerLegs(signed, takerId, fills[..n]);
      X.FillStep(legs, signed(x).order);
    }
  }

  lemma {:induction false} AggregateFills(signed: Registry, takerId: nat, amount: uint256, x: nat)
    requires OwnOrder(signed, x)
    ensures SumOf(S.Fills([LegFor(signed, takerId, amount, false)]), signed(x).order)
         == if takerId == x then amount else 0
  {
    var taker := LegFor(signed, takerId, amount, false);
    X.FillStep([taker], signed(x).order);
    assert [taker][..0] == [];
  }

  /** The maker legs fill what was made of an order, the taker's legs what was taken. */
  lemma {:induction false} PartsFill(signed: Registry, takerId: nat, fills: seq<Fill>, perFill: bool, x: nat)
    requires Fits(fills) && OwnOrder(signed, x)
    ensures SumOf(S.Fills(Batch(signed, takerId, fills, perFill)), signed(x).order)
         == Made(fills, x) + if takerId == x then SumAmounts(fills) else 0
  {
    MakerFills(signed, fills, x);
    if perFill {
      TakerFills(signed, takerId, fills, x);
      FillsConcat(MakerLegs(signed, fills), TakerLegs(signed, takerId, fills), signed(x).order);
    } else {
      AggregateFills(signed, takerId, SumAmounts(fills), x);
      FillsConcat(MakerLegs(signed, fills), [LegFor(signed, takerId, SumAmounts(fills), false)], signed(x).order);
    }
  }

  /** What the batch of a match fills of an order on chain is what the matcher filled of it. */
  lemma {:induction false} BatchFills(signed: Registry, q: Queue, t: Incoming, perFill: bool, x: nat)
    requires t.amount < TWO_64 && OwnOrder(signed, x)
    ensures
      var fills := Sweep(q, t, t.amount).fills;
      && Fits(fills)
      && SumOf(S.Fills(Batch(signed, t.orderId, fills, perFill)), signed(x).order) == Filled(fills, x)
  {
    SweepConserves(q, t, t.amount);
    SweepTakes(q, t, t.amount, x);
    PartsFill(signed, t.orderId, Sweep(q, t, t.amount).fills, perFill, x);
  }

  /** An order is never filled at a position other than the one it was signed for. */
  lemma {:induction false} ElsewhereUnfilled(signed: Registry, q: Queue, t: Incoming, left: nat, p: nat, x: nat)
    requires AllRegistered(signed, q, p, Opposite(t.side)) && TakerRegistered(signed, t, p)
    requires signed(x).order.positionId != p
    ensures Filled(Sweep(q, t, left).fills, x) == 0
  {
    if q == [] || left == 0 || !Crosses(t.side, q[0].price, t.price) {
    } else {
      TailRegistered(signed, q, p, Opposite(t.side));
      if q[0].maker == t.maker {
        ElsewhereUnfilled(signed, q[1..], t, left, p, x);
      } else {
        var amount := Min(left, q[0].Remaining());
        var f := FillOf(q[0], t, amount);
        if amount == q[0].Remaining() {
          ElsewhereUnfilled(signed, q[1..], t, left - amount, p, x);
          var more := Sweep(q[1..], t, left - amount).fills;
          assert ([f] + more)[1..] == more;
        } else {
          assert [f][1..] == [];
        }
      }
    }
  }

  /** One result's batch fills of `x` on chain what the matcher filled of `x` at its own position. */
  lemma {:induction false} ResultFills(signed: Registry, rule: Rule, bs: Books, cmd: Command, out: Out, bs': Books,
                                       perFill: bool, x: nat)
    requires Next(rule, bs, cmd, out, bs') && BooksRegistered(signed, bs) && CommandRegistered(signed, cmd)
    requires OwnOrder(signed, x)
    ensures Fit(cmd, out)
    ensures SumOf(S.Fills(ResultLegs(signed, cmd, out, perFill)), signed(x).order)
         == FilledBy(cmd, out, signed(x).order.positionId, x)
  {
    if cmd.PlaceOrder? {
      var q := Against(BookAt(bs, cmd.positionId), cmd.order.side);
      BatchFills(signed, q, cmd.order, perFill, x);
      if cmd.positionId != signed(x).order.positionId {
        ElsewhereUnfilled(signed, q, cmd.order, cmd.order.amount, cmd.positionId, x);
      }
    }
  }

  // ---- All batches of a run ----

  /** Which results are settled with one taker leg per fill, and which with one taker leg in all. */
  type Shape = nat -> bool

  ghost predicate AllFit(cmds: seq<Command>, outs: seq<Out>) {
    |cmds| == |outs| && forall i | 0 <= i < |cmds| :: Fit(cmds[i], outs[i])
  }

  /** The legs of all batches of a run, in order. */
  ghost function RunLegs(signed: Registry, cmds: seq<Command>, outs: seq<Out>, shape: Shape): seq<S.Leg>
    requires AllFit(cmds, outs)
  {
    if cmds == [] then []
    else
      var n := |cmds| - 1;
      RunLegs(signed, cmds[..n], outs[..n], shape) + ResultLegs(signed, cmds[n], outs[n], shape(n))
  }

  lemma {:induction false} RunFits(signed: Registry, rule: Rule, states: seq<Books>, cmds: seq<Command>, outs: seq<Out>)
    requires IsRun(rule, states, cmds, outs) && BooksRegistered(signed, states[0]) && CommandsRegistered(signed, cmds)
    ensures AllFit(cmds, outs)
  {
    forall i | 0 <= i < |cmds| ensures Fit(cmds[i], outs[i]) {
      assert CommandRegistered(signed, cmds[i]) && Next(rule, states[i], cmds[i], outs[i], states[i + 1]);
      if cmds[i].PlaceOrder? {
        var t := cmds[i].order;
        SweepConserves(Against(BookAt(states[i], cmds[i].positionId), t.side), t, t.amount);
      }
    }
  }

  /** Over a whole run, what the batches fill of an order on chain is what the matcher filled of it. */
  lemma {:induction false} RunFills(signed: Registry, rule: Rule, states: seq<Books>, cmds: seq<Command>,
                                    outs: seq<Out>,
                                    shape: Shape, x: nat)
    requires IsRun(rule, states, cmds, outs) && BooksRegistered(signed, states[0]) && CommandsRegistered(signed, cmds)
    requires OwnOrder(signed, x)
    ensures AllFit(cmds, outs)
    ensures SumOf(S.Fills(RunLegs(signed, cmds, outs, shape)), signed(x).order)
         == FilledInAll(cmds, outs, signed(x).order.positionId, x)
  {
    RunFits(signed, rule, states, cmds, outs);
    FillsSoFar(signed, rule, states, cmds, outs, shape, |cmds|, x);
    assert cmds[..|cmds|] == cmds && outs[..|cmds|] == outs;
  }

  lemma {:induction false} RunLegsGrow(signed: Registry, cmds: seq<Command>, outs: seq<Out>, shape: Shape, m: nat)
    requires AllFit(cmds, outs) && m < |cmds|
    ensures RunLegs(signed, cmds[..m + 1], outs[..m + 1], shape)
         == RunLegs(signed, cmds[..m], outs[..m], shape) + ResultLegs(signed, cmds[m], outs[m], shape(m))
  {
    assert cmds[..m + 1][..m] == cmds[..m] && outs[..m + 1][..m] == outs[..m];
  }

  lemma {:induction false} FilledGrows(cmds: seq<Command>, outs: seq<Out>, m: nat, p: nat, x: nat)
    requires |cmds| == |outs| && m < |cmds|
    ensures FilledInAll(cmds[..m + 1], outs[..m + 1], p, x)
         == FilledInAll(cmds[..m], outs[..m], p, x) + FilledBy(cmds[m], outs[m], p, x)
  {
    assert cmds[..m + 1][..m] == cmds[..m] && outs[..m + 1][..m] == outs[..m];
  }

  lemma {:induction false} FillsSoFar(signed: Registry, rule: Rule, states: seq<Books>, cmds: seq<Command>,
                                      outs: seq<Out>,
                                      shape: Shape, n: nat, x: nat)
    requires IsRun(rule, states, cmds, outs) && BooksRegistered(signed, states[0]) && CommandsRegistered(signed, cmds)
    requires OwnOrder(signed, x) && AllFit(cmds, outs) && n <= |cmds|
    ensures SumOf(S.Fills(RunLegs(signed, cmds[..n], outs[..n], shape)), signed(x).order)
         == FilledInAll(cmds[..n], outs[..n], signed(x).order.positionId, x)
  {
    if n == 0 {
    } else {
      var m, o := n - 1, signed(x).order;
      FillsSoFar(signed, rule, states, cmds, outs, shape, m, x);
      RunRegistered(signed, rule, states, cmds, outs, m);
      assert CommandRegistered(signed, cmds[m]);
      ResultFills(signed, rule, states[m], cmds[m], outs[m], states[n], shape(m), x);
      RunLegsGrow(signed, cmds, outs, shape, m);
      FillsConcat(RunLegs(signed, cmds[..m], outs[..m], shape), ResultLegs(signed, cmds[m], outs[m], shape(m)), o);
      FilledGrows(cmds, outs, m, o.positionId, x);
    }
  }

  type FilledAmounts = map<Fees.Order, nat>

  /**
   What was settled of order `x` before the run, what of it rests when the run begins and what is placed
   during the run come to no more than was signed.
   */
  ghost predicate WithinSigned(signed: Registry, bs: Books, cmds: seq<Command>, before: FilledAmounts, x: nat) {
    var o := signed(x).order;
    Get(before, o) + InBook(BookAt(bs, o.positionId), x) + BroughtInAll(cmds, o.positionId, x) <= o.amount
  }

  /**
   All batches of a run together, with fills recorded as their sum and on top of what was settled before,
   fill no order beyond the amount its owner signed.
   */
  lemma {:induction false} RunNeverOverfills(signed: Registry, states: seq<Books>, cmds: seq<Command>, outs: seq<Out>,
                                             shape: Shape, before: FilledAmounts, x: nat)
    requires IsRun(SumOfFills, states, cmds, outs) && BooksRegistered(signed, states[0])
    requires CommandsRegistered(signed, cmds)
    requires OwnOrder(signed, x) && WithinSigned(signed, states[0], cmds, before, x)
    ensures AllFit(cmds, outs)
    ensures
      var o := signed(x).order;
      Get(before, o) + SumOf(S.Fills(RunLegs(signed, cmds, outs, shape)), o) <= o.amount
  {
    RunFills(signed, SumOfFills, states, cmds, outs, shape, x);
    QuantityConserved(states, cmds, outs, signed(x).order.positionId, x);
  }

  // ---- Settling some of them ----

  /** What the results in `done`, among the first `n`, fill of `o`. */
  ghost function DoneFills(signed: Registry, cmds: seq<Command>, outs: seq<Out>, shape: Shape, done: set<nat>, n: nat,
                           o: Fees.Order): int
    requires AllFit(cmds, outs) && n <= |cmds|
  {
    if n == 0 then 0
    else
      DoneFills(signed, cmds, outs, shape, done, n - 1, o)
      + if n - 1 in done then SumOf(S.Fills(ResultLegs(signed, cmds[n - 1], outs[n - 1], shape(n - 1))), o) else 0
  }

  lemma {:induction false} OneMoreDone(signed: Registry, cmds: seq<Command>, outs: seq<Out>, shape: Shape,
                                       done: set<nat>,
                                       k: nat, n: nat, o: Fees.Order)
    requires AllFit(cmds, outs) && n <= |cmds| && k < |cmds| && k !in done
    ensures DoneFills(signed, cmds, outs, shape, done + {k}, n, o)
         == DoneFills(signed, cmds, outs, shape, done, n, o)
            + if k < n then SumOf(S.Fills(ResultLegs(signed, cmds[k], outs[k], shape(k))), o) else 0
  {
    if n == 0 {
    } else {
      OneMoreDone(signed, cmds, outs, shape, done, k, n - 1, o);
    }
  }

  lemma {:induction false} NoneDone(signed: Registry, cmds: seq<Command>, outs: seq<Out>, shape: Shape, n: nat,
                                    o: Fees.Order)
    requires AllFit(cmds, outs) && n <= |cmds|
    ensures DoneFills(signed, cmds, outs, shape, {}, n, o) == 0
  {
    if n == 0 {
    } else {
      NoneDone(signed, cmds, outs, shape, n - 1, o);
    }
  }

  lemma {:induction false} FillsNonNegative(legs: seq<S.Leg>, o: Fees.Order)
    ensures SumOf(S.Fills(legs), o) >= 0
  {
    X.FillsGrow(legs, |legs|, o);
    assert legs[..|legs|] == legs;
  }

  /** Some of the results fill no more than all of them. */
  lemma {:induction false} DoneWithinAll(signed: Registry, cmds: seq<Command>, outs: seq<Out>, shape: Shape,
                                         done: set<nat>,
                                         n: nat, o: Fees.Order)
    requires AllFit(cmds, outs) && n <= |cmds|
    ensures DoneFills(signed, cmds, outs, shape, done, n, o)
         <= SumOf(S.Fills(RunLegs(signed, cmds[..n], outs[..n], shape)), o)
  {
    if n == 0 {
    } else {
      var m := n - 1;
      var legs := ResultLegs(signed, cmds[m], outs[m], shape(m));
      DoneWithinAll(signed, cmds, outs, shape, done, m, o);
      RunLegsGrow(signed, cmds, outs, shape, m);
      FillsConcat(RunLegs(signed, cmds[..m], outs[..m], shape), legs, o);
      FillsNonNegative(legs, o);
    }
  }

  /**
   Since `before`, the exchange has settled the results in `done`, in whatever order, and nothing else of
   these orders.
   */
  ghost predicate SettledSoFar(signed: Registry, cmds: seq<Command>, outs: seq<Out>, shape: Shape,
                               before: FilledAmounts,
                               done: set<nat>, filled: FilledAmounts)
    requires AllFit(cmds, outs)
  {
    forall x: nat :: SettledOf(signed, cmds, outs, shape, before, done, filled, x)
  }

  ghost predicate SettledOf(signed: Registry, cmds: seq<Command>, outs: seq<Out>, shape: Shape, before: FilledAmounts,
                            done: set<nat>, filled: FilledAmounts, x: nat)
    requires AllFit(cmds, outs)
  {
    var o := signed(x).order;
    Get(filled, o) == Get(before, o) + DoneFills(signed, cmds, outs, shape, done, |cmds|, o)
  }

  /** Settling one more result. */
  lemma {:induction false} OneMoreSettled(signed: Registry, cmds: seq<Command>, outs: seq<Out>, shape: Shape,
                                          before: FilledAmounts,
                                          done: set<nat>, k: nat, filled: FilledAmounts, filled': FilledAmounts)
    requires AllFit(cmds, outs) && k < |cmds| && k !in done
    requires SettledSoFar(signed, cmds, outs, shape, before, done, filled)
    requires Posted(filled, S.Fills(ResultLegs(signed, cmds[k], outs[k], shape(k))), filled')
    ensures SettledSoFar(signed, cmds, outs, shape, before, done + {k}, filled')
  {
    forall x: nat ensures SettledOf(signed, cmds, outs, shape, before, done + {k}, filled', x) {
      assert SettledOf(signed, cmds, outs, shape, before, done, filled, x);
      OneMoreDone(signed, cmds, outs, shape, done, k, |cmds|, signed(x).order);
      var was: map<Fees.Order, int> := filled;
      var legs := ResultLegs(signed, cmds[k], outs[k], shape(k));
      assert Get(filled', signed(x).order) == Get(was, signed(x).order) + SumOf(S.Fills(legs), signed(x).order);
    }
  }

  /** Any result that is not settled yet passes the contract's overfill check. */
  lemma {:induction false} NextBatchFits(signed: Registry, states: seq<Books>, cmds: seq<Command>, outs: seq<Out>,
                                         shape: Shape,
                                         before: FilledAmounts, done: set<nat>, k: nat, filled: FilledAmounts, x: nat)
    requires IsRun(SumOfFills, states, cmds, outs) && BooksRegistered(signed, states[0])
    requires CommandsRegistered(signed, cmds)
    requires OwnOrder(signed, x) && WithinSigned(signed, states[0], cmds, before, x)
    requires AllFit(cmds, outs) && k < |cmds| && k !in done
    requires SettledSoFar(signed, cmds, outs, shape, before, done, filled)
    ensures
      var o := signed(x).order;
      Get(filled, o) + SumOf(S.Fills(ResultLegs(signed, cmds[k], outs[k], shape(k))), o) <= o.amount
  {
    var o := signed(x).order;
    assert SettledOf(signed, cmds, outs, shape, before, done, filled, x);
    OneMoreDone(signed, cmds, outs, shape, done, k, |cmds|, o);
    DoneWithinAll(signed, cmds, outs, shape, done + {k}, |cmds|, o);
    assert cmds[..|cmds|] == cmds && outs[..|cmds|] == outs;
    RunNeverOverfills(signed, states, cmds, outs, shape, before, x);
  }

  /** Every leg of a batch fills the signed order of some identifier. */
  ghost predicate FromRegistry(signed: Registry, legs: seq<S.Leg>) {
    forall i | 0 <= i < |legs| :: exists id: nat :: legs[i].order == signed(id).order
  }

  lemma {:induction false} PartsFromRegistry(signed: Registry, takerId: nat, fills: seq<Fill>)
    requires Fits(fills)
    ensures FromRegistry(signed, MakerLegs(signed, fills)) && FromRegistry(signed, TakerLegs(signed, takerId, fills))
  {
    if fills == [] {
    } else {
      AmountsOfParts(fills);
      PartsFromRegistry(signed, takerId, fills[..|fills| - 1]);
    }
  }

  lemma {:induction false} ResultFromRegistry(signed: Registry, cmd: Command, out: Out, perFill: bool)
    requires Fit(cmd, out)
    ensures FromRegistry(signed, ResultLegs(signed, cmd, out, perFill))
  {
    if cmd.PlaceOrder? {
      PartsFromRegistry(signed, cmd.order.orderId, out.result.value.fills);
    }
  }

  /** No two identifiers share a signed order, and no more is brought in than was signed. */
  ghost predicate EachOwnOrder(signed: Registry, bs: Books, cmds: seq<Command>, before: FilledAmounts) {
    forall x: nat :: OwnOrder(signed, x) && WithinSigned(signed, bs, cmds, before, x)
  }

  ghost predicate AllAuthentic(x: X.Exch, legs: seq<S.Leg>, now: nat) {
    forall i | 0 <= i < |legs| && legs[i].fill != 0 :: X.Authentic(x, legs[i], now)
  }

  ghost predicate NoneOverfilled(x: X.Exch, legs: seq<S.Leg>) {
    forall i | 0 <= i < |legs| :: X.FilledAfter(x.filled, legs, legs[i].order) <= legs[i].order.amount
  }

  lemma {:induction false} NextBatchOverfillsNone(signed: Registry, states: seq<Books>, cmds: seq<Command>,
                                                  outs: seq<Out>,
                                                  shape: Shape, before: FilledAmounts, done: set<nat>, k: nat,
                                                  exch: X.Exch)
    requires IsRun(SumOfFills, states, cmds, outs) && BooksRegistered(signed, states[0])
    requires CommandsRegistered(signed, cmds)
    requires EachOwnOrder(signed, states[0], cmds, before)
    requires AllFit(cmds, outs) && k < |cmds| && k !in done
    requires SettledSoFar(signed, cmds, outs, shape, before, done, exch.filled)
    ensures NoneOverfilled(exch, ResultLegs(signed, cmds[k], outs[k], shape(k)))
  {
    var legs := ResultLegs(signed, cmds[k], outs[k], shape(k));
    ResultFromRegistry(signed, cmds[k], outs[k], shape(k));
    forall i | 0 <= i < |legs| ensures X.FilledAfter(exch.filled, legs, legs[i].order) <= legs[i].order.amount {
      var x: nat :| legs[i].order == signed(x).order;
      NextBatchFits(signed, states, cmds, outs, shape, before, done, k, exch.filled, x);
    }
  }

  lemma {:induction false} AuthenticSuffices(exch: X.Exch, legs: seq<S.Leg>, now: nat)
    requires NoneOverfilled(exch, legs)
    ensures X.Admissible(exch, legs, now) <==> AllAuthentic(exch, legs, now)
  {
    if AllAuthentic(exch, legs, now) {
      assert X.Admissible(exch, legs, now);
    }
  }

  // ---- Settling them on chain, in any order and with anything in between ----

  /** The `i`-th move on chain settles a batch. */
  ghost predicate SettlesAt(ws: seq<X.World>, ms: seq<R.Move>, i: nat)
    requires i < |ms| <= |ws|
  {
    ms[i].call.SettleBatch? && R.Commits(ws[i], ms[i])
  }

  ghost predicate IsBatchOf(call: R.Call, legs: seq<S.Leg>) {
    && call.SettleBatch? && |call.orders| == |call.fills| == |call.isMaker|
    && S.Legs(call.orders, call.fills, call.isMaker) == legs
  }

  /** Every batch that settles on chain is that of the result `which` names, and no result is settled twice. */
  ghost predicate SettlesResults(signed: Registry, cmds: seq<Command>, outs: seq<Out>, shape: Shape,
                                 ws: seq<X.World>, ms: seq<R.Move>, which: seq<nat>)
    requires AllFit(cmds, outs) && |ms| <= |ws|
  {
    && |which| == |ms|
    && (forall i | 0 <= i < |ms| && SettlesAt(ws, ms, i) ::
          && which[i] < |cmds|
          && IsBatchOf(ms[i].call, ResultLegs(signed, cmds[which[i]], outs[which[i]], shape(which[i]))))
    && (forall i, j | 0 <= i < j < |ms| && SettlesAt(ws, ms, i) && SettlesAt(ws, ms, j) :: which[i] != which[j])
  }

  /** The results settled by the first `n` moves on chain. */
  ghost function Done(ws: seq<X.World>, ms: seq<R.Move>, which: seq<nat>, n: nat): set<nat>
    requires n <= |which| == |ms| <= |ws|
  {
    if n == 0 then {}
    else Done(ws, ms, which, n - 1) + if SettlesAt(ws, ms, n - 1) then {which[n - 1]} else {}
  }

  lemma {:induction false} DoneBefore(ws: seq<X.World>, ms: seq<R.Move>, which: seq<nat>, n: nat,
                                      k: nat) returns (i: nat)
    requires n <= |which| == |ms| <= |ws| && k in Done(ws, ms, which, n)
    ensures i < n && SettlesAt(ws, ms, i) && which[i] == k
  {
    if SettlesAt(ws, ms, n - 1) && which[n - 1] == k {
      i := n - 1;
    } else {
      i := DoneBefore(ws, ms, which, n - 1, k);
    }
  }

  /** One move on chain, whether or not it settles a result. */
  lemma {:induction false} MoveSettles(signed: Registry, cmds: seq<Command>, outs: seq<Out>, shape: Shape,
                                       before: FilledAmounts,
                                       done: set<nat>, k: nat, w: X.World, m: R.Move, w': X.World)
    requires AllFit(cmds, outs) && R.Step(w, m, w')
    requires SettledSoFar(signed, cmds, outs, shape, before, done, w.exch.filled)
    requires m.call.SettleBatch? && R.Commits(w, m) ==>
      && k < |cmds| && k !in done && IsBatchOf(m.call, ResultLegs(signed, cmds[k], outs[k], shape(k)))
    ensures
      var settles := m.call.SettleBatch? && R.Commits(w, m);
      SettledSoFar(signed, cmds, outs, shape, before, done + if settles then {k} else {}, w'.exch.filled)
  {
    if m.call.SettleBatch? && R.Commits(w, m) {
      OneMoreSettled(signed, cmds, outs, shape, before, done, k, w.exch.filled, w'.exch.filled);
    } else {
      assert w'.exch.filled == w.exch.filled && done + {} == done;
    }
  }

  /** After any run on chain whose batches are results of the matcher, each once, exactly those are settled. */
  lemma {:induction false} ChainSettles(signed: Registry, cmds: seq<Command>, outs: seq<Out>, shape: Shape,
                                        ws: seq<X.World>, ms: seq<R.Move>, which: seq<nat>, n: nat)
    requires AllFit(cmds, outs) && R.IsRun(ws, ms) && SettlesResults(signed, cmds, outs, shape, ws, ms, which)
    requires n <= |ms|
    ensures SettledSoFar(signed, cmds, outs, shape, ws[0].exch.filled, Done(ws, ms, which, n), ws[n].exch.filled)
  {
    var before := ws[0].exch.filled;
    if n == 0 {
      forall x: nat ensures SettledOf(signed, cmds, outs, shape, before, {}, before, x) {
        NoneDone(signed, cmds, outs, shape, |cmds|, signed(x).order);
      }
    } else {
      var m := n - 1;
      ChainSettles(signed, cmds, outs, shape, ws, ms, which, m);
      assert SettlesAt(ws, ms, m) <==> ms[m].call.SettleBatch? && R.Commits(ws[m], ms[m]);
      if SettlesAt(ws, ms, m) && which[m] in Done(ws, ms, which, m) {
        var i := DoneBefore(ws, ms, which, m, which[m]);
        assert false;
      }
      MoveSettles(signed, cmds, outs, shape, before, Done(ws, ms, which, m), which[m], ws[m], ms[m], ws[n]);
    }
  }

  /**
   End to end.  Take any run of the matcher, with fills recorded as their sum and every order backed by a
   signed one of its own, and any run on chain whose batches are results of that run, each settled at most
   once, in any order and with any other calls in between.  Then a result that is not settled yet settles
   exactly when its orders are still authentic, the vault takes it, nobody ends overdrawn and the sellers
   can deliver.  Nothing the matcher does can make the exchange refuse it.
   */
  lemma {:induction false} NextResultCommits(signed: Registry, states: seq<Books>, cmds: seq<Command>, outs: seq<Out>,
                                             shape: Shape, ws: seq<X.World>, ms: seq<R.Move>, which: seq<nat>, k: nat,
                                             tx: Tx, batchId: nat)
    requires IsRun(SumOfFills, states, cmds, outs) && BooksRegistered(signed, states[0])
    requires CommandsRegistered(signed, cmds)
    requires R.IsRun(ws, ms) && EachOwnOrder(signed, states[0], cmds, ws[0].exch.filled)
    requires AllFit(cmds, outs) && SettlesResults(signed, cmds, outs, shape, ws, ms, which)
    requires k < |cmds| && k !in Done(ws, ms, which, |ms|)
    requires
      var rates := ws[|ms|].exch.rates;
      rates.makerRebateBps <= rates.takerFeeBps <= Fees.MAX_BPS
    ensures
      var w, legs := ws[|ms|], ResultLegs(signed, cmds[k], outs[k], shape(k));
      B.CallVerdict(w, tx, batchId, legs).Committed? <==>
        && B.OperatorMaySettle(w.exch, tx.sender, batchId)
        && AllAuthentic(w.exch, legs, tx.now)
        && X.VaultAccepts(w.vault, batchId)
        && X.Affordable(w.vault.balances, legs, w.exch.rates)
        && B.SellersDeliver(w, legs)
        && B.UsdcFits(w, legs)
  {
    var w, legs := ws[|ms|], ResultLegs(signed, cmds[k], outs[k], shape(k));
    ChainSettles(signed, cmds, outs, shape, ws, ms, which, |ms|);
    EveryResultSettles(signed, SumOfFills, states, cmds, outs, k, w.exch.rates, shape(k));
    NextBatchOverfillsNone(signed, states, cmds, outs, shape, ws[0].exch.filled, Done(ws, ms, which, |ms|), k, w.exch);
    AuthenticSuffices(w.exch, legs, tx.now);
    ClearedCommits(w, tx, batchId, legs);
  }

  // ---- As the matcher is written ----

  /** What rests on the side of `t` once it is placed comes to less than 2^64. */
  predicate RestsFit(b: Book, t: Incoming) {
    var q := Against(Place(b, t, AsWritten).book, Opposite(t.side));
    TakeAll(q, Opposite(t.side), t.orderId + 1).amount <= TWO_64
  }

  /** After `t`, the order `u` gets a match whose batch, on top of that of `t`, fills more of `t` than was signed. */
  ghost predicate NextOverfills(signed: Registry, b: Book, t: Incoming, u: Incoming, perFill: bool)
    requires Fits(Place(b, t, AsWritten).fills)
  {
    var p1 := Place(b, t, AsWritten);
    var p2 := Place(p1.book, u, AsWritten);
    var o := signed(t.orderId).order;
    && u.orderId != t.orderId && Fits(p2.fills)
    && SumOf(S.Fills(Batch(signed, t.orderId, p1.fills, perFill)), o)
       + SumOf(S.Fills(Batch(signed, u.orderId, p2.fills, perFill)), o) > o.amount
  }

  lemma {:induction false} PlacedFill(signed: Registry, b: Book, t: Incoming, perFill: bool, x: nat)
    requires OwnOrder(signed, x) && Fits(Place(b, t, AsWritten).fills)
    ensures
      var fills := Place(b, t, AsWritten).fills;
      SumOf(S.Fills(Batch(signed, t.orderId, fills, perFill)), signed(x).order) == Filled(fills, x)
  {
    SweepTakes(Against(b, t.side), t, t.amount, x);
    PartsFill(signed, t.orderId, Place(b, t, AsWritten).fills, perFill, x);
  }

  /**
   As written, some next order gets a match that the exchange must refuse exactly when more than half of a
   new order, but not all of it, matches.
   */
  lemma {:induction false} RefusedByTheNextExactly(signed: Registry, b: Book, t: Incoming, perFill: bool)
    requires Sound(b) && CountInBook(b, t.orderId) == 0 && RestsFit(b, t)
    requires OwnOrder(signed, t.orderId) && signed(t.orderId).order.amount == t.amount < TWO_64
    ensures Fits(Place(b, t, AsWritten).fills)
    ensures
      var liquidity := Liquidity(Against(b, t.side), t);
      (exists u: Incoming :: NextOverfills(signed, b, t, u, perFill)) <==> liquidity < t.amount < 2 * liquidity
  {
    var x, p1 := t.orderId, Place(b, t, AsWritten);
    var liquidity := Liquidity(Against(b, t.side), t);
    SweepConserves(Against(b, t.side), t, t.amount);
    PlacedFill(signed, b, t, perFill, x);
    if u: Incoming :| NextOverfills(signed, b, t, u, perFill) {
      PlacedFill(signed, p1.book, u, perFill, x);
      assert Filled(p1.fills, x) + Filled(Place(p1.book, u, AsWritten).fills, x) > t.amount;
      OverfilledByTheNextExactly(b, t);
    }
    if liquidity < t.amount < 2 * liquidity {
      var u := RefusedNext(signed, b, t, perFill);
    }
  }

  /** The order that takes all that `t` still offers. */
  lemma {:induction false} RefusedNext(signed: Registry, b: Book, t: Incoming, perFill: bool) returns (u: Incoming)
    requires Sound(b) && CountInBook(b, t.orderId) == 0 && RestsFit(b, t)
    requires OwnOrder(signed, t.orderId) && signed(t.orderId).order.amount == t.amount < TWO_64
    requires Liquidity(Against(b, t.side), t) < t.amount < 2 * Liquidity(Against(b, t.side), t)
    ensures Fits(Place(b, t, AsWritten).fills) && NextOverfills(signed, b, t, u, perFill)
  {
    var x, p1 := t.orderId, Place(b, t, AsWritten);
    SweepConserves(Against(b, t.side), t, t.amount);
    SweepIsMaximal(Against(b, t.side), t, t.amount);
    NewOrderPlaced(b, t, AsWritten);
    u := OfferIsTaken(b, t);
    assert Fits(Place(p1.book, u, AsWritten).fills) by {
      PlaceKeeps(b, t, AsWritten);
      TakesLessThanAsked(Against(p1.book, Opposite(t.side)), Opposite(t.side), x + 1);
    }
    PlacedFill(signed, b, t, perFill, x);
    PlacedFill(signed, p1.book, u, perFill, x);
  }

  lemma {:induction false} TakesLessThanAsked(q: Queue, side: Side, id: nat)
    requires Ranked(Opposite(side), q)
    ensures
      var u := TakeAll(q, side, id);
      SumAmounts(Sweep(q, u, u.amount).fills) < u.amount
  {
    var u := TakeAll(q, side, id);
    LiquiditySame(q, u, u.(amount := 0));
    SweepIsMaximal(q, u, u.amount);
  }

  /** Once the first batch is settled, the exchange refuses the second in every world. */
  lemma {:induction false} OverfillIsRefused(signed: Registry, b: Book, t: Incoming, u: Incoming, perFill: bool,
                                             w: X.World, tx: Tx, batchId: nat)
    requires Fits(Place(b, t, AsWritten).fills) && NextOverfills(signed, b, t, u, perFill)
    requires
      var o, first := signed(t.orderId).order, Batch(signed, t.orderId, Place(b, t, AsWritten).fills, perFill);
      Get(w.exch.filled, o) >= SumOf(S.Fills(first), o) && SumOf(S.Fills(first), o) <= o.amount
    ensures
      var p2 := Place(Place(b, t, AsWritten).book, u, AsWritten);
      !B.CallVerdict(w, tx, batchId, Batch(signed, u.orderId, p2.fills, perFill)).Committed?
  {
    var o := signed(t.orderId).order;
    var second := Batch(signed, u.orderId, Place(Place(b, t, AsWritten).book, u, AsWritten).fills, perFill);
    SomeLegFills(second, o);
    X.ChecksMeanAdmissible(w.exch, second, tx.now);
    B.CallCommitsExactly(w, tx, batchId, second);
  }

  lemma {:induction false} SomeLegFills(legs: seq<S.Leg>, o: Fees.Order)
    ensures SumOf(S.Fills(legs), o) > 0 ==>
      exists i :: 0 <= i < |legs| && legs[i].fill != 0 && legs[i].order == o
  {
    if forall i | 0 <= i < |legs| && legs[i].fill != 0 :: legs[i].order != o {
      R.NoFillNoLeg(legs, o);
    }
  }
}
