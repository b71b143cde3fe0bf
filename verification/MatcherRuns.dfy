/** Whole runs of the matcher: what every command keeps, and where every unit of quantity goes. */
module MatcherRuns {
  import opened Chain
  import opened Matching
  import opened OrderBook
  import opened Engine

  // ---- The book invariant ----

  ghost predicate OnSide(q: Queue, side: Side, nextSeq: nat) {
    forall i | 0 <= i < |q| :: q[i].side == side && q[i].seqNo < nextSeq
  }

  /** Both sides in price-time priority, every order on its side, every stamp already handed out. */
  ghost predicate WellFormed(b: Book) {
    && Ranked(Buy, b.bids) && Ranked(Sell, b.asks)
    && OnSide(b.bids, Buy, b.nextSeq) && OnSide(b.asks, Sell, b.nextSeq)
  }

  /** Every bid is below every ask. */
  ghost predicate Uncrossed(b: Book) {
    forall i, j | 0 <= i < |b.bids| && 0 <= j < |b.asks| :: b.bids[i].price < b.asks[j].price
  }

  ghost predicate Sound(b: Book) {
    WellFormed(b) && Uncrossed(b)
  }

  /** `a` is an order of `q`, perhaps filled further. */
  ghost predicate From(a: RestingOrder, q: Queue) {
    exists j :: 0 <= j < |q| && Survives(a, q[j])
  }

  ghost predicate Within(q': Queue, q: Queue) {
    forall i | 0 <= i < |q'| :: From(q'[i], q)
  }

  lemma {:induction false} SweepWithin(q: Queue, t: Incoming, left: nat)
    ensures Within(Sweep(q, t, left).rest, q)
  {
    var n := SweepRest(q, t, left);
    var rest := Sweep(q, t, left).rest;
    forall i | 0 <= i < |rest| ensures From(rest[i], q) {
      assert Survives(rest[i], q[n + i]);
    }
  }

  lemma {:induction false} RemovedWithin(q: Queue, o: RestingOrder, q': Queue, side: Side)
    requires RemovesOne(q, o, q') && Ranked(side, q)
    ensures Within(q', q) && Ranked(side, q')
  {
    var i :| 0 <= i < |q| && q[i] == o && q' == q[..i] + q[i + 1..];
    forall k | 0 <= k < |q'| ensures q'[k] == q[if k < i then k else k + 1] {}
    forall k | 0 <= k < |q'| ensures From(q'[k], q) {
      assert Survives(q'[k], q[if k < i then k else k + 1]);
    }
    forall j, k | 0 <= j < k < |q'| ensures Ahead(side, q'[j], q'[k]) {
      assert Ahead(side, q[if j < i then j else j + 1], q[if k < i then k else k + 1]);
    }
  }

  lemma {:induction false} OthersWithin(q: Queue, maker: Address, side: Side)
    requires Ranked(side, q)
    ensures Within(Others(q, maker), q) && Ranked(side, Others(q, maker))
  {
    if q == [] {
    } else {
      var rest := Others(q[1..], maker);
      OthersWithin(q[1..], maker, side);
      forall i | 0 <= i < |rest| ensures exists j :: 0 < j < |q| && Survives(rest[i], q[j]) {
        assert From(rest[i], q[1..]);
        var j :| 0 <= j < |q[1..]| && Survives(rest[i], q[1..][j]);
        assert Survives(rest[i], q[j + 1]);
      }
      assert Survives(q[0], q[0]);
      forall i | 0 <= i < |rest| ensures Ahead(side, q[0], rest[i]) {
        var j :| 0 < j < |q| && Survives(rest[i], q[j]);
        assert Ahead(side, q[0], q[j]);
      }
    }
  }

  lemma {:induction false} WithinKeeps(b: Book, b': Book)
    requires Sound(b) && b'.nextSeq == b.nextSeq
    requires Within(b'.bids, b.bids) && Within(b'.asks, b.asks)
    requires Ranked(Buy, b'.bids) && Ranked(Sell, b'.asks)
    ensures Sound(b')
  {
    forall i, j | 0 <= i < |b'.bids| && 0 <= j < |b'.asks| ensures b'.bids[i].price < b'.asks[j].price {
      assert From(b'.bids[i], b.bids) && From(b'.asks[j], b.asks);
      var k :| 0 <= k < |b.bids| && Survives(b'.bids[i], b.bids[k]);
      var l :| 0 <= l < |b.asks| && Survives(b'.asks[j], b.asks[l]);
      assert b.bids[k].price < b.asks[l].price;
    }
  }

  lemma {:induction false} WithinItself(q: Queue)
    ensures Within(q, q)
  {
    forall i | 0 <= i < |q| ensures From(q[i], q) {
      assert Survives(q[i], q[i]);
    }
  }

  /** Resting a freshly stamped order on its side. */
  lemma {:induction false} InsertedOn(side: Side, q: Queue, o: RestingOrder)
    requires Ranked(side, q) && OnSide(q, side, o.seqNo) && o.side == side
    ensures Ranked(side, Insert(side, q, o)) && OnSide(Insert(side, q, o), side, o.seqNo + 1)
    ensures forall i | 0 <= i < |Insert(side, q, o)| :: Insert(side, q, o)[i] == o || Insert(side, q, o)[i] in q
  {
    InsertKeepsRank(side, q, o);
    var r := Insert(side, q, o);
    forall i | 0 <= i < |r| ensures r[i] == o || r[i] in q {
      assert r[i] in multiset(q) + multiset{o};
    }
  }

  lemma {:induction false} RestKeeps(b: Book, o: RestingOrder)
    requires Sound(b)
    requires forall i | 0 <= i < |Against(b, o.side)| :: !Crosses(o.side, Against(b, o.side)[i].price, o.price)
    ensures Sound(Rest(b, o))
  {
    var stamped: RestingOrder := o.(seqNo := b.nextSeq);
    var b' := Rest(b, o);
    if o.side == Buy {
      InsertedOn(Buy, b.bids, stamped);
      forall i, j | 0 <= i < |b'.bids| && 0 <= j < |b'.asks| ensures b'.bids[i].price < b'.asks[j].price {
        if b'.bids[i] == stamped {
          assert !Crosses(o.side, Against(b, o.side)[j].price, o.price);
        }
      }
    } else {
      InsertedOn(Sell, b.asks, stamped);
      forall i, j | 0 <= i < |b'.bids| && 0 <= j < |b'.asks| ensures b'.bids[i].price < b'.asks[j].price {
        if b'.asks[j] == stamped {
          assert !Crosses(o.side, Against(b, o.side)[i].price, o.price);
        }
      }
    }
  }

  /** A sweep that leaves something unfilled leaves nothing that crosses. */
  lemma {:induction false} NothingLeftCrosses(q: Queue, t: Incoming)
    requires Ranked(Opposite(t.side), q) && Sweep(q, t, t.amount).left > 0
    ensures
      var rest := Sweep(q, t, t.amount).rest;
      forall i | 0 <= i < |rest| :: !Crosses(t.side, rest[i].price, t.price)
  {
    var n := SweepRest(q, t, t.amount);
    var rest := Sweep(q, t, t.amount).rest;
    forall i | 0 <= i < |rest| ensures !Crosses(t.side, rest[i].price, t.price) {
      if i > 0 {
        assert Ahead(Opposite(t.side), q[n], q[n + i]);
      }
    }
  }

  lemma {:induction false} SweptKeeps(b: Book, t: Incoming)
    requires Sound(b)
    ensures Sound(WithAgainst(b, t.side, Sweep(Against(b, t.side), t, t.amount).rest))
  {
    var q := Against(b, t.side);
    SweepWithin(q, t, t.amount);
    SweepKeepsRank(q, t, t.amount, Opposite(t.side));
    if t.side == Buy {
      WithinItself(b.bids);
      WithinKeeps(b, b.(asks := Sweep(b.asks, t, t.amount).rest));
    } else {
      WithinItself(b.asks);
      WithinKeeps(b, b.(bids := Sweep(b.bids, t, t.amount).rest));
    }
  }

  lemma {:induction false} PlaceKeeps(b: Book, t: Incoming, rule: Rule)
    requires Sound(b)
    ensures Sound(Place(b, t, rule).book)
  {
    var q := Against(b, t.side);
    var s := Sweep(q, t, t.amount);
    SweptKeeps(b, t);
    if s.left > 0 {
      NothingLeftCrosses(q, t);
      SweepConserves(q, t, t.amount);
      var o := Order(t.orderId, t.maker, t.price, t.amount, RecordedFilled(rule, t.amount, SumAmounts(s.fills)),
                     t.side, 0, t.nonce, t.deadline);
      RestKeeps(WithAgainst(b, t.side, s.rest), o);
    }
  }

  lemma {:induction false} CancelKeeps(b: Book, orderId: nat, removed: Queue, b': Book)
    requires Sound(b) && Cancelled(b, orderId, removed, b')
    ensures Sound(b')
  {
    WithinItself(b.bids);
    WithinItself(b.asks);
    if removed != [] {
      if Contains(b.bids, orderId) {
        RemovedWithin(b.bids, removed[0], b'.bids, Buy);
      } else {
        RemovedWithin(b.asks, removed[0], b'.asks, Sell);
      }
      WithinKeeps(b, b');
    }
  }

  lemma {:induction false} CancelAllKeeps(b: Book, maker: Address)
    requires Sound(b)
    ensures Sound(AllCancelled(b, maker))
  {
    OthersWithin(b.bids, maker, Buy);
    OthersWithin(b.asks, maker, Sell);
    WithinKeeps(b, AllCancelled(b, maker));
  }

  ghost predicate AllSound(bs: Books) {
    forall p | p in bs :: Sound(bs[p])
  }

  lemma {:induction false} StepKeeps(rule: Rule, bs: Books, cmd: Command, out: Out, bs': Books)
    requires Next(rule, bs, cmd, out, bs') && AllSound(bs)
    ensures AllSound(bs')
  {
    match cmd
    case PlaceOrder(_, p, order) => PlaceKeeps(BookAt(bs, p), order, rule);
    case CancelOrder(p, orderId) =>
      if p in bs {
        CancelKeeps(bs[p], orderId, out.removed, BookAt(bs', p));
      }
    case CancelAll(p, maker) =>
      if p in bs {
        CancelAllKeeps(bs[p], maker);
      }
    case Shutdown =>
  }

  /**
   No book is ever crossed, in any run, under either way of recording fills: from sound books every
   command leaves sound books, in price-time priority with best bid below best ask.
   */
  lemma {:induction false} NeverCrossed(rule: Rule, states: seq<Books>, cmds: seq<Command>, outs: seq<Out>, n: nat)
    requires IsRun(rule, states, cmds, outs) && AllSound(states[0]) && n <= |cmds|
    ensures AllSound(states[n])
  {
    if n == 0 {
    } else {
      NeverCrossed(rule, states, cmds, outs, n - 1);
      StepKeeps(rule, states[n - 1], cmds[n - 1], outs[n - 1], states[n]);
    }
  }

  // ---- Where quantity goes ----

  /** Quantity of order `x` still resting in `q`. */
  function Remaining(q: Queue, x: nat): nat {
    if q == [] then 0
    else (if q[0].orderId == x then q[0].Remaining() else 0) + Remaining(q[1..], x)
  }

  function InBook(b: Book, x: nat): nat {
    Remaining(b.bids, x) + Remaining(b.asks, x)
  }

  /** Quantity of order `x` filled, as a maker or as a taker. */
  function Filled(fills: seq<Fill>, x: nat): nat {
    if fills == [] then 0
    else
      (if fills[0].makerOrderId == x then fills[0].amount else 0)
      + (if fills[0].takerOrderId == x then fills[0].amount else 0)
      + Filled(fills[1..], x)
  }

  lemma {:induction false} RemainingConcat(a: Queue, b: Queue, x: nat)
    ensures Remaining(a + b, x) == Remaining(a, x) + Remaining(b, x)
  {
    if a == [] {
      assert a + b == b;
    } else {
      assert (a + b)[1..] == a[1..] + b;
      RemainingConcat(a[1..], b, x);
    }
  }

  lemma {:induction false} RemainingOne(o: RestingOrder, x: nat)
    ensures Remaining([o], x) == if o.orderId == x then o.Remaining() else 0
  {
    assert [o][1..] == [];
  }

  /** Quantity of order `x` filled as a maker. */
  function Made(fills: seq<Fill>, x: nat): nat {
    if fills == [] then 0 else (if fills[0].makerOrderId == x then fills[0].amount else 0) + Made(fills[1..], x)
  }

  /** A sweep turns resting quantity into fills, dropped orders and the rest of the list, unit for unit. */
  lemma {:induction false} SweepMovesQuantity(q: Queue, t: Incoming, left: nat, x: nat)
    ensures
      var s := Sweep(q, t, left);
      Remaining(q, x) == Remaining(s.rest, x) + Made(s.fills, x) + Remaining(s.dropped, x)
  {
    if q == [] || left == 0 || !Crosses(t.side, q[0].price, t.price) {
    } else if q[0].maker == t.maker {
      SweepMovesQuantity(q[1..], t, left, x);
      var d := Sweep(q[1..], t, left).dropped;
      assert ([q[0]] + d)[1..] == d;
    } else {
      var amount := Min(left, q[0].Remaining());
      var f := FillOf(q[0], t, amount);
      if amount == q[0].Remaining() {
        SweepMovesQuantity(q[1..], t, left - amount, x);
        var more := Sweep(q[1..], t, left - amount).fills;
        assert ([f] + more)[1..] == more;
      } else {
        var partly: RestingOrder := q[0].(filled := q[0].filled + amount);
        assert ([partly] + q[1..])[1..] == q[1..];
        assert [f][1..] == [];
      }
    }
  }

  /** All fills of a sweep are the taker's. */
  lemma {:induction false} SweepTakes(q: Queue, t: Incoming, left: nat, x: nat)
    ensures
      var fills := Sweep(q, t, left).fills;
      Filled(fills, x) == Made(fills, x) + if t.orderId == x then SumAmounts(fills) else 0
  {
    if q == [] || left == 0 || !Crosses(t.side, q[0].price, t.price) {
    } else if q[0].maker == t.maker {
      SweepTakes(q[1..], t, left, x);
    } else {
      var amount := Min(left, q[0].Remaining());
      var f := FillOf(q[0], t, amount);
      if amount == q[0].Remaining() {
        SweepTakes(q[1..], t, left - amount, x);
        var more := Sweep(q[1..], t, left - amount).fills;
        assert ([f] + more)[1..] == more;
      } else {
        assert [f][1..] == [];
      }
    }
  }

  lemma {:induction false} InsertAddsQuantity(side: Side, q: Queue, o: RestingOrder, x: nat)
    ensures Remaining(Insert(side, q, o), x) == Remaining(q, x) + if o.orderId == x then o.Remaining() else 0
  {
    var n := InsertSplits(side, q, o);
    RemainingConcat(q[..n] + [o], q[n..], x);
    RemainingConcat(q[..n], [o], x);
    RemainingConcat(q[..n], q[n..], x);
    RemainingOne(o, x);
    assert q[..n] + q[n..] == q;
  }

  lemma {:induction false} RemovalTakesQuantity(q: Queue, o: RestingOrder, q': Queue, x: nat)
    requires RemovesOne(q, o, q')
    ensures Remaining(q, x) == Remaining(q', x) + Remaining([o], x)
  {
    var i :| 0 <= i < |q| && q[i] == o && q' == q[..i] + q[i + 1..];
    assert q == q[..i] + [o] + q[i + 1..];
    RemainingConcat(q[..i] + [o], q[i + 1..], x);
    RemainingConcat(q[..i], [o], x);
    RemainingConcat(q[..i], q[i + 1..], x);
  }

  lemma {:induction false} OthersSplitQuantity(q: Queue, maker: Address, x: nat)
    ensures Remaining(q, x) == Remaining(Others(q, maker), x) + Remaining(Own(q, maker), x)
  {
    if q == [] {
    } else {
      OthersSplitQuantity(q[1..], maker, x);
      var o, w := Others(q[1..], maker), Own(q[1..], maker);
      assert ([q[0]] + o)[1..] == o && ([q[0]] + w)[1..] == w;
    }
  }

  /** Quantity a command brings in for order `x` at position `p`. */
  function Brought(cmd: Command, p: nat, x: nat): nat {
    if cmd.PlaceOrder? && cmd.positionId == p && cmd.order.orderId == x then cmd.order.amount else 0
  }

  function At(cmd: Command, p: nat): bool {
    !cmd.Shutdown? && cmd.positionId == p
  }

  function FilledBy(cmd: Command, out: Out, p: nat, x: nat): nat {
    if At(cmd, p) && out.result.Some? then Filled(out.result.value.fills, x) else 0
  }

  function DiscardedBy(cmd: Command, out: Out, p: nat, x: nat): nat {
    if At(cmd, p) then Remaining(out.removed, x) else 0
  }

  /** One command neither creates nor loses a unit of order `x`. */
  ghost predicate Conserves(bs: Books, cmd: Command, out: Out, bs': Books, p: nat, x: nat) {
    InBook(BookAt(bs, p), x) + Brought(cmd, p, x)
    == InBook(BookAt(bs', p), x) + FilledBy(cmd, out, p, x) + DiscardedBy(cmd, out, p, x)
  }

  /** Placing conserves up to what the resting order records. */
  lemma {:induction false} PlaceQuantity(b: Book, t: Incoming, rule: Rule, x: nat)
    ensures
      var p := Place(b, t, rule);
      var left := Sweep(Against(b, t.side), t, t.amount).left;
      var recorded := if p.resting.Some? then p.resting.value.Remaining() else 0;
      && InBook(b, x) + (if t.orderId == x then t.amount + recorded - left else 0)
         == InBook(p.book, x) + Filled(p.fills, x) + Remaining(p.dropped, x)
  {
    var q := Against(b, t.side);
    var s := Sweep(q, t, t.amount);
    SweepMovesQuantity(q, t, t.amount, x);
    SweepTakes(q, t, t.amount, x);
    SweepConserves(q, t, t.amount);
    if s.left > 0 {
      var p := Place(b, t, rule);
      var swept := WithAgainst(b, t.side, s.rest);
      InsertAddsQuantity(t.side, Against(swept, Opposite(t.side)), p.resting.value, x);
    }
  }

  lemma {:induction false} CancelConserves(b: Book, orderId: nat, removed: Queue, b': Book, x: nat)
    requires Cancelled(b, orderId, removed, b')
    ensures InBook(b, x) == InBook(b', x) + Remaining(removed, x)
  {
    if removed != [] {
      assert removed == [removed[0]];
      if Contains(b.bids, orderId) {
        RemovalTakesQuantity(b.bids, removed[0], b'.bids, x);
      } else {
        RemovalTakesQuantity(b.asks, removed[0], b'.asks, x);
      }
    }
  }

  lemma {:induction false} StepConserves(bs: Books, cmd: Command, out: Out, bs': Books, p: nat, x: nat)
    requires Next(SumOfFills, bs, cmd, out, bs')
    ensures Conserves(bs, cmd, out, bs', p, x)
  {
    if At(cmd, p) {
      match cmd
      case PlaceOrder(_, _, order) =>
        SweepConserves(Against(BookAt(bs, p), order.side), order, order.amount);
        PlaceQuantity(BookAt(bs, p), order, SumOfFills, x);
      case CancelOrder(_, orderId) =>
        if p in bs {
          CancelConserves(bs[p], orderId, out.removed, bs'[p], x);
        }
      case CancelAll(_, maker) =>
        var b := BookAt(bs, p);
        OthersSplitQuantity(b.bids, maker, x);
        OthersSplitQuantity(b.asks, maker, x);
        RemainingConcat(Own(b.bids, maker), Own(b.asks, maker), x);
      case Shutdown =>
    }
  }

  function BroughtInAll(cmds: seq<Command>, p: nat, x: nat): nat {
    if cmds == [] then 0 else BroughtInAll(cmds[..|cmds| - 1], p, x) + Brought(cmds[|cmds| - 1], p, x)
  }

  function FilledInAll(cmds: seq<Command>, outs: seq<Out>, p: nat, x: nat): nat
    requires |cmds| == |outs|
  {
    if cmds == [] then 0
    else
      var n := |cmds| - 1;
      FilledInAll(cmds[..n], outs[..n], p, x) + FilledBy(cmds[n], outs[n], p, x)
  }

  function DiscardedInAll(cmds: seq<Command>, outs: seq<Out>, p: nat, x: nat): nat
    requires |cmds| == |outs|
  {
    if cmds == [] then 0
    else
      var n := |cmds| - 1;
      DiscardedInAll(cmds[..n], outs[..n], p, x) + DiscardedBy(cmds[n], outs[n], p, x)
  }

  /**
   Whole-run conservation, with fills recorded as their sum: what an order brought in is filled,
   still resting, or discarded by a cancellation or a self-trade.  So no order is filled beyond it.
   */
  lemma {:induction false} QuantityConserved(states: seq<Books>, cmds: seq<Command>, outs: seq<Out>, p: nat, x: nat)
    requires IsRun(SumOfFills, states, cmds, outs)
    ensures InBook(BookAt(states[0], p), x) + BroughtInAll(cmds, p, x)
         == InBook(BookAt(states[|cmds|], p), x) + FilledInAll(cmds, outs, p, x) + DiscardedInAll(cmds, outs, p, x)
    ensures FilledInAll(cmds, outs, p, x) <= InBook(BookAt(states[0], p), x) + BroughtInAll(cmds, p, x)
  {
    if cmds == [] {
    } else {
      var n := |cmds| - 1;
      assert IsRun(SumOfFills, states[..n + 1], cmds[..n], outs[..n]);
      QuantityConserved(states[..n + 1], cmds[..n], outs[..n], p, x);
      StepConserves(states[n], cmds[n], outs[n], states[n + 1], p, x);
    }
  }

  // ---- Identifiers ----

  /** How many orders of `q` carry the identifier `x`. */
  function Count(q: Queue, x: nat): nat {
    if q == [] then 0 else (if q[0].orderId == x then 1 else 0) + Count(q[1..], x)
  }

  function CountInBook(b: Book, x: nat): nat {
    Count(b.bids, x) + Count(b.asks, x)
  }

  lemma {:induction false} CountConcat(a: Queue, b: Queue, x: nat)
    ensures Count(a + b, x) == Count(a, x) + Count(b, x)
  {
    if a == [] {
      assert a + b == b;
    } else {
      assert (a + b)[1..] == a[1..] + b;
      CountConcat(a[1..], b, x);
    }
  }

  lemma {:induction false} CountMeansContains(q: Queue, x: nat)
    ensures Count(q, x) > 0 <==> Contains(q, x)
  {
    if q == [] {
    } else {
      CountMeansContains(q[1..], x);
      if Contains(q[1..], x) {
        var i :| 0 <= i < |q[1..]| && q[1..][i].orderId == x;
        assert q[i + 1].orderId == x;
      }
      if Contains(q, x) && q[0].orderId != x {
        var i :| 0 <= i < |q| && q[i].orderId == x;
        assert q[1..][i - 1].orderId == x;
      }
    }
  }

  lemma {:induction false} SweepCounts(q: Queue, t: Incoming, left: nat, x: nat)
    ensures Count(Sweep(q, t, left).rest, x) <= Count(q, x)
  {
    if q == [] || left == 0 || !Crosses(t.side, q[0].price, t.price) {
    } else if q[0].maker == t.maker {
      SweepCounts(q[1..], t, left, x);
    } else {
      var amount := Min(left, q[0].Remaining());
      if amount == q[0].Remaining() {
        SweepCounts(q[1..], t, left - amount, x);
      } else {
        var partly: RestingOrder := q[0].(filled := q[0].filled + amount);
        assert ([partly] + q[1..])[1..] == q[1..];
      }
    }
  }

  lemma {:induction false} InsertCounts(side: Side, q: Queue, o: RestingOrder, x: nat)
    ensures Count(Insert(side, q, o), x) == Count(q, x) + if o.orderId == x then 1 else 0
  {
    if q == [] || Better(side, o.price, q[0].price) {
      assert ([o] + q)[1..] == q;
    } else {
      InsertCounts(side, q[1..], o, x);
      assert ([q[0]] + Insert(side, q[1..], o))[1..] == Insert(side, q[1..], o);
    }
  }

  lemma {:induction false} RemovalCounts(q: Queue, o: RestingOrder, q': Queue, x: nat)
    requires RemovesOne(q, o, q')
    ensures Count(q, x) == Count(q', x) + if o.orderId == x then 1 else 0
  {
    var i :| 0 <= i < |q| && q[i] == o && q' == q[..i] + q[i + 1..];
    assert q == q[..i] + ([o] + q[i + 1..]) && ([o] + q[i + 1..])[1..] == q[i + 1..];
    CountConcat(q[..i], [o] + q[i + 1..], x);
    CountConcat(q[..i], q[i + 1..], x);
  }

  lemma {:induction false} OthersCount(q: Queue, maker: Address, x: nat)
    ensures Count(Others(q, maker), x) <= Count(q, x)
  {
    if q == [] {
    } else {
      OthersCount(q[1..], maker, x);
      var o := Others(q[1..], maker);
      assert ([q[0]] + o)[1..] == o;
    }
  }

  lemma {:induction false} StepCounts(rule: Rule, bs: Books, cmd: Command, out: Out, bs': Books, p: nat, x: nat)
    requires Next(rule, bs, cmd, out, bs')
    ensures CountInBook(BookAt(bs', p), x)
         <= CountInBook(BookAt(bs, p), x) + if cmd.PlaceOrder? && At(cmd, p) && cmd.order.orderId == x then 1 else 0
  {
    if At(cmd, p) {
      var b := BookAt(bs, p);
      match cmd
      case PlaceOrder(_, _, t) =>
        SweepCounts(Against(b, t.side), t, t.amount, x);
        var r := Place(b, t, rule);
        if r.resting.Some? {
          var swept := WithAgainst(b, t.side, Sweep(Against(b, t.side), t, t.amount).rest);
          InsertCounts(t.side, Against(swept, Opposite(t.side)), r.resting.value, x);
        }
      case CancelOrder(_, orderId) =>
        if p in bs && out.removed != [] {
          if Contains(b.bids, orderId) {
            RemovalCounts(b.bids, out.removed[0], bs'[p].bids, x);
          } else {
            RemovalCounts(b.asks, out.removed[0], bs'[p].asks, x);
          }
        }
      case CancelAll(_, maker) =>
        OthersCount(b.bids, maker, x);
        OthersCount(b.asks, maker, x);
      case Shutdown =>
    }
  }

  function Placements(cmds: seq<Command>, p: nat, x: nat): nat {
    if cmds == [] then 0
    else
      var cmd := cmds[|cmds| - 1];
      Placements(cmds[..|cmds| - 1], p, x) + if cmd.PlaceOrder? && At(cmd, p) && cmd.order.orderId == x then 1 else 0
  }

  /**
   Identifiers stay unique: a book never holds more orders with an identifier than it started with and
   were placed with it.  With fresh identifiers that is at most one, in every run.
   */
  lemma {:induction false} IdsStayUnique(rule: Rule, states: seq<Books>, cmds: seq<Command>, outs: seq<Out>, p: nat,
                                         x: nat)
    requires IsRun(rule, states, cmds, outs)
    ensures CountInBook(BookAt(states[|cmds|], p), x) <= CountInBook(BookAt(states[0], p), x) + Placements(cmds, p, x)
  {
    if cmds == [] {
    } else {
      var n := |cmds| - 1;
      assert IsRun(rule, states[..n + 1], cmds[..n], outs[..n]);
      IdsStayUnique(rule, states[..n + 1], cmds[..n], outs[..n], p, x);
      StepCounts(rule, states[n], cmds[n], outs[n], states[n + 1], p, x);
    }
  }

  /** Where identifiers are unique, a cancellation that finds an order leaves none: the next one finds nothing. */
  lemma {:induction false} CancelOnce(b: Book, orderId: nat, removed: Queue, b': Book)
    requires CountInBook(b, orderId) <= 1 && Cancelled(b, orderId, removed, b')
    ensures Cancelled(b', orderId, [], b')
    ensures removed == [] <==> CountInBook(b, orderId) == 0
  {
    CountMeansContains(b.bids, orderId);
    CountMeansContains(b.asks, orderId);
    CountMeansContains(b'.bids, orderId);
    CountMeansContains(b'.asks, orderId);
    if removed != [] {
      if Contains(b.bids, orderId) {
        RemovalCounts(b.bids, removed[0], b'.bids, orderId);
      } else {
        RemovalCounts(b.asks, removed[0], b'.asks, orderId);
      }
    }
  }

  // ---- The recorded fill as the code writes it ----

  /**
   As written, placing an order conserves its quantity exactly when the order is fully filled or
   exactly half of it matches.
   */
  lemma {:induction false} AsWrittenConservesExactly(b: Book, t: Incoming)
    requires Ranked(Opposite(t.side), Against(b, t.side))
    ensures
      var p := Place(b, t, AsWritten);
      var liquidity := Liquidity(Against(b, t.side), t);
      InBook(b, t.orderId) + t.amount == InBook(p.book, t.orderId) + Filled(p.fills, t.orderId)
          + Remaining(p.dropped, t.orderId)
      <==> t.amount <= liquidity || 2 * liquidity == t.amount
  {
    SweepIsMaximal(Against(b, t.side), t, t.amount);
    SweepConserves(Against(b, t.side), t, t.amount);
    PlaceQuantity(b, t, AsWritten, t.orderId);
  }

  ghost predicate Exhausted(b: Book) {
    && (forall i | 0 <= i < |b.bids| :: b.bids[i].Remaining() == 0)
    && (forall i | 0 <= i < |b.asks| :: b.asks[i].Remaining() == 0)
  }

  lemma {:induction false} ExhaustedSweep(q: Queue, t: Incoming, left: nat)
    requires forall i | 0 <= i < |q| :: q[i].Remaining() == 0
    ensures SumAmounts(Sweep(q, t, left).fills) == 0 && Sweep(q, t, left).left == left
    ensures
      var rest := Sweep(q, t, left).rest;
      forall i | 0 <= i < |rest| :: rest[i].Remaining() == 0
  {
    if q == [] || left == 0 || !Crosses(t.side, q[0].price, t.price) {
    } else {
      ExhaustedSweep(q[1..], t, left);
      var f := FillOf(q[0], t, 0);
      var more := Sweep(q[1..], t, left).fills;
      assert ([f] + more)[1..] == more;
    }
  }

  lemma {:induction false} ExhaustedPlace(b: Book, t: Incoming)
    requires Exhausted(b)
    ensures Exhausted(Place(b, t, AsWritten).book) && SumAmounts(Place(b, t, AsWritten).fills) == 0
  {
    var q := Against(b, t.side);
    var s := Sweep(q, t, t.amount);
    ExhaustedSweep(q, t, t.amount);
    if s.left > 0 {
      var p := Place(b, t, AsWritten);
      var own := Against(WithAgainst(b, t.side, s.rest), Opposite(t.side));
      ExhaustedInsert(t.side, own, p.resting.value);
    }
  }

  lemma {:induction false} ExhaustedInsert(side: Side, q: Queue, o: RestingOrder)
    requires o.Remaining() == 0 && forall i | 0 <= i < |q| :: q[i].Remaining() == 0
    ensures forall i | 0 <= i < |Insert(side, q, o)| :: Insert(side, q, o)[i].Remaining() == 0
  {
    if q == [] {
    } else {
      ExhaustedInsert(side, q[1..], o);
    }
  }

  /**
   As written, the matcher never trades from empty books: in every run every fill is of quantity
   zero, because an order that matches nothing rests with nothing remaining.
   */
  lemma {:induction false} AsWrittenNeverTrades(states: seq<Books>, cmds: seq<Command>, outs: seq<Out>, n: nat)
    requires IsRun(AsWritten, states, cmds, outs) && n <= |cmds|
    requires forall p | p in states[0] :: Exhausted(states[0][p])
    ensures forall p | p in states[n] :: Exhausted(states[n][p])
    ensures forall i | 0 <= i < n && outs[i].result.Some? :: SumAmounts(outs[i].result.value.fills) == 0
  {
    if n == 0 {
    } else {
      AsWrittenNeverTrades(states, cmds, outs, n - 1);
      var bs, cmd, out, bs' := states[n - 1], cmds[n - 1], outs[n - 1], states[n];
      assert Next(AsWritten, bs, cmd, out, bs');
      match cmd
      case PlaceOrder(_, p, order) => ExhaustedPlace(BookAt(bs, p), order);
      case CancelOrder(p, orderId) =>
      case CancelAll(p, maker) =>
        if p in bs {
          ExhaustedOthers(bs[p].bids, maker);
          ExhaustedOthers(bs[p].asks, maker);
        }
      case Shutdown =>
    }
  }

  lemma {:induction false} ExhaustedOthers(q: Queue, maker: Address)
    requires forall i | 0 <= i < |q| :: q[i].Remaining() == 0
    ensures forall i | 0 <= i < |Others(q, maker)| :: Others(q, maker)[i].Remaining() == 0
  {
    if q == [] {
    } else {
      ExhaustedOthers(q[1..], maker);
    }
  }

  /**
   As written, a placement leaves an order open to more than its amount, counting what it has been filled
   for and what it still offers, exactly when more than half of it but not all of it matches.
   */
  lemma {:induction false} AsWrittenOverfillsExactly(b: Book, t: Incoming)
    requires Ranked(Opposite(t.side), Against(b, t.side))
    ensures
      var p := Place(b, t, AsWritten);
      var liquidity := Liquidity(Against(b, t.side), t);
      SumAmounts(p.fills) + (if p.resting.Some? then p.resting.value.Remaining() else 0) > t.amount
      <==> liquidity < t.amount < 2 * liquidity
  {
    SweepIsMaximal(Against(b, t.side), t, t.amount);
  }

  /** A key larger than that of every wallet in the list. */
  function FreshKey(q: Queue): (k: nat)
    ensures forall i | 0 <= i < |q| && q[i].maker.Wallet? :: q[i].maker.key < k
  {
    if q == [] then 0
    else
      var k := FreshKey(q[1..]);
      if q[0].maker.Wallet? && q[0].maker.key >= k then q[0].maker.key + 1 else k
  }

  function HighestPrice(q: Queue): (m: nat)
    ensures forall i | 0 <= i < |q| :: q[i].price <= m
  {
    if q == [] then 0
    else
      var m := HighestPrice(q[1..]);
      if q[0].price > m then q[0].price else m
  }

  /**
   An order that takes everything on a list: from a stranger, at a price that crosses all of it, for more
   than there is.
   */
  function TakeAll(q: Queue, side: Side, id: nat): Incoming {
    var price := if side == Buy then HighestPrice(q) else 0;
    var t := Incoming(id, Wallet(FreshKey(q)), price, 0, side, 0, 0);
    t.(amount := Liquidity(q, t) + 1)
  }

  lemma {:induction false} LiquiditySame(q: Queue, t: Incoming, u: Incoming)
    requires t.side == u.side && t.price == u.price && t.maker == u.maker
    ensures Liquidity(q, t) == Liquidity(q, u)
  {
    if q == [] {
    } else {
      LiquiditySame(q[1..], t, u);
    }
  }

  lemma {:induction false} StrangerDropsNothing(q: Queue, t: Incoming, left: nat)
    requires forall i | 0 <= i < |q| :: q[i].maker != t.maker
    ensures Sweep(q, t, left).dropped == []
  {
    if q == [] || left == 0 || !Crosses(t.side, q[0].price, t.price) {
    } else {
      StrangerDropsNothing(q[1..], t, left - Min(left, q[0].Remaining()));
    }
  }

  /** Everything an order still offers can be taken. */
  lemma {:induction false} AllCanBeTaken(q: Queue, side: Side, id: nat, x: nat)
    requires Ranked(Opposite(side), q)
    ensures
      var t := TakeAll(q, side, id);
      Made(Sweep(q, t, t.amount).fills, x) == Remaining(q, x)
  {
    var t := TakeAll(q, side, id);
    LiquiditySame(q, t, t.(amount := 0));
    SweepIsMaximal(q, t, t.amount);
    var n := SweepRest(q, t, t.amount);
    StrangerDropsNothing(q, t, t.amount);
    SweepMovesQuantity(q, t, t.amount, x);
  }

  /** Nothing beyond what an order still offers can be taken by one other order. */
  lemma {:induction false} OnlyOfferedIsTaken(b: Book, t: Incoming, rule: Rule, x: nat)
    requires t.orderId != x
    ensures Filled(Place(b, t, rule).fills, x) <= InBook(b, x)
  {
    SweepMovesQuantity(Against(b, t.side), t, t.amount, x);
    SweepTakes(Against(b, t.side), t, t.amount, x);
  }

  lemma {:induction false} AbsentOffersNothing(q: Queue, x: nat)
    requires Count(q, x) == 0
    ensures Remaining(q, x) == 0
  {
    if q == [] {
    } else {
      AbsentOffersNothing(q[1..], x);
    }
  }

  /** What a placement makes of a new order: it is filled for the liquidity, and offers what it records as remaining. */
  lemma {:induction false} NewOrderPlaced(b: Book, t: Incoming, rule: Rule)
    requires CountInBook(b, t.orderId) == 0
    ensures
      var p := Place(b, t, rule);
      && Filled(p.fills, t.orderId) == SumAmounts(p.fills)
      && InBook(p.book, t.orderId) == if p.resting.Some? then p.resting.value.Remaining() else 0
  {
    var q := Against(b, t.side);
    AbsentOffersNothing(b.bids, t.orderId);
    AbsentOffersNothing(b.asks, t.orderId);
    SweepMovesQuantity(q, t, t.amount, t.orderId);
    SweepTakes(q, t, t.amount, t.orderId);
    PlaceQuantity(b, t, rule, t.orderId);
    SweepConserves(q, t, t.amount);
  }

  /**
   So a new order can be filled beyond its amount by the very next order, exactly when more than half of
   it but not all of it matches.
   */
  lemma {:induction false} OverfilledByTheNextExactly(b: Book, t: Incoming)
    requires Sound(b) && CountInBook(b, t.orderId) == 0
    ensures
      var p := Place(b, t, AsWritten);
      var liquidity := Liquidity(Against(b, t.side), t);
      (exists u: Incoming :: u.orderId != t.orderId
         && Filled(p.fills, t.orderId) + Filled(Place(p.book, u, AsWritten).fills, t.orderId) > t.amount)
      <==> liquidity < t.amount < 2 * liquidity
  {
    var x, p := t.orderId, Place(b, t, AsWritten);
    AsWrittenOverfillsExactly(b, t);
    NewOrderPlaced(b, t, AsWritten);
    forall u: Incoming | u.orderId != x ensures Filled(Place(p.book, u, AsWritten).fills, x) <= InBook(p.book, x) {
      OnlyOfferedIsTaken(p.book, u, AsWritten, x);
    }
    if Liquidity(Against(b, t.side), t) < t.amount < 2 * Liquidity(Against(b, t.side), t) {
      SweepIsMaximal(Against(b, t.side), t, t.amount);
      var u := OfferIsTaken(b, t);
      assert Filled(p.fills, x) + Filled(Place(p.book, u, AsWritten).fills, x) > t.amount;
    }
  }

  /** Some next order takes all a new resting order offers. */
  lemma {:induction false} OfferIsTaken(b: Book, t: Incoming) returns (u: Incoming)
    requires Sound(b) && CountInBook(b, t.orderId) == 0 && Place(b, t, AsWritten).resting.Some?
    ensures u.orderId != t.orderId
    ensures u == TakeAll(Against(Place(b, t, AsWritten).book, Opposite(t.side)), Opposite(t.side), t.orderId + 1)
    ensures
      var p := Place(b, t, AsWritten);
      Filled(Place(p.book, u, AsWritten).fills, t.orderId) == p.resting.value.Remaining()
  {
    var x, p := t.orderId, Place(b, t, AsWritten);
    var q := Against(p.book, Opposite(t.side));
    assert Ranked(t.side, q) by { PlaceKeeps(b, t, AsWritten); }
    assert Remaining(q, x) == p.resting.value.Remaining() by {
      NewOrderPlaced(b, t, AsWritten);
      OtherSideFree(b, t);
    }
    u := TakeAll(q, Opposite(t.side), x + 1);
    AllCanBeTaken(q, Opposite(t.side), x + 1, x);
    SweepTakes(q, u, u.amount, x);
  }

  /** A new order offers nothing on the side it was matched against. */
  lemma {:induction false} OtherSideFree(b: Book, t: Incoming)
    requires CountInBook(b, t.orderId) == 0
    ensures Remaining(Against(Place(b, t, AsWritten).book, t.side), t.orderId) == 0
  {
    SweepCounts(Against(b, t.side), t, t.amount, t.orderId);
    AbsentOffersNothing(Sweep(Against(b, t.side), t, t.amount).rest, t.orderId);
  }

  /** As written, an order can be filled beyond its amount: 16 units of an order for 10. */
  lemma {:induction false} AsWrittenOverfills()
    ensures
      var maker := Order(1, Wallet(1), 500_000, 8, 0, Sell, 0, 0, 0);
      var buy := Incoming(2, Wallet(2), 500_000, 10, Buy, 0, 0);
      var sell := Incoming(3, Wallet(3), 500_000, 8, Sell, 0, 0);
      var p1 := Place(Book([], [maker], 1), buy, AsWritten);
      var p2 := Place(p1.book, sell, AsWritten);
      Filled(p1.fills, 2) + Filled(p2.fills, 2) == 16 > buy.amount
  {
    var maker := Order(1, Wallet(1), 500_000, 8, 0, Sell, 0, 0, 0);
    var buy := Incoming(2, Wallet(2), 500_000, 10, Buy, 0, 0);
    var sell := Incoming(3, Wallet(3), 500_000, 8, Sell, 0, 0);
    var f1 := FillOf(maker, buy, 8);
    assert Sweep([], buy, 2) == Swept([], [], 2, []);
    assert [maker][1..] == [];
    assert Sweep([maker], buy, 10) == Swept([f1] + [], [], 2, []);
    assert [f1] + [] == [f1] && [f1][1..] == [];
    var resting: RestingOrder := Order(2, Wallet(2), 500_000, 10, 2, Buy, 1, 0, 0);
    var p1 := Place(Book([], [maker], 1), buy, AsWritten);
    assert Insert(Buy, [], resting) == [resting] + [];
    assert [resting] + [] == [resting];
    assert SumAmounts([f1]) == 8;
    assert p1 == Placed(Book([resting], [], 2), [f1], Some(resting), false, []);
    var f2 := FillOf(resting, sell, 8);
    assert [resting][1..] == [];
    assert Sweep([], sell, 0) == Swept([], [], 0, []);
    assert Sweep([resting], sell, 8) == Swept([f2] + [], [], 0, []);
    assert [f2] + [] == [f2] && [f2][1..] == [];
  }
}
