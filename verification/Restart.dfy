/**
 The restart of a matcher at any point of any run: the stored orders of its books have an order of
 arrival, and the books rebuilt from them go on exactly as the lost ones would have.
 */
module Restart {
  import opened Chain
  import opened Matching
  import opened OrderBook
  import opened Engine
  import opened MatcherRuns
  import opened Rebuild

  // ---- Sequence numbers are never shared ----

  /** How many orders of `q` carry the sequence number `n`. */
  function Stamped(q: Queue, n: nat): nat {
    if q == [] then 0 else (if q[0].seqNo == n then 1 else 0) + Stamped(q[1..], n)
  }

  function StampedInBook(b: Book, n: nat): nat {
    Stamped(b.bids, n) + Stamped(b.asks, n)
  }

  /** No two orders of the book carry the same number, and none carries one still to be handed out. */
  ghost predicate Numbered(b: Book) {
    forall n: nat :: StampedInBook(b, n) <= if n < b.nextSeq then 1 else 0
  }

  ghost predicate AllNumbered(bs: Books) {
    forall p | p in bs :: Numbered(bs[p])
  }

  lemma {:induction false} StampedConcat(a: Queue, b: Queue, n: nat)
    ensures Stamped(a + b, n) == Stamped(a, n) + Stamped(b, n)
  {
    if a == [] {
      assert a + b == b;
    } else {
      assert (a + b)[1..] == a[1..] + b;
      StampedConcat(a[1..], b, n);
    }
  }

  lemma {:induction false} StampedFirst(o: RestingOrder, q: Queue, n: nat)
    ensures Stamped([o] + q, n) == (if o.seqNo == n then 1 else 0) + Stamped(q, n)
  {
    assert ([o] + q)[1..] == q;
  }

  lemma {:induction false} SweepStamped(q: Queue, t: Incoming, left: nat, n: nat)
    ensures Stamped(Sweep(q, t, left).rest, n) <= Stamped(q, n)
  {
    if q == [] || left == 0 || !Crosses(t.side, q[0].price, t.price) {
    } else if q[0].maker == t.maker {
      SweepStamped(q[1..], t, left, n);
    } else {
      var amount := Min(left, q[0].Remaining());
      if amount == q[0].Remaining() {
        SweepStamped(q[1..], t, left - amount, n);
      } else {
        StampedFirst(q[0].(filled := q[0].filled + amount), q[1..], n);
      }
    }
  }

  lemma {:induction false} InsertStamped(side: Side, q: Queue, o: RestingOrder, n: nat)
    ensures Stamped(Matching.Insert(side, q, o), n) == Stamped(q, n) + if o.seqNo == n then 1 else 0
  {
    if q == [] || Better(side, o.price, q[0].price) {
      StampedFirst(o, q, n);
    } else {
      InsertStamped(side, q[1..], o, n);
      StampedFirst(q[0], Matching.Insert(side, q[1..], o), n);
    }
  }

  lemma {:induction false} WithoutStamped(q: Queue, i: nat, n: nat)
    requires i < |q|
    ensures Stamped(q[..i] + q[i + 1..], n) <= Stamped(q, n)
  {
    if i == 0 {
      assert q[..0] + q[1..] == q[1..];
    } else {
      WithoutStamped(q[1..], i - 1, n);
      assert q[..i] + q[i + 1..] == [q[0]] + (q[1..][..i - 1] + q[1..][i..]);
      StampedFirst(q[0], q[1..][..i - 1] + q[1..][i..], n);
    }
  }

  lemma {:induction false} RemovalStamped(q: Queue, o: RestingOrder, q': Queue, n: nat)
    requires RemovesFirst(q, o, q')
    ensures Stamped(q', n) <= Stamped(q, n)
  {
    var i :| 0 <= i < |q| && q[i] == o && q' == q[..i] + q[i + 1..];
    WithoutStamped(q, i, n);
  }

  lemma {:induction false} OthersStamped(q: Queue, maker: Address, n: nat)
    ensures Stamped(Others(q, maker), n) <= Stamped(q, n)
  {
    if q == [] {
    } else {
      OthersStamped(q[1..], maker, n);
      StampedFirst(q[0], Others(q[1..], maker), n);
    }
  }

  /** Fewer orders, and the same numbers handed out. */
  lemma {:induction false} FewerNumbered(b: Book, b': Book)
    requires Numbered(b) && b'.nextSeq == b.nextSeq
    requires forall n: nat :: StampedInBook(b', n) <= StampedInBook(b, n)
    ensures Numbered(b')
  {}

  /** Resting an order hands out the next number. */
  lemma {:induction false} RestNumbered(b: Book, o: RestingOrder)
    requires Numbered(b)
    ensures Numbered(Rest(b, o))
  {
    var stamped: RestingOrder := o.(seqNo := b.nextSeq);
    var b' := Rest(b, o);
    forall n: nat ensures StampedInBook(b', n) <= if n < b'.nextSeq then 1 else 0 {
      InsertStamped(o.side, SideOf(b, o.side), stamped, n);
      assert StampedInBook(b, n) <= if n < b.nextSeq then 1 else 0;
    }
  }

  lemma {:induction false} SweptNumbered(b: Book, t: Incoming)
    requires Numbered(b)
    ensures Numbered(WithAgainst(b, t.side, Sweep(Against(b, t.side), t, t.amount).rest))
  {
    var swept := WithAgainst(b, t.side, Sweep(Against(b, t.side), t, t.amount).rest);
    forall n: nat ensures StampedInBook(swept, n) <= StampedInBook(b, n) {
      SweepStamped(Against(b, t.side), t, t.amount, n);
    }
    FewerNumbered(b, swept);
  }

  lemma {:induction false} PlaceNumbered(b: Book, t: Incoming, rule: Rule)
    requires Numbered(b)
    ensures Numbered(Place(b, t, rule).book)
  {
    var s := Sweep(Against(b, t.side), t, t.amount);
    SweptNumbered(b, t);
    if s.left > 0 {
      SweepConserves(Against(b, t.side), t, t.amount);
      RestNumbered(WithAgainst(b, t.side, s.rest), Order(t.orderId, t.maker, t.price, t.amount,
        RecordedFilled(rule, t.amount, SumAmounts(s.fills)), t.side, 0, t.nonce, t.deadline));
    }
  }

  lemma {:induction false} CancelNumbered(b: Book, orderId: nat, removed: Queue, b': Book)
    requires Numbered(b) && Cancelled(b, orderId, removed, b')
    ensures Numbered(b')
  {
    if removed != [] {
      forall n: nat ensures StampedInBook(b', n) <= StampedInBook(b, n) {
        if Contains(b.bids, orderId) {
          RemovalStamped(b.bids, removed[0], b'.bids, n);
        } else {
          RemovalStamped(b.asks, removed[0], b'.asks, n);
        }
      }
      FewerNumbered(b, b');
    }
  }

  lemma {:induction false} CancelAllNumbered(b: Book, maker: Address)
    requires Numbered(b)
    ensures Numbered(AllCancelled(b, maker))
  {
    forall n: nat ensures StampedInBook(AllCancelled(b, maker), n) <= StampedInBook(b, n) {
      OthersStamped(b.bids, maker, n);
      OthersStamped(b.asks, maker, n);
    }
    FewerNumbered(b, AllCancelled(b, maker));
  }

  lemma {:induction false} StepNumbered(rule: Rule, bs: Books, cmd: Command, out: Out, bs': Books)
    requires Next(rule, bs, cmd, out, bs') && AllNumbered(bs)
    ensures AllNumbered(bs')
  {
    match cmd
    case PlaceOrder(_, p, order) =>
      assert Numbered(BookAt(bs, p));
      PlaceNumbered(BookAt(bs, p), order, rule);
    case CancelOrder(p, orderId) =>
      if p in bs {
        CancelNumbered(bs[p], orderId, out.removed, BookAt(bs', p));
      }
    case CancelAll(p, maker) =>
      if p in bs {
        CancelAllNumbered(bs[p], maker);
      }
    case Shutdown =>
  }

  /** In every run, under either rule, no two orders of a book share a sequence number. */
  lemma {:induction false} StampsStayDistinct(rule: Rule, states: seq<Books>, cmds: seq<Command>, outs: seq<Out>,
                                              n: nat)
    requires IsRun(rule, states, cmds, outs) && AllNumbered(states[0]) && n <= |cmds|
    ensures AllNumbered(states[n])
  {
    if n == 0 {
    } else {
      StampsStayDistinct(rule, states, cmds, outs, n - 1);
      StepNumbered(rule, states[n - 1], cmds[n - 1], outs[n - 1], states[n]);
    }
  }

  // ---- So every book has an order of arrival ----

  /** `o` among orders sorted by arrival. */
  function Enter(orders: Queue, o: RestingOrder): Queue {
    if orders == [] || o.seqNo < orders[0].seqNo then [o] + orders
    else [orders[0]] + Enter(orders[1..], o)
  }

  lemma {:induction false} EnterContents(orders: Queue, o: RestingOrder)
    ensures multiset(Enter(orders, o)) == multiset(orders) + multiset{o}
  {
    if orders == [] || o.seqNo < orders[0].seqNo {
    } else {
      EnterContents(orders[1..], o);
      assert orders == [orders[0]] + orders[1..];
    }
  }

  lemma {:induction false} ArrivesFirst(o: RestingOrder, rest: Queue)
    requires InArrivalOrder(rest) && forall r | r in rest :: o.seqNo < r.seqNo
    ensures InArrivalOrder([o] + rest)
  {}

  lemma {:induction false} EnterKeepsOrder(orders: Queue, o: RestingOrder)
    requires InArrivalOrder(orders) && forall r | r in orders :: r.seqNo != o.seqNo
    ensures InArrivalOrder(Enter(orders, o))
  {
    if orders == [] {
    } else if o.seqNo < orders[0].seqNo {
      ArrivesFirst(o, orders);
    } else {
      var rest := Enter(orders[1..], o);
      EnterKeepsOrder(orders[1..], o);
      EnterContents(orders[1..], o);
      forall r | r in rest ensures orders[0].seqNo < r.seqNo {
        assert r in multiset(orders[1..]) + multiset{o};
      }
      ArrivesFirst(orders[0], rest);
    }
  }

  function ByArrival(q: Queue): Queue {
    if q == [] then [] else Enter(ByArrival(q[1..]), q[0])
  }

  lemma {:induction false} ByArrivalContents(q: Queue)
    ensures multiset(ByArrival(q)) == multiset(q)
  {
    if q == [] {
    } else {
      ByArrivalContents(q[1..]);
      EnterContents(ByArrival(q[1..]), q[0]);
      assert q == [q[0]] + q[1..];
    }
  }

  lemma {:induction false} StampCounted(q: Queue, o: RestingOrder)
    requires o in multiset(q)
    ensures Stamped(q, o.seqNo) >= 1
  {
    if q == [] || o == q[0] {
    } else {
      assert q == [q[0]] + q[1..];
      StampCounted(q[1..], o);
    }
  }

  lemma {:induction false} ByArrivalOrders(q: Queue)
    requires forall n: nat :: Stamped(q, n) <= 1
    ensures InArrivalOrder(ByArrival(q))
  {
    if q == [] {
    } else {
      var rest := ByArrival(q[1..]);
      forall n: nat ensures Stamped(q[1..], n) <= 1 {
        assert Stamped(q, n) <= 1;
      }
      ByArrivalOrders(q[1..]);
      ByArrivalContents(q[1..]);
      forall r | r in rest ensures r.seqNo != q[0].seqNo {
        assert r in multiset(rest);
        StampCounted(q[1..], r);
        assert Stamped(q, q[0].seqNo) <= 1;
      }
      EnterKeepsOrder(rest, q[0]);
    }
  }

  /** The orders of a numbered book by arrival. */
  lemma {:induction false} BookByArrival(b: Book)
    requires Numbered(b)
    ensures
      var orders := ByArrival(b.bids + b.asks);
      InArrivalOrder(orders) && multiset(orders) == multiset(b.bids) + multiset(b.asks)
  {
    forall n: nat ensures Stamped(b.bids + b.asks, n) <= 1 {
      StampedConcat(b.bids, b.asks, n);
      assert StampedInBook(b, n) <= if n < b.nextSeq then 1 else 0;
    }
    ByArrivalOrders(b.bids + b.asks);
    ByArrivalContents(b.bids + b.asks);
  }

  /** The rows hold the resting orders of every book, position by position in order of arrival. */
  ghost predicate Stores(rows: seq<Row>, bs: Books) {
    forall p: nat :: StoresAt(rows, bs, p)
  }

  ghost predicate StoresAt(rows: seq<Row>, bs: Books, p: nat) {
    && InArrivalOrder(RowsAt(rows, p))
    && multiset(RowsAt(rows, p)) == multiset(BookAt(bs, p).bids) + multiset(BookAt(bs, p).asks)
  }

  function RowsFor(p: nat, orders: Queue): seq<Row> {
    seq(|orders|, i requires 0 <= i < |orders| => Row(p, orders[i]))
  }

  lemma {:induction false} RowsAppended(rows: seq<Row>, p: nat, orders: Queue, k: nat)
    ensures RowsAt(rows + RowsFor(p, orders), k) == if k == p then RowsAt(rows, k) + orders else RowsAt(rows, k)
  {
    if orders == [] {
      assert rows + RowsFor(p, orders) == rows;
    } else {
      var n := |orders| - 1;
      var all := rows + RowsFor(p, orders);
      assert all[..|all| - 1] == rows + RowsFor(p, orders[..n]);
      RowsAppended(rows, p, orders[..n], k);
      assert orders == orders[..n] + [orders[n]];
    }
  }

  /** Rows that store the books exist wherever numbers are distinct. */
  lemma {:induction false} RowsExist(bs: Books) returns (rows: seq<Row>)
    requires AllNumbered(bs)
    ensures Stores(rows, bs)
    decreases |bs|
  {
    if bs == map[] {
      rows := [];
    } else {
      var p :| p in bs;
      var before := RowsExist(bs - {p});
      var orders := ByArrival(bs[p].bids + bs[p].asks);
      BookByArrival(bs[p]);
      rows := before + RowsFor(p, orders);
      forall k: nat ensures StoresAt(rows, bs, k) {
        OneMoreStored(before, bs, p, orders, k);
      }
    }
  }

  /** The rows of one more book behind those of the others. */
  lemma {:induction false} OneMoreStored(before: seq<Row>, bs: Books, p: nat, orders: Queue, k: nat)
    requires p in bs && Stores(before, bs - {p})
    requires InArrivalOrder(orders) && multiset(orders) == multiset(bs[p].bids) + multiset(bs[p].asks)
    ensures StoresAt(before + RowsFor(p, orders), bs, k)
  {
    RowsAppended(before, p, orders, k);
    if k == p {
      NoRowsElsewhere(before, bs, p);
      assert [] + orders == orders;
    } else {
      assert StoresAt(before, bs - {p}, k);
    }
  }

  lemma {:induction false} NoRowsElsewhere(rows: seq<Row>, bs: Books, p: nat)
    requires Stores(rows, bs - {p})
    ensures RowsAt(rows, p) == []
  {
    assert StoresAt(rows, bs - {p}, p);
    assert |RowsAt(rows, p)| == |multiset(RowsAt(rows, p))| == 0;
  }

  // ---- The restart ----

  lemma {:induction false} RebuiltNumbered(orders: Queue)
    ensures Numbered(Rebuilt(orders))
  {
    if orders == [] {
    } else {
      RebuiltNumbered(orders[..|orders| - 1]);
      RestNumbered(Rebuilt(orders[..|orders| - 1]), orders[|orders| - 1]);
    }
  }

  lemma {:induction false} RebuiltWellFormed(orders: Queue)
    ensures WellFormed(Rebuilt(orders))
  {
    if orders == [] {
    } else {
      var b, o := Rebuilt(orders[..|orders| - 1]), orders[|orders| - 1];
      RebuiltWellFormed(orders[..|orders| - 1]);
      InsertedOn(o.side, SideOf(b, o.side), o.(seqNo := b.nextSeq));
    }
  }

  lemma {:induction false} SameUncrossed(b: Book, c: Book)
    requires Same(b, c) && Uncrossed(b)
    ensures Uncrossed(c)
  {
    assert |b.bids| == |Erase(b.bids)| == |c.bids| && |b.asks| == |Erase(b.asks)| == |c.asks|;
    forall i, j | 0 <= i < |c.bids| && 0 <= j < |c.asks| ensures c.bids[i].price < c.asks[j].price {
      assert Erase(b.bids)[i] == Erase(c.bids)[i] && Erase(b.asks)[j] == Erase(c.asks)[j];
    }
  }

  /** The books rebuilt from what is stored are the lost ones up to sequence numbers, and as sound. */
  lemma {:induction false} RebuiltBooksAlike(bs: Books, rows: seq<Row>, view: Books)
    requires AllSound(bs) && Stores(rows, bs) && ShowsRows(view, rows)
    ensures SameBooks(bs, view) && AllSound(view) && AllNumbered(view)
  {
    forall p: nat
      ensures Same(BookAt(bs, p), BookAt(view, p))
      ensures p in view ==> Sound(view[p]) && Numbered(view[p])
    {
      var orders := RowsAt(rows, p);
      assert StoresAt(rows, bs, p) && ShowsAt(view, rows, p);
      assert BookAt(view, p) == Rebuilt(orders);
      RebuildRoundTrip(BookAt(bs, p), orders);
      SameUncrossed(BookAt(bs, p), Rebuilt(orders));
      RebuiltWellFormed(orders);
      RebuiltNumbered(orders);
    }
  }

  /**
   A restart is invisible.  Take any run from sound, numbered books, such as none at all, and any point of
   it.  The books built from the rows stored at that point go on to give the same results, command by
   command; and they are sound and numbered, so the next restart is as invisible.
   */
  lemma {:induction false} RestartIsInvisible(rule: Rule, states: seq<Books>, cmds: seq<Command>, outs: seq<Out>,
                                              n: nat,
                                              rows: seq<Row>, view: Books)
    returns (states2: seq<Books>, outs2: seq<Out>)
    requires IsRun(rule, states, cmds, outs) && AllSound(states[0]) && AllNumbered(states[0]) && n <= |cmds|
    requires Stores(rows, states[n]) && ShowsRows(view, rows)
    ensures AllSound(view) && AllNumbered(view)
    ensures IsRun(rule, states2, cmds[n..], outs2) && states2[0] == view
    ensures forall i | n <= i <= |cmds| :: SameBooks(states[i], states2[i - n])
    ensures forall i | n <= i < |cmds| :: SameOut(outs[i], outs2[i - n])
  {
    NeverCrossed(rule, states, cmds, outs, n);
    RebuiltBooksAlike(states[n], rows, view);
    assert IsRun(rule, states[n..], cmds[n..], outs[n..]);
    states2, outs2 := RunsAlike(rule, states[n..], cmds[n..], outs[n..], view);
    forall i | n <= i <= |cmds| ensures SameBooks(states[i], states2[i - n]) {
      assert states[n..][i - n] == states[i];
    }
    forall i | n <= i < |cmds| ensures SameOut(outs[i], outs2[i - n]) {
      assert outs[n..][i - n] == outs[i];
    }
  }

  /** And such rows exist at every point of every run. */
  lemma {:induction false} EveryStateCanBeStored(rule: Rule, states: seq<Books>, cmds: seq<Command>, outs: seq<Out>,
                                                 n: nat)
    returns (rows: seq<Row>)
    requires IsRun(rule, states, cmds, outs) && AllNumbered(states[0]) && n <= |cmds|
    ensures Stores(rows, states[n])
  {
    StampsStayDistinct(rule, states, cmds, outs, n);
    rows := RowsExist(states[n]);
  }
}
