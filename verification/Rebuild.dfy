/**
 Restarting the matcher: books rebuilt by inserting the stored resting orders in order of arrival
 are the books that were lost, up to sequence numbers, and behave exactly alike from then on.
 */
module Rebuild {
  import opened Chain
  import opened Matching
  import opened OrderBook
  import opened Engine
  import opened MatcherRuns

  /** One stored open order. */
  datatype Row = Row(positionId: nat, order: RestingOrder)

  /** The rows of one position, in order. */
  function RowsAt(rows: seq<Row>, p: nat): Queue {
    if rows == [] then []
    else
      var n := |rows| - 1;
      if rows[n].positionId == p then RowsAt(rows[..n], p) + [rows[n].order] else RowsAt(rows[..n], p)
  }

  /** A book after inserting `orders` one by one into an empty one. */
  function Rebuilt(orders: Queue): Book {
    if orders == [] then EMPTY_BOOK else Rest(Rebuilt(orders[..|orders| - 1]), orders[|orders| - 1])
  }

  // ---- The program ----

  /** Builds the matcher's books from the stored rows, in order, and drops empty levels at the end. */
  method RebuildBooks(rows: seq<Row>) returns (m: Matcher)
    ensures m.Valid() && fresh(m) && forall b | b in m.books.Values :: fresh(b)
    ensures ShowsRows(m.view, rows)
  {
    m := new Matcher(map[]);
    for i := 0 to |rows|
      invariant m.Valid() && fresh(m) && forall b | b in m.books.Values :: fresh(b)
      invariant ShowsRows(m.view, rows[..i])
    {
      ghost var view := m.view;
      EnterRow(m, rows[i]);
      RowShown(view, rows, i, m.view);
    }
    assert rows[..|rows|] == rows;
    PruneAll(m);
  }

  /** One turn of the insertion loop. */
  method EnterRow(m: Matcher, row: Row)
    requires m.Valid()
    modifies m, m.books.Values
    ensures m.Valid() && forall b | b in m.books.Values :: b in old(m.books.Values) || fresh(b)
    ensures
      var p := row.positionId;
      m.view == old(m.view)[p := BookAt(old(m.view), p)][p := Rest(BookAt(old(m.view), p), row.order)]
  {
    var book := m.EntryOrDefault(row.positionId);
    InsertRow(m, row);
  }

  /** Position `p` has a book exactly when it has rows, and then the one its rows rebuild. */
  ghost predicate ShowsAt(view: Books, rows: seq<Row>, p: nat) {
    && (p in view <==> RowsAt(rows, p) != [])
    && (p in view ==> view[p] == Rebuilt(RowsAt(rows, p)))
  }

  ghost predicate ShowsRows(view: Books, rows: seq<Row>) {
    forall p: nat :: ShowsAt(view, rows, p)
  }

  lemma {:induction false} RowShown(view: Books, rows: seq<Row>, i: nat, view': Books)
    requires i < |rows| && ShowsRows(view, rows[..i])
    requires
      var p, o := rows[i].positionId, rows[i].order;
      view' == view[p := BookAt(view, p)][p := Rest(BookAt(view, p), o)]
    ensures ShowsRows(view', rows[..i + 1])
  {
    var done := rows[..i + 1];
    assert done[..i] == rows[..i];
    forall p: nat ensures ShowsAt(view', done, p) {
      assert ShowsAt(view, rows[..i], p);
      var before := RowsAt(rows[..i], p);
      assert (before + [rows[i].order])[..|before|] == before;
    }
  }

  method InsertRow(m: Matcher, row: Row)
    requires m.Valid() && row.positionId in m.books
    modifies m`view, m.books.Values
    ensures m.Valid()
    ensures m.view == old(m.view)[row.positionId := Rest(old(m.view)[row.positionId], row.order)]
  {
    var book := m.books[row.positionId];
    var stamped := book.Insert(row.order.(seqNo := 0));
    assert Rest(m.view[row.positionId], row.order.(seqNo := 0)) == Rest(m.view[row.positionId], row.order);
    m.view := m.view[row.positionId := book.State()];
    m.OneBookChanged(row.positionId);
  }

  method PruneAll(m: Matcher)
    requires m.Valid()
    modifies m`view, m.books.Values
    ensures m.Valid() && m.view == old(m.view)
  {
    var todo := m.books.Keys;
    while todo != {}
      invariant todo <= m.books.Keys && m.Valid() && m.view == old(m.view)
    {
      var p :| p in todo;
      PruneOne(m, p);
      todo := todo - {p};
    }
  }

  method PruneOne(m: Matcher, p: nat)
    requires m.Valid() && p in m.books
    modifies m`view, m.books.Values
    ensures m.Valid() && m.view == old(m.view)
  {
    var book := m.books[p];
    assert book.State() == m.view[p];
    book.Prune();
    assert m.view == m.view[p := book.State()];
    m.OneBookChanged(p);
  }

  // ---- Equality up to sequence numbers ----

  function Unstamped(o: RestingOrder): RestingOrder {
    o.(seqNo := 0)
  }

  function Erase(q: Queue): Queue {
    seq(|q|, i requires 0 <= i < |q| => Unstamped(q[i]))
  }

  ghost predicate Same(b: Book, c: Book) {
    Erase(b.bids) == Erase(c.bids) && Erase(b.asks) == Erase(c.asks)
  }

  lemma {:induction false} EraseParts(q: Queue)
    requires q != []
    ensures Erase(q) == [Unstamped(q[0])] + Erase(q[1..])
    ensures Erase(q)[1..] == Erase(q[1..])
  {}

  lemma {:induction false} InsertErased(side: Side, q: Queue, o: RestingOrder)
    ensures Erase(Insert(side, q, o)) == Insert(side, Erase(q), Unstamped(o))
  {
    if q == [] {
    } else {
      EraseParts(q);
      if !Better(side, o.price, q[0].price) {
        InsertErased(side, q[1..], o);
        EraseParts([q[0]] + Insert(side, q[1..], o));
      } else {
        EraseParts([o] + q);
      }
    }
  }

  // ---- The round trip ----

  /** Arrival order: stamps strictly increase. */
  ghost predicate InArrivalOrder(orders: Queue) {
    forall i, j | 0 <= i < j < |orders| :: orders[i].seqNo < orders[j].seqNo
  }

  function OfSide(orders: Queue, side: Side): Queue {
    if orders == [] then []
    else
      var n := |orders| - 1;
      if orders[n].side == side then OfSide(orders[..n], side) + [orders[n]] else OfSide(orders[..n], side)
  }

  /** One side rebuilt without renumbering. */
  function Replayed(side: Side, orders: Queue): Queue {
    if orders == [] then []
    else
      var n := |orders| - 1;
      if orders[n].side == side then Insert(side, Replayed(side, orders[..n]), orders[n])
          else Replayed(side, orders[..n])
  }

  function SideOf(b: Book, side: Side): Queue {
    if side == Buy then b.bids else b.asks
  }

  /** Renumbering is all that inserting through the book adds. */
  lemma {:induction false} RebuiltIsReplayed(orders: Queue, side: Side)
    ensures Erase(SideOf(Rebuilt(orders), side)) == Erase(Replayed(side, orders))
  {
    if orders == [] {
    } else {
      var n := |orders| - 1;
      RebuiltIsReplayed(orders[..n], side);
      var b, o := Rebuilt(orders[..n]), orders[n];
      if o.side == side {
        var stamped: RestingOrder := o.(seqNo := b.nextSeq);
        InsertErased(side, SideOf(b, side), stamped);
        InsertErased(side, Replayed(side, orders[..n]), o);
        assert Unstamped(stamped) == Unstamped(o);
      }
    }
  }

  lemma {:induction false} ReplayedRanked(side: Side, orders: Queue)
    requires InArrivalOrder(orders)
    ensures Ranked(side, Replayed(side, orders))
    ensures multiset(Replayed(side, orders)) == multiset(OfSide(orders, side))
  {
    if orders == [] {
    } else {
      var n := |orders| - 1;
      ReplayedRanked(side, orders[..n]);
      if orders[n].side == side {
        var q := Replayed(side, orders[..n]);
        forall i | 0 <= i < |q| ensures q[i].seqNo < orders[n].seqNo {
          assert q[i] in multiset(OfSide(orders[..n], side));
          OfSideCounts(orders[..n], side, q[i]);
        }
        InsertKeepsRank(side, q, orders[n]);
      }
    }
  }

  lemma {:induction false} OfSideCounts(orders: Queue, side: Side, o: RestingOrder)
    ensures multiset(OfSide(orders, side))[o] == if o.side == side then multiset(orders)[o] else 0
    ensures o in multiset(OfSide(orders, side)) ==> exists i :: 0 <= i < |orders| && orders[i] == o
  {
    if orders == [] {
    } else {
      var n := |orders| - 1;
      OfSideCounts(orders[..n], side, o);
      assert orders == orders[..n] + [orders[n]];
    }
  }

  lemma {:induction false} HeadLeads(side: Side, q: Queue, o: RestingOrder)
    requires Ranked(side, q) && o in multiset(q)
    ensures o == q[0] || Ahead(side, q[0], o)
  {
    var i :| 0 <= i < |q| && q[i] == o;
    if i > 0 {
      assert Ahead(side, q[0], q[i]);
    }
  }

  lemma {:induction false} TailOrders(q: Queue)
    requires q != []
    ensures multiset(q[1..]) == multiset(q) - multiset{q[0]}
  {
    assert q == [q[0]] + q[1..];
  }

  lemma {:induction false} SameHead(side: Side, a: Queue, b: Queue)
    requires Ranked(side, a) && Ranked(side, b) && multiset(a) == multiset(b) && a != [] && b != []
    ensures a[0] == b[0]
  {
    assert a[0] in multiset(a) && b[0] in multiset(b);
    HeadLeads(side, b, a[0]);
    HeadLeads(side, a, b[0]);
  }

  /** Price-time priority leaves no choice: two ranked lists of the same orders are the same list. */
  lemma {:induction false} RankedUnique(side: Side, a: Queue, b: Queue)
    requires Ranked(side, a) && Ranked(side, b) && multiset(a) == multiset(b)
    ensures a == b
  {
    assert |a| == |multiset(a)| == |multiset(b)| == |b|;
    if a == [] {
    } else {
      SameHead(side, a, b);
      TailOrders(a);
      TailOrders(b);
      RankedUnique(side, a[1..], b[1..]);
    }
  }

  lemma {:induction false} NoneOfOtherSide(q: Queue, side: Side, o: RestingOrder)
    requires forall i | 0 <= i < |q| :: q[i].side == side
    ensures o.side != side ==> multiset(q)[o] == 0
  {
    if o.side != side {
      assert o !in q;
    }
  }

  /**
   The round trip: the resting orders of a well-formed book, inserted in order of arrival into an
   empty book, give the book back up to sequence numbers.
   */
  lemma {:induction false} RebuildRoundTrip(b: Book, orders: Queue)
    requires WellFormed(b) && InArrivalOrder(orders)
    requires multiset(orders) == multiset(b.bids) + multiset(b.asks)
    ensures Same(Rebuilt(orders), b)
  {
    forall side: Side ensures Erase(SideOf(Rebuilt(orders), side)) == Erase(SideOf(b, side)) {
      RebuiltIsReplayed(orders, side);
      ReplayedRanked(side, orders);
      forall o: RestingOrder ensures multiset(OfSide(orders, side))[o] == multiset(SideOf(b, side))[o] {
        OfSideCounts(orders, side, o);
        NoneOfOtherSide(b.bids, Buy, o);
        NoneOfOtherSide(b.asks, Sell, o);
      }
      RankedUnique(side, Replayed(side, orders), SideOf(b, side));
    }
    assert SideOf(b, Buy) == b.bids && SideOf(b, Sell) == b.asks;
    assert SideOf(Rebuilt(orders), Buy) == Rebuilt(orders).bids
        && SideOf(Rebuilt(orders), Sell) == Rebuilt(orders).asks;
  }

  // ---- Behaving alike ----

  lemma {:induction false} SweepErased(q: Queue, t: Incoming, left: nat)
    ensures
      var s, e := Sweep(q, t, left), Sweep(Erase(q), t, left);
      e.fills == s.fills && e.left == s.left && e.rest == Erase(s.rest) && e.dropped == Erase(s.dropped)
  {
    if q == [] || left == 0 || !Crosses(t.side, q[0].price, t.price) {
    } else {
      EraseParts(q);
      if q[0].maker == t.maker {
        SweepErased(q[1..], t, left);
        EraseParts([q[0]] + Sweep(q[1..], t, left).dropped);
      } else {
        var amount := Min(left, q[0].Remaining());
        if amount == q[0].Remaining() {
          SweepErased(q[1..], t, left - amount);
        } else {
          var partly: RestingOrder := q[0].(filled := q[0].filled + amount);
          EraseParts([partly] + q[1..]);
        }
      }
    }
  }

  lemma {:induction false} PlaceAlike(b: Book, c: Book, t: Incoming, rule: Rule)
    requires Same(b, c)
    ensures
      var p, r := Place(b, t, rule), Place(c, t, rule);
      && Same(p.book, r.book) && p.fills == r.fills && p.fullyFilled == r.fullyFilled
      && p.resting.Some? == r.resting.Some?
      && (p.resting.Some? ==> Unstamped(p.resting.value) == Unstamped(r.resting.value))
      && Erase(p.dropped) == Erase(r.dropped)
  {
    SweepErased(Against(b, t.side), t, t.amount);
    SweepErased(Against(c, t.side), t, t.amount);
    var p, r := Place(b, t, rule), Place(c, t, rule);
    if p.resting.Some? {
      InsertErased(t.side, SideOf(b, t.side), p.resting.value);
      InsertErased(t.side, SideOf(c, t.side), r.resting.value);
    }
  }

  lemma {:induction false} RemoveAlike(q: Queue, o: RestingOrder, q': Queue, r: Queue) returns (o2: RestingOrder,
                                       r': Queue)
    requires RemovesFirst(q, o, q') && Erase(q) == Erase(r)
    ensures RemovesFirst(r, o2, r') && Erase(q') == Erase(r') && Unstamped(o) == Unstamped(o2)
  {
    var i :| 0 <= i < |q| && q[i] == o && q' == q[..i] + q[i + 1..] && ScannedFirst(q, i);
    assert |q| == |Erase(q)| == |Erase(r)| == |r|;
    forall k | 0 <= k < |q| ensures Unstamped(q[k]) == Unstamped(r[k]) {
      assert Erase(q)[k] == Erase(r)[k];
    }
    o2, r' := r[i], r[..i] + r[i + 1..];
    ErasedWithout(q, i);
    ErasedWithout(r, i);
    assert ScannedFirst(r, i);
  }

  lemma {:induction false} ErasedWithout(q: Queue, i: nat)
    requires i < |q|
    ensures Erase(q[..i] + q[i + 1..]) == Erase(q)[..i] + Erase(q)[i + 1..]
  {}

  lemma {:induction false} ContainsErased(q: Queue, r: Queue, orderId: nat)
    requires Erase(q) == Erase(r)
    ensures Contains(q, orderId) ==> Contains(r, orderId)
  {
    assert |q| == |Erase(q)| == |Erase(r)| == |r|;
    if i :| 0 <= i < |q| && q[i].orderId == orderId {
      assert Erase(q)[i] == Erase(r)[i];
    }
  }

  lemma {:induction false} CancelAlike(b: Book, c: Book, orderId: nat, removed: Queue,
                                       b': Book) returns (removed2: Queue, c': Book)
    requires Same(b, c) && Cancelled(b, orderId, removed, b')
    ensures Cancelled(c, orderId, removed2, c') && Same(b', c') && Erase(removed) == Erase(removed2)
  {
    ContainsErased(b.bids, c.bids, orderId);
    ContainsErased(c.bids, b.bids, orderId);
    ContainsErased(c.asks, b.asks, orderId);
    if removed == [] {
      removed2, c' := [], c;
    } else {
      var o2, r';
      if Contains(b.bids, orderId) {
        o2, r' := RemoveAlike(b.bids, removed[0], b'.bids, c.bids);
        c' := c.(bids := r');
      } else {
        o2, r' := RemoveAlike(b.asks, removed[0], b'.asks, c.asks);
        c' := c.(asks := r');
      }
      removed2 := [o2];
      assert o2.orderId == Unstamped(o2).orderId == Unstamped(removed[0]).orderId;
    }
  }

  lemma {:induction false} OthersErased(q: Queue, maker: Address)
    ensures Erase(Others(q, maker)) == Others(Erase(q), maker)
    ensures Erase(Own(q, maker)) == Own(Erase(q), maker)
  {
    if q == [] {
    } else {
      OthersErased(q[1..], maker);
      EraseParts(q);
      if q[0].maker == maker {
        EraseParts([q[0]] + Own(q[1..], maker));
      } else {
        EraseParts([q[0]] + Others(q[1..], maker));
      }
    }
  }

  lemma {:induction false} CancelAllAlike(b: Book, c: Book, maker: Address)
    requires Same(b, c)
    ensures Same(AllCancelled(b, maker), AllCancelled(c, maker))
    ensures Erase(Own(b.bids, maker) + Own(b.asks, maker)) == Erase(Own(c.bids, maker) + Own(c.asks, maker))
  {
    OthersErased(b.bids, maker);
    OthersErased(b.asks, maker);
    OthersErased(c.bids, maker);
    OthersErased(c.asks, maker);
    forall x: Queue, y: Queue ensures Erase(x + y) == Erase(x) + Erase(y) {}
  }

  /** Position by position the same book; a book that has emptied is as good as none. */
  ghost predicate SameBooks(bs: Books, cs: Books) {
    forall p: nat :: Same(BookAt(bs, p), BookAt(cs, p))
  }

  /** The same fills, the same flag, the same orders rested and removed, up to sequence numbers. */
  ghost predicate SameOut(o: Out, q: Out) {
    && o.result.Some? == q.result.Some?
    && (o.result.Some? ==>
          var r, s := o.result.value, q.result.value;
          && r.marketId == s.marketId && r.fills == s.fills && r.fullyFilled == s.fullyFilled
          && r.resting.Some? == s.resting.Some?
          && (r.resting.Some? ==> Unstamped(r.resting.value) == Unstamped(s.resting.value)))
    && Erase(o.removed) == Erase(q.removed)
  }

  /** A cancellation where one side may have no book at the position. */
  lemma {:induction false} CancelStepAlike(bs: Books, cs: Books, p: nat, orderId: nat, out: Out, bs': Books, rule: Rule)
    returns (out2: Out, cs': Books)
    requires SameBooks(bs, cs) && Next(rule, bs, CancelOrder(p, orderId), out, bs')
    ensures Next(rule, cs, CancelOrder(p, orderId), out2, cs') && SameBooks(bs', cs') && SameOut(out, out2)
  {
    var b, c := BookAt(bs, p), BookAt(cs, p);
    assert Same(b, c);
    assert Cancelled(b, orderId, out.removed, BookAt(bs', p));
    var removed, c' := CancelAlike(b, c, orderId, out.removed, BookAt(bs', p));
    out2 := Out(None, removed);
    cs' := if p in cs then cs[p := c'] else cs;
    assert BookAt(cs', p) == c';
    forall k: nat ensures Same(BookAt(bs', k), BookAt(cs', k)) {
      assert Same(BookAt(bs, k), BookAt(cs, k));
    }
  }

  lemma {:induction false} StepAlike(rule: Rule, bs: Books, cs: Books, cmd: Command, out: Out,
                                     bs': Books) returns (out2: Out, cs': Books)
    requires SameBooks(bs, cs) && Next(rule, bs, cmd, out, bs')
    ensures Next(rule, cs, cmd, out2, cs') && SameBooks(bs', cs') && SameOut(out, out2)
  {
    match cmd
    case PlaceOrder(marketId, p, order) =>
      assert Same(BookAt(bs, p), BookAt(cs, p));
      PlaceAlike(BookAt(bs, p), BookAt(cs, p), order, rule);
      var r := Place(BookAt(cs, p), order, rule);
      out2 := Out(Some(MatchResult(marketId, r.fills, r.resting, r.fullyFilled)), r.dropped);
      cs' := cs[p := r.book];
      OnePositionAlike(bs, cs, p, bs', cs');
    case CancelOrder(p, orderId) =>
      out2, cs' := CancelStepAlike(bs, cs, p, orderId, out, bs', rule);
    case CancelAll(p, maker) =>
      var b, c := BookAt(bs, p), BookAt(cs, p);
      assert Same(b, c);
      CancelAllAlike(b, c, maker);
      out2 := Out(None, Own(c.bids, maker) + Own(c.asks, maker));
      cs' := if p in cs then cs[p := AllCancelled(c, maker)] else cs;
      OnePositionAlike(bs, cs, p, bs', cs');
    case Shutdown =>
      out2, cs' := Out(None, []), cs;
  }

  lemma {:induction false} OnePositionAlike(bs: Books, cs: Books, p: nat, bs': Books, cs': Books)
    requires SameBooks(bs, cs) && Same(BookAt(bs', p), BookAt(cs', p))
    requires forall k: nat | k != p :: BookAt(bs', k) == BookAt(bs, k)
    requires forall k: nat | k != p :: BookAt(cs', k) == BookAt(cs, k)
    ensures SameBooks(bs', cs')
  {
    forall k: nat ensures Same(BookAt(bs', k), BookAt(cs', k)) {
      assert Same(BookAt(bs, k), BookAt(cs, k));
    }
  }

  /**
   From books that agree up to sequence numbers, every run of the one can be
   matched by a run of the other that yields the same results command by command.
   */
  lemma {:induction false} RunsAlike(rule: Rule, states: seq<Books>, cmds: seq<Command>, outs: seq<Out>, start: Books)
    returns (states2: seq<Books>, outs2: seq<Out>)
    requires IsRun(rule, states, cmds, outs) && SameBooks(states[0], start)
    ensures IsRun(rule, states2, cmds, outs2) && states2[0] == start
    ensures forall i | 0 <= i < |states| :: SameBooks(states[i], states2[i])
    ensures forall i | 0 <= i < |outs| :: SameOut(outs[i], outs2[i])
  {
    if cmds == [] {
      states2, outs2 := [start], [];
    } else {
      var n := |cmds| - 1;
      assert IsRun(rule, states[..n + 1], cmds[..n], outs[..n]);
      states2, outs2 := RunsAlike(rule, states[..n + 1], cmds[..n], outs[..n], start);
      assert SameBooks(states[..n + 1][n], states2[n]);
      var out, cs := StepAlike(rule, states[n], states2[n], cmds[n], outs[n], states[n + 1]);
      var states1, outs1 := states2, outs2;
      states2, outs2 := states2 + [cs], outs2 + [out];
      forall i | 0 <= i < |cmds| ensures Next(rule, states2[i], cmds[i], outs2[i], states2[i + 1]) {
        if i < n {
          assert Next(rule, states1[i], cmds[..n][i], outs1[i], states1[i + 1]);
        }
      }
      forall i | 0 <= i < |states| ensures SameBooks(states[i], states2[i]) {
        if i <= n {
          assert SameBooks(states[..n + 1][i], states1[i]);
        }
      }
    }
  }
}
