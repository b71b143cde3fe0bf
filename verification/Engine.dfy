/** The matcher thread: it owns one book per position and handles one command after another. */
module Engine {
  import opened Chain
  import opened Matching
  import opened OrderBook

  datatype Command =
    | PlaceOrder(marketId: nat, positionId: nat, order: Incoming)
    | CancelOrder(positionId: nat, orderId: nat)
    | CancelAll(positionId: nat, maker: Address)
    | Shutdown

  datatype MatchResult = MatchResult(marketId: nat, fills: seq<Fill>, resting: Option<RestingOrder>, fullyFilled: bool)

  /**
   What a newly resting order records as already filled.  The code records the amount less the sum
   of the fills; recording the sum of the fills is what the field means everywhere else.
   */
  datatype Rule = AsWritten | SumOfFills

  function RecordedFilled(rule: Rule, amount: nat, matched: nat): nat
    requires matched <= amount
  {
    if rule == AsWritten then amount - matched else matched
  }

  /** The list an incoming order is matched against. */
  function Against(b: Book, side: Side): Queue {
    if side == Buy then b.asks else b.bids
  }

  function WithAgainst(b: Book, side: Side, q: Queue): Book {
    if side == Buy then b.(asks := q) else b.(bids := q)
  }

  datatype Placed = Placed(book: Book, fills: seq<Fill>, resting: Option<RestingOrder>, fullyFilled: bool,
      dropped: Queue)

  /** Placing an order: sweep the other side, then rest what is left. */
  function Place(b: Book, t: Incoming, rule: Rule): Placed {
    var s := Sweep(Against(b, t.side), t, t.amount);
    var swept := WithAgainst(b, t.side, s.rest);
    if s.left == 0 then Placed(swept, s.fills, None, true, s.dropped)
    else
      SweepConserves(Against(b, t.side), t, t.amount);
      var o := Order(t.orderId, t.maker, t.price, t.amount, RecordedFilled(rule, t.amount, SumAmounts(s.fills)),
                     t.side, 0, t.nonce, t.deadline);
      Placed(Rest(swept, o), s.fills, Some(o.(seqNo := b.nextSeq)), false, s.dropped)
  }

  lemma {:induction false} PlaceFills(b: Book, t: Incoming)
    requires Sweep(Against(b, t.side), t, t.amount).left == 0
    ensures
      var s := Sweep(Against(b, t.side), t, t.amount);
      Place(b, t, AsWritten) == Placed(WithAgainst(b, t.side, s.rest), s.fills, None, true, s.dropped)
  {}

  lemma {:induction false} PlaceRests(b: Book, t: Incoming, o: RestingOrder)
    requires Sweep(Against(b, t.side), t, t.amount).left > 0
    requires SumAmounts(Sweep(Against(b, t.side), t, t.amount).fills) <= t.amount
    requires o == Order(t.orderId, t.maker, t.price, t.amount,
                        t.amount - SumAmounts(Sweep(Against(b, t.side), t, t.amount).fills),
                        t.side, 0, t.nonce, t.deadline)
    ensures
      var s := Sweep(Against(b, t.side), t, t.amount);
      Place(b, t, AsWritten) == Placed(Rest(WithAgainst(b, t.side, s.rest), o), s.fills,
          Some(o.(seqNo := b.nextSeq)), false, s.dropped)
  {}

  type Books = map<nat, Book>

  function BookAt(bs: Books, positionId: nat): Book {
    if positionId in bs then bs[positionId] else EMPTY_BOOK
  }

  /** What one command yields: the result sent on, and the orders it removed without filling them. */
  datatype Out = Out(result: Option<MatchResult>, removed: Queue)

  ghost predicate Next(rule: Rule, bs: Books, cmd: Command, out: Out, bs': Books) {
    match cmd
    case PlaceOrder(marketId, positionId, order) =>
      var p := Place(BookAt(bs, positionId), order, rule);
      && bs' == bs[positionId := p.book]
      && out == Out(Some(MatchResult(marketId, p.fills, p.resting, p.fullyFilled)), p.dropped)
    case CancelOrder(positionId, orderId) =>
      && out.result == None
      && (if positionId in bs
          then bs' == bs[positionId := BookAt(bs', positionId)]
               && Cancelled(bs[positionId], orderId, out.removed, BookAt(bs', positionId))
          else bs' == bs && out.removed == [])
    case CancelAll(positionId, maker) =>
      && bs' == (if positionId in bs then bs[positionId := AllCancelled(bs[positionId], maker)] else bs)
      && out == Out(None, Own(BookAt(bs, positionId).bids, maker) + Own(BookAt(bs, positionId).asks, maker))
    case Shutdown => bs' == bs && out == Out(None, [])
  }

  lemma {:induction false} PlaceNext(bs: Books, marketId: nat, positionId: nat, order: Incoming, out: Out, bs': Books)
    requires
      var p := Place(BookAt(bs, positionId), order, AsWritten);
      && bs' == bs[positionId := BookAt(bs, positionId)][positionId := p.book]
      && out == Out(Some(MatchResult(marketId, p.fills, p.resting, p.fullyFilled)), p.dropped)
    ensures Next(AsWritten, bs, PlaceOrder(marketId, positionId, order), out, bs')
  {
    var p := Place(BookAt(bs, positionId), order, AsWritten);
    assert bs[positionId := BookAt(bs, positionId)][positionId := p.book] == bs[positionId := p.book];
  }

  lemma {:induction false} CancelAllNext(bs: Books, positionId: nat, maker: Address, removed: Queue, bs': Books)
    requires positionId in bs && bs' == bs[positionId := AllCancelled(bs[positionId], maker)]
    requires removed == Own(bs[positionId].bids, maker) + Own(bs[positionId].asks, maker)
    ensures Next(AsWritten, bs, Command.CancelAll(positionId, maker), Out(None, removed), bs')
  {}

  /** A run of the matcher: `states[i + 1]` and `outs[i]` are what command `i` makes of `states[i]`. */
  ghost predicate IsRun(rule: Rule, states: seq<Books>, cmds: seq<Command>, outs: seq<Out>) {
    && |states| == |cmds| + 1 == |outs| + 1
    && forall i | 0 <= i < |cmds| :: Next(rule, states[i], cmds[i], outs[i], states[i + 1])
  }

  /** The first `i` commands have been handled, none of them a shutdown. */
  ghost predicate Handled(cmds: seq<Command>, i: nat, states: seq<Books>, outs: seq<Out>, first: Books, last: Books) {
    && i <= |cmds| && |outs| == i && |states| == i + 1
    && IsRun(AsWritten, states, cmds[..i], outs)
    && states[0] == first && states[i] == last
    && Shutdown !in cmds[..i]
  }

  /** All results but the last. */
  ghost predicate Unsent(results: seq<MatchResult>, outs: seq<Out>) {
    |Results(outs)| == |results| + 1 && results == Results(outs)[..|results|]
  }

  /** The results of a run, in order. */
  ghost function Results(outs: seq<Out>): seq<MatchResult> {
    if outs == [] then []
    else
      var last := outs[|outs| - 1].result;
      if last.Some? then Results(outs[..|outs| - 1]) + [last.value] else Results(outs[..|outs| - 1])
  }

  lemma {:induction false} HandledGrows(cmds: seq<Command>, i: nat, states: seq<Books>, outs: seq<Out>, out: Out,
                                        last: Books)
    requires i < |cmds| && cmds[i] != Shutdown && states != []
    requires Handled(cmds, i, states, outs, states[0], states[|states| - 1])
    requires Next(AsWritten, states[i], cmds[i], out, last)
    ensures Handled(cmds, i + 1, states + [last], outs + [out], states[0], last)
    ensures Results(outs + [out]) == if out.result.Some? then Results(outs) + [out.result.value] else Results(outs)
  {
    var cs := cmds[..i + 1];
    assert (outs + [out])[..i] == outs;
    forall j | 0 <= j < |cs|
      ensures Next(AsWritten, (states + [last])[j], cs[j], (outs + [out])[j], (states + [last])[j + 1])
    {
      if j < i {
        assert Next(AsWritten, states[j], cmds[..i][j], outs[j], states[j + 1]);
      }
    }
  }

  class Matcher {
    var books: map<nat, OrderBook>
    ghost var view: Books  // the abstract state of every book

    /** Every position has a book of its own, well formed, pruned and shown in `view`. */
    ghost predicate Valid()
      reads this, books.Values
    {
      && view.Keys == books.Keys
      && (forall p | p in books :: books[p].Valid() && books[p].Pruned() && books[p].State() == view[p])
      && forall p, q | p in books && q in books && p != q :: books[p] != books[q]
    }

    constructor (initial: map<nat, OrderBook>)
      requires forall p | p in initial :: initial[p].Valid() && initial[p].Pruned()
      requires forall p, q | p in initial && q in initial && p != q :: initial[p] != initial[q]
      ensures Valid() && books == initial
      ensures view == map p | p in initial :: initial[p].State()
    {
      books := initial;
      view := map p | p in initial :: initial[p].State();
    }

    /** A change confined to one book and shown in `view` keeps the invariant. */
    twostate lemma OneBookChanged(positionId: nat)
      requires old(Valid()) && books == old(books) && positionId in books
      requires view == old(view)[positionId := books[positionId].State()]
      requires forall p | p in books && p != positionId :: unchanged(books[p])
      requires books[positionId].Valid() && books[positionId].Pruned()
      ensures Valid()
    {
      forall p | p in books && p != positionId
        ensures books[p].Valid() && books[p].Pruned() && books[p].State() == view[p]
      {
        assert old(books[p].Valid() && books[p].Pruned() && books[p].State() == view[p]);
      }
    }

    /** The book of a position, created empty when there is none. */
    method EntryOrDefault(positionId: nat) returns (book: OrderBook)
      requires Valid()
      modifies this
      ensures Valid() && positionId in books && book == books[positionId]
      ensures forall b | b in books.Values :: b in old(books.Values) || fresh(b)
      ensures books == old(books)[positionId := book]
      ensures view == old(view)[positionId := BookAt(old(view), positionId)]
    {
      if positionId in books {
        book := books[positionId];
        assert books == books[positionId := book] && view == view[positionId := view[positionId]];
      } else {
        book := new OrderBook();
        books := books[positionId := book];
        view := view[positionId := EMPTY_BOOK];
      }
    }

    /** One turn of the receive loop. */
    method Handle(cmd: Command) returns (result: Option<MatchResult>, ghost removed: Queue)
      requires Valid()
      modifies this, books.Values
      ensures Valid()
      ensures forall b | b in books.Values :: b in old(books.Values) || fresh(b)
      ensures Next(AsWritten, old(view), cmd, Out(result, removed), view)
    {
      result, removed := None, [];
      match cmd {
        case Shutdown =>
        case PlaceOrder(marketId, positionId, order) =>
          result, removed := HandlePlace(marketId, positionId, order);
        case CancelOrder(positionId, orderId) =>
          removed := HandleCancel(positionId, orderId);
        case CancelAll(positionId, maker) =>
          removed := HandleCancelAll(positionId, maker);
      }
    }

    method HandleCancel(positionId: nat, orderId: nat) returns (ghost removed: Queue)
      requires Valid()
      modifies this`view, books.Values
      ensures Valid()
      ensures Next(AsWritten, old(view), CancelOrder(positionId, orderId), Out(None, removed), view)
    {
      removed := [];
      if positionId in books {
        var book := books[positionId];
        var found;
        found, removed := book.Cancel(orderId);
        book.Prune();
        view := view[positionId := book.State()];
        OneBookChanged(positionId);
      }
    }

    method HandleCancelAll(positionId: nat, maker: Address) returns (ghost removed: Queue)
      requires Valid()
      modifies this`view, books.Values
      ensures Valid()
      ensures Next(AsWritten, old(view), Command.CancelAll(positionId, maker), Out(None, removed), view)
    {
      removed := [];
      if positionId in books {
        var book := books[positionId];
        ghost var b := book.State();
        removed := Own(b.bids, maker) + Own(b.asks, maker);
        var ids := book.CancelAll(maker);
        book.Prune();
        assert view[positionId] == b && book.State() == AllCancelled(b, maker);
        ghost var bs := view;
        view := view[positionId := book.State()];
        OneBookChanged(positionId);
        CancelAllNext(bs, positionId, maker, removed, view);
      }
    }

    method HandlePlace(marketId: nat, positionId: nat, order: Incoming) returns (result: Option<MatchResult>,
                       ghost removed: Queue)
      requires Valid()
      modifies this, books.Values
      ensures Valid()
      ensures forall b | b in books.Values :: b in old(books.Values) || fresh(b)
      ensures Next(AsWritten, old(view), PlaceOrder(marketId, positionId, order), Out(result, removed), view)
    {
      ghost var bs := view;
      var book := EntryOrDefault(positionId);
      result, removed := PlaceAt(marketId, positionId, order);
      PlaceNext(bs, marketId, positionId, order, Out(result, removed), view);
    }

    /** Placing an order on a book that is there. */
    method PlaceAt(marketId: nat, positionId: nat, order: Incoming) returns (result: Option<MatchResult>,
                   ghost removed: Queue)
      requires Valid() && positionId in books
      modifies this`view, books.Values
      ensures Valid()
      ensures
        var p := Place(old(view)[positionId], order, AsWritten);
        && view == old(view)[positionId := p.book]
        && result == Some(MatchResult(marketId, p.fills, p.resting, p.fullyFilled)) && removed == p.dropped
    {
      var book := books[positionId];
      removed := Sweep(Against(book.State(), order.side), order, order.amount).dropped;
      var fills, resting, fullyFilled := PlaceIn(book, order);
      view := view[positionId := book.State()];
      OneBookChanged(positionId);
      result := Some(MatchResult(marketId, fills, resting, fullyFilled));
    }

    /** Matching, resting and pruning on the one book concerned. */
    static method PlaceIn(book: OrderBook, order: Incoming)
      returns (fills: seq<Fill>, resting: Option<RestingOrder>, fullyFilled: bool)
      requires book.Valid()
      modifies book
      ensures book.Valid() && book.Pruned()
      ensures
        var p := Place(old(book.State()), order, AsWritten);
        book.State() == p.book && fills == p.fills && resting == p.resting && fullyFilled == p.fullyFilled
    {
      ghost var b := book.State();
      ghost var s := Sweep(Against(b, order.side), order, order.amount);
      SweepConserves(Against(b, order.side), order, order.amount);
      match order.side {
        case Buy => fills, fullyFilled := book.MatchBuy(order);
        case Sell => fills, fullyFilled := book.MatchSell(order);
      }
      ghost var swept := book.State();
      assert swept == WithAgainst(b, order.side, s.rest) && fills == s.fills && fullyFilled == (s.left == 0);
      resting := None;
      if fullyFilled {
        book.Prune();
        PlaceFills(b, order);
      } else {
        ghost var o;
        resting, o := RestIn(book, order, fills);
        book.Prune();
        PlaceRests(b, order, o);
      }
    }

    /** Puts what is left of an order on the book; what it records as filled is the amount less the fills. */
    static method RestIn(book: OrderBook, order: Incoming, fills: seq<Fill>) returns (resting: Option<RestingOrder>,
                         ghost o: RestingOrder)
      requires book.Valid() && SumAmounts(fills) <= order.amount
      modifies book
      ensures book.Valid()
      ensures o == Order(order.orderId, order.maker, order.price, order.amount, order.amount - SumAmounts(fills),
                         order.side, 0, order.nonce, order.deadline)
      ensures book.State() == Rest(old(book.State()), o)
      ensures resting == Some(o.(seqNo := old(book.State()).nextSeq))
    {
      var matched := SumOf(fills);
      var unstamped := Order(order.orderId, order.maker, order.price, order.amount, order.amount - matched,
                             order.side, 0, order.nonce, order.deadline);
      o := unstamped;
      var restingOrder := book.Insert(unstamped);
      resting := Some(restingOrder);
    }

    /** `fills.iter().map(|f| f.amount).sum()`. */
    static method SumOf(fills: seq<Fill>) returns (sum: nat)
      ensures sum == SumAmounts(fills)
    {
      sum := 0;
      for i := 0 to |fills|
        invariant sum + SumAmounts(fills[i..]) == SumAmounts(fills)
      {
        assert fills[i..][1..] == fills[i + 1..];
        sum := sum + fills[i].amount;
      }
    }

    /**
     The receive loop: commands are handled in order until a shutdown, the end of the channel, or the
     first result that can no longer be sent (`accepted` results are).
     */
    method Run(cmds: seq<Command>, accepted: nat) returns (results: seq<MatchResult>, ghost states: seq<Books>,
               ghost outs: seq<Out>)
      requires Valid()
      modifies this, books.Values
      ensures Valid()
      ensures |outs| <= |cmds| && IsRun(AsWritten, states, cmds[..|outs|], outs)
      ensures states[0] == old(view) && states[|outs|] == view
      ensures Shutdown !in cmds[..|outs|]
      ensures results == Results(outs) || (|results| == accepted && Unsent(results, outs))
      ensures |outs| < |cmds| ==> cmds[|outs|] == Shutdown || Unsent(results, outs)
    {
      results, states, outs := [], [view], [];
      var i, open := 0, true;
      while open && i < |cmds| && cmds[i] != Shutdown
        invariant Valid() && Handled(cmds, i, states, outs, old(view), view)
        invariant forall b | b in books.Values :: b in old(books.Values) || fresh(b)
        invariant |results| <= accepted
        invariant if open then results == Results(outs) else |results| == accepted && Unsent(results, outs)
        decreases |cmds| - i
      {
        ghost var removed;
        var result;
        result, removed := Handle(cmds[i]);
        HandledGrows(cmds, i, states, outs, Out(result, removed), view);
        states, outs := states + [view], outs + [Out(result, removed)];
        i := i + 1;
        if result.Some? {
          if |results| == accepted {
            open := false;
          } else {
            results := results + [result.value];
          }
        }
      }
    }
  }
}
