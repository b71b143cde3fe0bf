/**
 The order book as it is stored: per side, price levels in ascending price order, each a FIFO queue.
 Its methods are proved against the flat lists of module Matching.
 */
module OrderBook {
  import opened Chain
  import opened Matching

  /** One entry of the ordered map from price to queue. */
  datatype Level = Level(price: nat, queue: Queue)

  /** A book, abstractly: both sides best first, and the next sequence number. */
  datatype Book = Book(bids: Queue, asks: Queue, nextSeq: nat)

  const EMPTY_BOOK := Book([], [], 0)

  // ---- Levels as flat lists ----

  function FlattenUp(levels: seq<Level>): Queue {
    if levels == [] then [] else levels[0].queue + FlattenUp(levels[1..])
  }

  function FlattenDown(levels: seq<Level>): Queue {
    if levels == [] then []
    else levels[|levels| - 1].queue + FlattenDown(levels[..|levels| - 1])
  }

  /** The representation invariant of one side: ascending prices, and every order on its own level. */
  ghost predicate LevelsOk(levels: seq<Level>) {
    && (forall i, j | 0 <= i < j < |levels| :: levels[i].price < levels[j].price)
    && (forall i, k | 0 <= i < |levels| && 0 <= k < |levels[i].queue| :: levels[i].queue[k].price == levels[i].price)
  }

  predicate NoEmptyLevel(levels: seq<Level>) {
    forall i | 0 <= i < |levels| :: levels[i].queue != []
  }

  /** The map operation `entry(price).or_default().push_back(order)`. */
  function PushBack(levels: seq<Level>, o: RestingOrder): seq<Level> {
    if levels == [] || o.price < levels[0].price then [Level(o.price, [o])] + levels
    else if o.price == levels[0].price then [Level(o.price, levels[0].queue + [o])] + levels[1..]
    else [levels[0]] + PushBack(levels[1..], o)
  }

  ghost predicate AllPriced(queue: Queue, price: nat) {
    forall k | 0 <= k < |queue| :: queue[k].price == price
  }

  /** The map operation `retain(|_, v| !v.is_empty())`. */
  function RetainNonEmpty(levels: seq<Level>): seq<Level> {
    if levels == [] then []
    else if levels[0].queue == [] then RetainNonEmpty(levels[1..])
    else [levels[0]] + RetainNonEmpty(levels[1..])
  }

  // ---- Facts about levels ----

  lemma {:induction false} FlattenUpConcat(a: seq<Level>, b: seq<Level>)
    ensures FlattenUp(a + b) == FlattenUp(a) + FlattenUp(b)
  {
    if a == [] {
      assert a + b == b;
    } else {
      assert (a + b)[1..] == a[1..] + b;
      FlattenUpConcat(a[1..], b);
    }
  }

  lemma {:induction false} FlattenDownConcat(a: seq<Level>, b: seq<Level>)
    ensures FlattenDown(a + b) == FlattenDown(b) + FlattenDown(a)
  {
    if b == [] {
      assert a + b == a;
    } else {
      assert (a + b)[..|a + b| - 1] == a + b[..|b| - 1];
      FlattenDownConcat(a, b[..|b| - 1]);
    }
  }

  /** Replacing the queue of one level replaces that stretch of either flat list. */
  lemma {:induction false} FlattenAround(levels: seq<Level>, i: nat, queue: Queue)
    requires i < |levels|
    ensures
      var levels' := levels[i := Level(levels[i].price, queue)];
      && FlattenUp(levels) == FlattenUp(levels[..i]) + levels[i].queue + FlattenUp(levels[i + 1..])
      && FlattenUp(levels') == FlattenUp(levels[..i]) + queue + FlattenUp(levels[i + 1..])
      && FlattenDown(levels) == FlattenDown(levels[i + 1..]) + levels[i].queue + FlattenDown(levels[..i])
      && FlattenDown(levels') == FlattenDown(levels[i + 1..]) + queue + FlattenDown(levels[..i])
  {
    var before, after := levels[..i], levels[i + 1..];
    assert levels == before + ([levels[i]] + after);
    assert levels[i := Level(levels[i].price, queue)] == before + ([Level(levels[i].price, queue)] + after);
    FlattenParts(before, levels[i], after);
    FlattenParts(before, Level(levels[i].price, queue), after);
  }

  lemma {:induction false} FlattenParts(before: seq<Level>, l: Level, after: seq<Level>)
    ensures FlattenUp(before + ([l] + after)) == FlattenUp(before) + l.queue + FlattenUp(after)
    ensures FlattenDown(before + ([l] + after)) == FlattenDown(after) + l.queue + FlattenDown(before)
  {
    OneLevel(l);
    assert FlattenUp(before + ([l] + after)) == FlattenUp(before) + l.queue + FlattenUp(after) by {
      FlattenUpConcat(before, [l] + after);
      FlattenUpConcat([l], after);
      ConcatAssociates(FlattenUp(before), l.queue, FlattenUp(after));
    }
    assert FlattenDown(before + ([l] + after)) == FlattenDown(after) + l.queue + FlattenDown(before) by {
      FlattenDownConcat(before, [l] + after);
      FlattenDownConcat([l], after);
    }
  }

  lemma {:induction false} ConcatAssociates(a: Queue, b: Queue, c: Queue)
    ensures a + (b + c) == a + b + c
  {}

  lemma {:induction false} OneLevel(l: Level)
    ensures FlattenUp([l]) == l.queue == FlattenDown([l])
  {
    assert [l][1..] == [] && [l][..0] == [];
  }

  lemma {:induction false} SameOrders(levels: seq<Level>)
    ensures multiset(FlattenUp(levels)) == multiset(FlattenDown(levels))
  {
    if levels == [] {
    } else {
      SameOrders(levels[1..]);
      assert levels == [levels[0]] + levels[1..];
      FlattenDownConcat([levels[0]], levels[1..]);
      OneLevel(levels[0]);
    }
  }

  lemma {:induction false} TailOk(levels: seq<Level>)
    requires LevelsOk(levels) && levels != []
    ensures LevelsOk(levels[1..])
    ensures forall l | l in levels[1..] :: levels[0].price < l.price
  {}

  lemma {:induction false} FlatPricesUp(levels: seq<Level>, i: nat)
    requires LevelsOk(levels) && i < |FlattenUp(levels)|
    ensures levels != [] && FlattenUp(levels)[i].price >= levels[0].price
  {
    if i >= |levels[0].queue| {
      TailOk(levels);
      FlatPricesUp(levels[1..], i - |levels[0].queue|);
      assert levels[1] in levels[1..];
    }
  }

  lemma {:induction false} FlatPricesDown(levels: seq<Level>, i: nat)
    requires LevelsOk(levels) && i < |FlattenDown(levels)|
    ensures levels != [] && FlattenDown(levels)[i].price >= levels[0].price
  {
    var n := |levels| - 1;
    if i >= |levels[n].queue| {
      FlatPricesDown(levels[..n], i - |levels[n].queue|);
    }
  }

  /** All flattened orders are priced no lower than the lowest level. */
  lemma {:induction false} FlatPrices(levels: seq<Level>, i: nat)
    requires LevelsOk(levels)
    ensures i < |FlattenUp(levels)| ==> levels != [] && FlattenUp(levels)[i].price >= levels[0].price
    ensures i < |FlattenDown(levels)| ==> levels != [] && FlattenDown(levels)[i].price >= levels[0].price
  {
    if i < |FlattenUp(levels)| {
      FlatPricesUp(levels, i);
    }
    if i < |FlattenDown(levels)| {
      FlatPricesDown(levels, i);
    }
  }

  lemma {:induction false} HighestFirst(levels: seq<Level>)
    requires LevelsOk(levels)
    ensures FlattenDown(levels) != [] ==> FlattenDown(levels)[0].price <= levels[|levels| - 1].price
  {
    if levels != [] && levels[|levels| - 1].queue == [] {
      HighestFirst(levels[..|levels| - 1]);
    }
  }

  /** Inserting behind a stretch that is all priced at least as well goes into what follows it. */
  lemma {:induction false} InsertBehind(side: Side, a: Queue, b: Queue, o: RestingOrder)
    requires forall i | 0 <= i < |a| :: !Better(side, o.price, a[i].price)
    ensures Insert(side, a + b, o) == a + Insert(side, b, o)
  {
    if a == [] {
      assert a + b == b;
    } else {
      InsertBehind(side, a[1..], b, o);
      assert (a + b)[1..] == a[1..] + b;
      assert a == [a[0]] + a[1..];
    }
  }

  lemma {:induction false} PushOnFirst(levels: seq<Level>, o: RestingOrder)
    requires LevelsOk(levels) && levels != [] && o.price == levels[0].price
    ensures FlattenUp(PushBack(levels, o)) == Insert(Sell, FlattenUp(levels), o)
  {
    var first, rest := levels[0], levels[1..];
    assert ([Level(o.price, first.queue + [o])] + rest)[1..] == rest;
    InsertBehind(Sell, first.queue, FlattenUp(rest), o);
    if FlattenUp(rest) != [] {
      FlatPrices(rest, 0);
    }
    assert first.queue + [o] + FlattenUp(rest) == first.queue + ([o] + FlattenUp(rest));
  }

  lemma {:induction false} PushBackUp(levels: seq<Level>, o: RestingOrder)
    requires LevelsOk(levels)
    ensures FlattenUp(PushBack(levels, o)) == Insert(Sell, FlattenUp(levels), o)
  {
    if levels == [] {
      OneLevel(Level(o.price, [o]));
    } else {
      var first, rest := levels[0], levels[1..];
      var q := FlattenUp(levels);
      if o.price < first.price {
        if q != [] {
          FlatPrices(levels, 0);
        }
        assert ([Level(o.price, [o])] + levels)[1..] == levels;
      } else if o.price == first.price {
        PushOnFirst(levels, o);
      } else {
        PushBackUp(rest, o);
        assert ([first] + PushBack(rest, o))[1..] == PushBack(rest, o);
        InsertBehind(Sell, first.queue, FlattenUp(rest), o);
      }
    }
  }

  lemma {:induction false} FlattenDownFirst(first: Level, rest: seq<Level>)
    ensures FlattenDown([first] + rest) == FlattenDown(rest) + first.queue
  {
    FlattenDownConcat([first], rest);
    OneLevel(first);
  }

  lemma {:induction false} InsertAmong(side: Side, a: Queue, b: Queue, o: RestingOrder)
    requires exists i :: 0 <= i < |a| && Better(side, o.price, a[i].price)
    ensures Insert(side, a + b, o) == Insert(side, a, o) + b
  {
    if Better(side, o.price, a[0].price) {
      assert [o] + (a + b) == [o] + a + b;
    } else {
      var i :| 0 <= i < |a| && Better(side, o.price, a[i].price);
      assert a[1..][i - 1] == a[i];
      InsertAmong(side, a[1..], b, o);
      assert (a + b)[1..] == a[1..] + b;
    }
  }

  lemma {:induction false} InsertLast(side: Side, a: Queue, o: RestingOrder)
    requires forall i | 0 <= i < |a| :: !Better(side, o.price, a[i].price)
    ensures Insert(side, a, o) == a + [o]
  {
    InsertBehind(side, a, [], o);
    assert a + [] == a;
  }

  /** Nothing on these levels is priced below `price`, so a bid at `price` goes last. */
  lemma {:induction false} BidGoesLast(levels: seq<Level>, o: RestingOrder)
    requires LevelsOk(levels) && (levels != [] ==> o.price <= levels[0].price)
    ensures Insert(Buy, FlattenDown(levels), o) == FlattenDown(levels) + [o]
  {
    var q := FlattenDown(levels);
    forall i | 0 <= i < |q| ensures !Better(Buy, o.price, q[i].price) {
      FlatPrices(levels, i);
    }
    InsertLast(Buy, q, o);
  }

  /** A bid priced above the lowest level's goes somewhere before that level. */
  lemma {:induction false} BidGoesBefore(above: Queue, lowest: Queue, o: RestingOrder)
    requires forall i | 0 <= i < |lowest| :: Better(Buy, o.price, lowest[i].price)
    ensures Insert(Buy, above + lowest, o) == Insert(Buy, above, o) + lowest
  {
    if forall i | 0 <= i < |above| :: !Better(Buy, o.price, above[i].price) {
      InsertBehind(Buy, above, lowest, o);
      InsertLast(Buy, above, o);
      assert above + ([o] + lowest) == above + [o] + lowest;
    } else {
      InsertAmong(Buy, above, lowest, o);
    }
  }

  lemma {:induction false} PushBackDown(levels: seq<Level>, o: RestingOrder)
    requires LevelsOk(levels)
    ensures FlattenDown(PushBack(levels, o)) == Insert(Buy, FlattenDown(levels), o)
  {
    if levels == [] || o.price < levels[0].price {
      BidGoesLast(levels, o);
      FlattenDownFirst(Level(o.price, [o]), levels);
    } else {
      var first, rest := levels[0], levels[1..];
      assert levels == [first] + rest;
      FlattenDownFirst(first, rest);
      if o.price == first.price {
        BidGoesLast(levels, o);
        FlattenDownFirst(Level(o.price, first.queue + [o]), rest);
        ConcatAssociates(FlattenDown(rest), first.queue, [o]);
      } else {
        PushBackDown(rest, o);
        FlattenDownFirst(first, PushBack(rest, o));
        BidGoesBefore(FlattenDown(rest), first.queue, o);
      }
    }
  }

  /** Putting a lower level in front. */
  lemma {:induction false} LevelsCons(first: Level, rest: seq<Level>)
    requires LevelsOk(rest) && (rest != [] ==> first.price < rest[0].price)
    requires forall k | 0 <= k < |first.queue| :: first.queue[k].price == first.price
    ensures LevelsOk([first] + rest)
    ensures first.queue != [] && NoEmptyLevel(rest) ==> NoEmptyLevel([first] + rest)
  {
    var levels := [first] + rest;
    forall i, j | 0 <= i < j < |levels| ensures levels[i].price < levels[j].price {
      assert rest[0].price <= rest[j - 1].price;
    }
  }

  lemma {:induction false} PushBackOk(levels: seq<Level>, o: RestingOrder)
    requires LevelsOk(levels)
    ensures LevelsOk(PushBack(levels, o)) && PushBack(levels, o) != []
    ensures PushBack(levels, o)[0].price == if levels == [] || o.price < levels[0].price then o.price
        else levels[0].price
    ensures NoEmptyLevel(levels) ==> NoEmptyLevel(PushBack(levels, o))
  {
    if levels == [] || o.price < levels[0].price {
      LevelsCons(Level(o.price, [o]), levels);
    } else if o.price == levels[0].price {
      LevelsCons(Level(o.price, levels[0].queue + [o]), levels[1..]);
    } else {
      PushBackOk(levels[1..], o);
      LevelsCons(levels[0], PushBack(levels[1..], o));
    }
  }

  lemma {:induction false} RetainKeepsOrders(levels: seq<Level>)
    ensures FlattenUp(RetainNonEmpty(levels)) == FlattenUp(levels)
    ensures FlattenDown(RetainNonEmpty(levels)) == FlattenDown(levels)
  {
    if levels == [] {
    } else {
      var first, rest := levels[0], levels[1..];
      RetainKeepsOrders(rest);
      assert levels == [first] + rest;
      FlattenDownFirst(first, rest);
      if first.queue != [] {
        FlattenDownFirst(first, RetainNonEmpty(rest));
      }
    }
  }

  lemma {:induction false} RetainedFrom(levels: seq<Level>)
    ensures NoEmptyLevel(RetainNonEmpty(levels))
    ensures forall l | l in RetainNonEmpty(levels) :: l in levels
  {
    if levels == [] {
    } else {
      RetainedFrom(levels[1..]);
    }
  }

  lemma {:induction false} RetainOk(levels: seq<Level>)
    requires LevelsOk(levels)
    ensures LevelsOk(RetainNonEmpty(levels))
  {
    if levels == [] {
    } else {
      TailOk(levels);
      RetainOk(levels[1..]);
      RetainedFrom(levels[1..]);
      var rest := RetainNonEmpty(levels[1..]);
      forall i | 0 <= i < |rest| ensures levels[0].price < rest[i].price {
        assert rest[i] in levels[1..];
      }
    }
  }

  /** Taking the lowest level off, or putting back what is left of it. */
  lemma {:induction false} LowestReplaced(levels: seq<Level>, queue: Queue)
    requires LevelsOk(levels) && levels != [] && AllPriced(queue, levels[0].price)
    ensures
      var levels' := [Level(levels[0].price, queue)] + levels[1..];
      && LevelsOk(levels[1..]) && LevelsOk(levels')
      && FlattenUp(levels') == queue + FlattenUp(levels[1..])
      && FlattenUp(levels) == levels[0].queue + FlattenUp(levels[1..])
  {
    TailOk(levels);
    assert ([Level(levels[0].price, queue)] + levels[1..])[1..] == levels[1..];
  }

  /** Taking the highest level off, or putting back what is left of it. */
  lemma {:induction false} HighestReplaced(levels: seq<Level>, queue: Queue)
    requires LevelsOk(levels) && levels != [] && AllPriced(queue, levels[|levels| - 1].price)
    ensures
      var n := |levels| - 1;
      var levels' := levels[..n] + [Level(levels[n].price, queue)];
      && LevelsOk(levels[..n]) && LevelsOk(levels')
      && FlattenDown(levels') == queue + FlattenDown(levels[..n])
      && FlattenDown(levels) == levels[n].queue + FlattenDown(levels[..n])
  {
    var n := |levels| - 1;
    assert (levels[..n] + [Level(levels[n].price, queue)])[..n] == levels[..n];
  }

  // ---- What the calls on a book come to ----

  /** A book after resting an order. */
  function Rest(b: Book, o: RestingOrder): Book {
    var stamped := o.(seqNo := b.nextSeq);
    if o.side == Buy then Book(Matching.Insert(Buy, b.bids, stamped), b.asks, b.nextSeq + 1)
    else Book(b.bids, Matching.Insert(Sell, b.asks, stamped), b.nextSeq + 1)
  }

  /**
   The order with this identifier that a scan meets first is gone, from the buys if any is there; or there
   was none.
   */
  ghost predicate Cancelled(b: Book, orderId: nat, removed: Queue, b': Book) {
    if removed == [] then
      b' == b && !Contains(b.bids, orderId) && !Contains(b.asks, orderId)
    else
      && |removed| == 1 && removed[0].orderId == orderId
      && (if Contains(b.bids, orderId)
          then b' == b.(bids := b'.bids) && RemovesFirst(b.bids, removed[0], b'.bids)
          else b' == b.(asks := b'.asks) && RemovesFirst(b.asks, removed[0], b'.asks))
  }

  /** A cancellation has one outcome, even where identifiers repeat. */
  lemma {:induction false} CancelDetermined(b: Book, orderId: nat, r1: Queue, b1: Book, r2: Queue, b2: Book)
    requires Cancelled(b, orderId, r1, b1) && Cancelled(b, orderId, r2, b2)
    ensures r1 == r2 && b1 == b2
  {
    if r1 != [] && r2 != [] {
      if Contains(b.bids, orderId) {
        FirstDetermined(b.bids, r1[0], b1.bids, r2[0], b2.bids);
      } else {
        FirstDetermined(b.asks, r1[0], b1.asks, r2[0], b2.asks);
      }
    }
  }

  lemma {:induction false} FirstDetermined(q: Queue, o1: RestingOrder, q1: Queue, o2: RestingOrder, q2: Queue)
    requires RemovesFirst(q, o1, q1) && RemovesFirst(q, o2, q2) && o1.orderId == o2.orderId
    ensures o1 == o2 && q1 == q2
  {
    var i :| 0 <= i < |q| && q[i] == o1 && q1 == q[..i] + q[i + 1..] && ScannedFirst(q, i);
    var j :| 0 <= j < |q| && q[j] == o2 && q2 == q[..j] + q[j + 1..] && ScannedFirst(q, j);
    assert i == j;
  }

  function AllCancelled(b: Book, maker: Address): Book {
    Book(Others(b.bids, maker), Others(b.asks, maker), b.nextSeq)
  }

  // ---- The book ----

  /** `s` is what remains to be done of `whole` once `fills` have been made and `dropped` removed. */
  ghost predicate Continues(whole: Swept, fills: seq<Fill>, dropped: Queue, s: Swept) {
    && whole.fills == fills + s.fills
    && whole.dropped == dropped + s.dropped
    && whole.rest == s.rest
    && whole.left == s.left
  }

  lemma {:induction false} ContinuesThen(whole: Swept, fills: seq<Fill>, dropped: Queue, s: Swept, more: seq<Fill>,
                                         d: Queue, s': Swept)
    requires Continues(whole, fills, dropped, s) && Continues(s, more, d, s')
    ensures Continues(whole, fills + more, dropped + d, s')
  {
    assert fills + (more + s'.fills) == fills + more + s'.fills;
    assert dropped + (d + s'.dropped) == dropped + d + s'.dropped;
  }

  /** One turn of the loop over the asks: the lowest level is drained, to the end or in part. */
  lemma {:induction false} LowestDrained(levels: seq<Level>, queue: Queue, t: Incoming, remaining: nat, left: nat,
                                         whole: Swept, fills: seq<Fill>, dropped: Queue, more: seq<Fill>, d: Queue)
    requires LevelsOk(levels) && levels != [] && AllPriced(queue, levels[0].price)
    requires Continues(whole, fills, dropped, Sweep(FlattenUp(levels), t, remaining))
    requires
      var behind := FlattenUp(levels[1..]);
      Continues(Sweep(levels[0].queue + behind, t, remaining), more, d, Sweep(queue + behind, t, left))
    ensures
      var levels' := if queue == [] then levels[1..] else [Level(levels[0].price, queue)] + levels[1..];
      LevelsOk(levels') && Continues(whole, fills + more, dropped + d, Sweep(FlattenUp(levels'), t, left))
  {
    var behind := FlattenUp(levels[1..]);
    ContinuesThen(whole, fills, dropped, Sweep(FlattenUp(levels), t, remaining), more, d,
        Sweep(queue + behind, t, left));
    LowestReplaced(levels, queue);
    assert [] + behind == behind;
  }

  /** One turn of the loop over the bids: the highest level is drained, to the end or in part. */
  lemma {:induction false} HighestDrained(levels: seq<Level>, queue: Queue, t: Incoming, remaining: nat, left: nat,
                                          whole: Swept, fills: seq<Fill>, dropped: Queue, more: seq<Fill>, d: Queue)
    requires LevelsOk(levels) && levels != [] && AllPriced(queue, levels[|levels| - 1].price)
    requires Continues(whole, fills, dropped, Sweep(FlattenDown(levels), t, remaining))
    requires
      var n := |levels| - 1;
      var behind := FlattenDown(levels[..n]);
      Continues(Sweep(levels[n].queue + behind, t, remaining), more, d, Sweep(queue + behind, t, left))
    ensures
      var n := |levels| - 1;
      var levels' := if queue == [] then levels[..n] else levels[..n] + [Level(levels[n].price, queue)];
      LevelsOk(levels') && Continues(whole, fills + more, dropped + d, Sweep(FlattenDown(levels'), t, left))
  {
    var n := |levels| - 1;
    var behind := FlattenDown(levels[..n]);
    ContinuesThen(whole, fills, dropped, Sweep(FlattenDown(levels), t, remaining), more, d,
        Sweep(queue + behind, t, left));
    HighestReplaced(levels, queue);
    assert [] + behind == behind;
  }

  /** One turn of the inner loop: the front order is dropped, filled to the end, or filled as far as it goes. */
  lemma {:induction false} SweepFront(queue: Queue, behind: Queue, t: Incoming, left: nat)
    requires queue != [] && left > 0 && Crosses(t.side, queue[0].price, t.price)
    ensures
      var s, f := Sweep(queue + behind, t, left), FillOf(queue[0], t, Min(left, queue[0].Remaining()));
      if queue[0].maker == t.maker then Continues(s, [], [queue[0]], Sweep(queue[1..] + behind, t, left))
      else if f.amount == queue[0].Remaining()
      then Continues(s, [f], [], Sweep(queue[1..] + behind, t, left - f.amount))
      else
        var partly := queue[0].(filled := queue[0].filled + f.amount);
        f.amount == left && Continues(s, [f], [], Sweep(queue[0 := partly] + behind, t, 0))
  {
    assert (queue + behind)[0] == queue[0] && (queue + behind)[1..] == queue[1..] + behind;
    if queue[0].maker != t.maker && left < queue[0].Remaining() {
      var partly: RestingOrder := queue[0].(filled := queue[0].filled + left);
      assert [partly] + (queue[1..] + behind) == queue[0 := partly] + behind;
    }
  }

  /** Nothing is left to do: everything is filled, or the best price no longer crosses. */
  lemma {:induction false} SweepEnds(q: Queue, t: Incoming, left: nat, whole: Swept, fills: seq<Fill>, dropped: Queue)
    requires left == 0 || q == [] || !Crosses(t.side, q[0].price, t.price)
    requires Continues(whole, fills, dropped, Sweep(q, t, left))
    ensures whole == Swept(fills, q, left, dropped)
  {}

  lemma {:induction false} AsksStop(levels: seq<Level>, t: Incoming)
    requires LevelsOk(levels) && t.side == Buy && (levels == [] || levels[0].price > t.price)
    ensures FlattenUp(levels) == [] || !Crosses(t.side, FlattenUp(levels)[0].price, t.price)
  {
    FlatPrices(levels, 0);
  }

  lemma {:induction false} BidsStop(levels: seq<Level>, t: Incoming)
    requires LevelsOk(levels) && t.side == Sell && (levels == [] || levels[|levels| - 1].price < t.price)
    ensures FlattenDown(levels) == [] || !Crosses(t.side, FlattenDown(levels)[0].price, t.price)
  {
    HighestFirst(levels);
  }

  lemma {:induction false} FlattenUpSnoc(levels: seq<Level>, i: nat)
    requires i < |levels|
    ensures FlattenUp(levels[..i + 1]) == FlattenUp(levels[..i]) + levels[i].queue
  {
    assert levels[..i + 1] == levels[..i] + [levels[i]];
    FlattenUpConcat(levels[..i], [levels[i]]);
    OneLevel(levels[i]);
  }

  lemma {:induction false} SameContents(a: Queue, b: Queue, orderId: nat)
    requires multiset(a) == multiset(b)
    ensures Contains(a, orderId) ==> Contains(b, orderId)
    ensures Contains(b, orderId) ==> Contains(a, orderId)
  {
    if i :| 0 <= i < |a| && a[i].orderId == orderId {
      assert a[i] in multiset(b);
    }
    if i :| 0 <= i < |b| && b[i].orderId == orderId {
      assert b[i] in multiset(a);
    }
  }

  /** What lies above level `i` or has no order of this identifier is scanned after level `i`. */
  lemma {:induction false} OtherLevels(levels: seq<Level>, i: nat, o: RestingOrder)
    requires LevelsOk(levels) && i < |levels| && o.price == levels[i].price
    requires !Contains(FlattenUp(levels[..i]), o.orderId)
    ensures ScannedLater(o, FlattenUp(levels[..i])) && ScannedLater(o, FlattenDown(levels[..i]))
    ensures ScannedLater(o, FlattenUp(levels[i + 1..])) && ScannedLater(o, FlattenDown(levels[i + 1..]))
  {
    SameOrders(levels[..i]);
    SameContents(FlattenUp(levels[..i]), FlattenDown(levels[..i]), o.orderId);
    var higher := levels[i + 1..];
    forall j | 0 <= j < |FlattenUp(higher)| ensures o.price < FlattenUp(higher)[j].price {
      FlatPrices(higher, j);
    }
    forall j | 0 <= j < |FlattenDown(higher)| ensures o.price < FlattenDown(higher)[j].price {
      FlatPrices(higher, j);
    }
  }

  /** Taking the first order of an identifier out of the lowest level that has one takes it out of both flat lists. */
  lemma {:induction false} TakenOut(levels: seq<Level>, i: nat, pos: nat)
    requires LevelsOk(levels) && i < |levels| && pos < |levels[i].queue|
    requires !Contains(FlattenUp(levels[..i]), levels[i].queue[pos].orderId)
    requires !Contains(levels[i].queue[..pos], levels[i].queue[pos].orderId)
    ensures
      var queue := levels[i].queue;
      var levels' := levels[i := Level(levels[i].price, queue[..pos] + queue[pos + 1..])];
      && LevelsOk(levels')
      && RemovesFirst(FlattenUp(levels), queue[pos], FlattenUp(levels'))
      && RemovesFirst(FlattenDown(levels), queue[pos], FlattenDown(levels'))
  {
    var queue := levels[i].queue;
    var rest := queue[..pos] + queue[pos + 1..];
    FlattenAround(levels, i, rest);
    OtherLevels(levels, i, queue[pos]);
    RemoveInside(FlattenUp(levels[..i]), queue, pos, FlattenUp(levels[i + 1..]));
    RemoveInside(FlattenDown(levels[i + 1..]), queue, pos, FlattenDown(levels[..i]));
    ShorterQueueOk(levels, i, rest);
  }

  lemma {:induction false} ShorterQueueOk(levels: seq<Level>, i: nat, queue: Queue)
    requires LevelsOk(levels) && i < |levels|
    requires forall k | 0 <= k < |queue| :: queue[k] in levels[i].queue
    ensures LevelsOk(levels[i := Level(levels[i].price, queue)])
  {
    var levels' := levels[i := Level(levels[i].price, queue)];
    forall j, k | 0 <= j < |levels'| && 0 <= k < |levels'[j].queue|
      ensures levels'[j].queue[k].price == levels'[j].price
    {
      if j == i {
        assert queue[k] in levels[i].queue;
      }
    }
  }

  /** The level at `i` joins the levels already filtered. */
  /** Every level stripped of the orders of `maker`. */
  function OthersLevels(levels: seq<Level>, maker: Address): seq<Level> {
    seq(|levels|, i requires 0 <= i < |levels| => Level(levels[i].price, Others(levels[i].queue, maker)))
  }

  lemma {:induction false} OthersPrices(q: Queue, maker: Address, k: nat)
    requires k < |Others(q, maker)|
    ensures Others(q, maker)[k] in q
  {
    if q[0].maker == maker {
      OthersPrices(q[1..], maker, k);
    } else if k > 0 {
      OthersPrices(q[1..], maker, k - 1);
    }
  }

  lemma {:induction false} OthersFlattenUp(levels: seq<Level>, maker: Address)
    ensures FlattenUp(OthersLevels(levels, maker)) == Others(FlattenUp(levels), maker)
  {
    if levels == [] {
    } else {
      OthersFlattenUp(levels[1..], maker);
      OthersConcat(levels[0].queue, FlattenUp(levels[1..]), maker);
      assert OthersLevels(levels, maker)[1..] == OthersLevels(levels[1..], maker);
    }
  }

  lemma {:induction false} OthersFlattenDown(levels: seq<Level>, maker: Address)
    ensures FlattenDown(OthersLevels(levels, maker)) == Others(FlattenDown(levels), maker)
  {
    if levels == [] {
    } else {
      var n := |levels| - 1;
      OthersFlattenDown(levels[..n], maker);
      OthersConcat(levels[n].queue, FlattenDown(levels[..n]), maker);
      assert OthersLevels(levels, maker)[..n] == OthersLevels(levels[..n], maker);
    }
  }

  lemma {:induction false} OthersFlatten(levels: seq<Level>, maker: Address)
    requires LevelsOk(levels)
    ensures LevelsOk(OthersLevels(levels, maker))
    ensures FlattenUp(OthersLevels(levels, maker)) == Others(FlattenUp(levels), maker)
    ensures FlattenDown(OthersLevels(levels, maker)) == Others(FlattenDown(levels), maker)
  {
    OthersFlattenUp(levels, maker);
    OthersFlattenDown(levels, maker);
    var ls := OthersLevels(levels, maker);
    forall i, k | 0 <= i < |ls| && 0 <= k < |ls[i].queue| ensures ls[i].queue[k].price == ls[i].price {
      OthersPrices(levels[i].queue, maker, k);
    }
  }

  lemma {:induction false} CancelAllStep(levels: seq<Level>, i: nat, maker: Address)
    requires i < |levels|
    ensures OthersLevels(levels[..i + 1], maker)
         == OthersLevels(levels[..i], maker) + [Level(levels[i].price, Others(levels[i].queue, maker))]
    ensures Ids(Own(FlattenUp(levels[..i + 1]), maker))
         == Ids(Own(FlattenUp(levels[..i]), maker)) + Ids(Own(levels[i].queue, maker))
  {
    FlattenUpSnoc(levels, i);
    OthersConcat(FlattenUp(levels[..i]), levels[i].queue, maker);
  }

  lemma {:induction false} FilterStep(q: Queue, maker: Address)
    requires q != []
    ensures Others(q, maker) == (if q[0].maker == maker then [] else [q[0]]) + Others(q[1..], maker)
    ensures Ids(Own(q, maker)) == (if q[0].maker == maker then [q[0].orderId] else []) + Ids(Own(q[1..], maker))
  {}

  /**
   `queue` is `whole` without the maker's orders met so far, whose identifiers are in `removed`; `i` places
   are scanned.
   */
  ghost predicate Filtered(whole: Queue, queue: Queue, i: nat, removed: seq<nat>, maker: Address) {
    && i <= |queue|
    && Others(whole, maker) == queue[..i] + Others(queue[i..], maker)
    && Ids(Own(whole, maker)) == removed + Ids(Own(queue[i..], maker))
  }

  lemma {:induction false} FilteredOn(whole: Queue, queue: Queue, i: nat, removed: seq<nat>, maker: Address)
    requires Filtered(whole, queue, i, removed, maker) && i < |queue|
    ensures
      if queue[i].maker == maker
      then Filtered(whole, queue[..i] + queue[i + 1..], i, removed + [queue[i].orderId], maker)
      else Filtered(whole, queue, i + 1, removed, maker)
  {
    FilterStep(queue[i..], maker);
    assert queue[i..][1..] == queue[i + 1..];
    var shorter := queue[..i] + queue[i + 1..];
    assert shorter[..i] == queue[..i] && shorter[i..] == queue[i + 1..];
    assert queue[..i + 1] == queue[..i] + [queue[i]];
  }

  class OrderBook {
    var buys: seq<Level>
    var sells: seq<Level>
    var nextSeq: nat

    ghost predicate Valid()
      reads this
    {
      LevelsOk(buys) && LevelsOk(sells)
    }

    function State(): Book
      reads this
    {
      Book(FlattenDown(buys), FlattenUp(sells), nextSeq)
    }

    constructor ()
      ensures Valid() && State() == EMPTY_BOOK && Pruned()
    {
      buys, sells, nextSeq := [], [], 0;
    }

    predicate Pruned()
      reads this
    {
      NoEmptyLevel(buys) && NoEmptyLevel(sells)
    }

    /** Rests an order behind everything priced at least as well, stamped with the next number. */
    method Insert(order: RestingOrder) returns (stamped: RestingOrder)
      requires Valid()
      modifies this
      ensures Valid() && (old(Pruned()) ==> Pruned()) && stamped == order.(seqNo := old(nextSeq))
      ensures State() == Rest(old(State()), order)
    {
      stamped := order.(seqNo := nextSeq);
      nextSeq := nextSeq + 1;
      match stamped.side {
        case Buy =>
          PushBackDown(buys, stamped);
          PushBackOk(buys, stamped);
          buys := PushBack(buys, stamped);
        case Sell =>
          PushBackUp(sells, stamped);
          PushBackOk(sells, stamped);
          sells := PushBack(sells, stamped);
      }
    }

    /** Matches a buy against the asks, lowest price first. */
    method MatchBuy(t: Incoming) returns (fills: seq<Fill>, fullyFilled: bool)
      requires Valid() && t.side == Buy
      modifies this`sells
      ensures Valid()
      ensures
        var s := Sweep(old(State()).asks, t, t.amount);
        fills == s.fills && fullyFilled == (s.left == 0) && State() == old(State()).(asks := s.rest)
    {
      ghost var whole := Sweep(FlattenUp(sells), t, t.amount);
      ghost var dropped: Queue := [];
      var remaining := t.amount;
      fills := [];
      while remaining > 0
        invariant LevelsOk(sells)
        invariant Continues(whole, fills, dropped, Sweep(FlattenUp(sells), t, remaining))
        decreases |sells| + if remaining > 0 then 1 else 0
      {
        if |sells| == 0 || sells[0].price > t.price {
          AsksStop(sells, t);
          break;
        }
        var bestSellPrice := sells[0].price;
        var more, level, left, d := DrainLevel(sells[0], t, remaining, FlattenUp(sells[1..]));
        LowestDrained(sells, level, t, remaining, left, whole, fills, dropped, more, d);
        fills, remaining, dropped := fills + more, left, dropped + d;
        if |level| == 0 {
          sells := sells[1..];
        } else {
          sells := [Level(bestSellPrice, level)] + sells[1..];
        }
      }
      SweepEnds(FlattenUp(sells), t, remaining, whole, fills, dropped);
      fullyFilled := remaining == 0;
    }

    /** Matches a sell against the bids, highest price first. */
    method MatchSell(t: Incoming) returns (fills: seq<Fill>, fullyFilled: bool)
      requires Valid() && t.side == Sell
      modifies this`buys
      ensures Valid()
      ensures
        var s := Sweep(old(State()).bids, t, t.amount);
        fills == s.fills && fullyFilled == (s.left == 0) && State() == old(State()).(bids := s.rest)
    {
      ghost var whole := Sweep(FlattenDown(buys), t, t.amount);
      ghost var dropped: Queue := [];
      var remaining := t.amount;
      fills := [];
      while remaining > 0
        invariant LevelsOk(buys)
        invariant Continues(whole, fills, dropped, Sweep(FlattenDown(buys), t, remaining))
        decreases |buys| + if remaining > 0 then 1 else 0
      {
        var n := |buys| - 1;
        if |buys| == 0 || buys[n].price < t.price {
          BidsStop(buys, t);
          break;
        }
        var bestBuyPrice := buys[n].price;
        var more, level, left, d := DrainLevel(buys[n], t, remaining, FlattenDown(buys[..n]));
        HighestDrained(buys, level, t, remaining, left, whole, fills, dropped, more, d);
        fills, remaining, dropped := fills + more, left, dropped + d;
        if |level| == 0 {
          buys := buys[..n];
        } else {
          buys := buys[..n] + [Level(bestBuyPrice, level)];
        }
      }
      SweepEnds(FlattenDown(buys), t, remaining, whole, fills, dropped);
      fullyFilled := remaining == 0;
    }

    /** The inner loop of both matchers: fills from the front of one level. */
    static method DrainLevel(level: Level, t: Incoming, amount: nat, ghost behind: Queue)
      returns (fills: seq<Fill>, queue: Queue, remaining: nat, ghost dropped: Queue)
      requires Crosses(t.side, level.price, t.price)
      requires AllPriced(level.queue, level.price)
      ensures Continues(Sweep(level.queue + behind, t, amount), fills, dropped, Sweep(queue + behind, t, remaining))
      ensures AllPriced(queue, level.price)
      ensures remaining == 0 || queue == []
    {
      fills, queue, remaining, dropped := [], level.queue, amount, [];
      ghost var whole := Sweep(queue + behind, t, amount);
      while remaining > 0
        invariant AllPriced(queue, level.price)
        invariant Continues(whole, fills, dropped, Sweep(queue + behind, t, remaining))
        decreases |queue| + remaining
      {
        if |queue| == 0 { break; }
        var maker := queue[0];
        ghost var s := Sweep(queue + behind, t, remaining);
        SweepFront(queue, behind, t, remaining);
        if maker.maker == t.maker {
          ContinuesThen(whole, fills, dropped, s, [], [maker], Sweep(queue[1..] + behind, t, remaining));
          assert fills + [] == fills;
          queue, dropped := queue[1..], dropped + [maker];
          continue;
        }
        var fillAmount := Min(remaining, maker.Remaining());
        var makerOrder := maker.(filled := maker.filled + fillAmount);
        if makerOrder.Remaining() == 0 {
          queue := queue[1..];
        } else {
          queue := queue[0 := makerOrder];
        }
        var fill := Fill(maker.orderId, t.orderId, maker.maker, t.maker, maker.price, fillAmount, t.side);
        ContinuesThen(whole, fills, dropped, s, [fill], [], Sweep(queue + behind, t, remaining - fillAmount));
        assert dropped + [] == dropped;
        fills := fills + [fill];
        remaining := remaining - fillAmount;
      }
    }

    /** Removes the first order with this identifier, scanning the buys and then the sells. */
    method Cancel(orderId: nat) returns (found: bool, ghost removed: Queue)
      requires Valid()
      modifies this
      ensures Valid() && found == (removed != [])
      ensures Cancelled(old(State()), orderId, removed, State())
    {
      var levels;
      levels, found, removed := CancelIn(buys, orderId);
      if found {
        buys := levels;
        return;
      }
      levels, found, removed := CancelIn(sells, orderId);
      if found {
        sells := levels;
      }
    }

    static method CancelIn(levels: seq<Level>, orderId: nat) returns (levels': seq<Level>, found: bool,
                           ghost removed: Queue)
      requires LevelsOk(levels)
      ensures LevelsOk(levels') && found == (removed != []) && |removed| <= 1
      ensures found ==> (
          && removed[0].orderId == orderId
          && RemovesFirst(FlattenUp(levels), removed[0], FlattenUp(levels'))
          && RemovesFirst(FlattenDown(levels), removed[0], FlattenDown(levels')))
      ensures !found ==> levels' == levels
      ensures !found ==> !Contains(FlattenUp(levels), orderId) && !Contains(FlattenDown(levels), orderId)
    {
      for i := 0 to |levels|
        invariant !Contains(FlattenUp(levels[..i]), orderId)
      {
        var queue := levels[i].queue;
        var pos := Position(queue, orderId);
        if pos < |queue| {
          TakenOut(levels, i, pos);
          return levels[i := Level(levels[i].price, queue[..pos] + queue[pos + 1..])], true, [queue[pos]];
        }
        FlattenUpSnoc(levels, i);
      }
      assert levels[..|levels|] == levels;
      SameOrders(levels);
      SameContents(FlattenUp(levels), FlattenDown(levels), orderId);
      return levels, false, [];
    }

    /** The position of the first order with this identifier; the length of the queue if there is none. */
    static method Position(queue: Queue, orderId: nat) returns (pos: nat)
      ensures pos <= |queue| && !Contains(queue[..pos], orderId)
      ensures pos < |queue| ==> queue[pos].orderId == orderId
      ensures pos == |queue| ==> !Contains(queue, orderId)
    {
      for i := 0 to |queue|
        invariant !Contains(queue[..i], orderId)
      {
        if queue[i].orderId == orderId { return i; }
      }
      assert queue[..|queue|] == queue;
      return |queue|;
    }

    /** Removes every order of a maker and returns their identifiers in scan order. */
    method CancelAll(maker: Address) returns (removed: seq<nat>)
      requires Valid()
      modifies this
      ensures Valid() && State() == AllCancelled(old(State()), maker)
      ensures removed == Ids(Own(FlattenUp(old(buys)), maker)) + Ids(Own(FlattenUp(old(sells)), maker))
    {
      OthersFlatten(buys, maker);
      OthersFlatten(sells, maker);
      var ids;
      buys, removed := CancelAllIn(buys, maker);
      sells, ids := CancelAllIn(sells, maker);
      removed := removed + ids;
    }

    static method CancelAllIn(levels: seq<Level>, maker: Address) returns (levels': seq<Level>, removed: seq<nat>)
      ensures levels' == OthersLevels(levels, maker)
      ensures removed == Ids(Own(FlattenUp(levels), maker))
    {
      levels', removed := levels, [];
      for i := 0 to |levels|
        invariant |levels'| == |levels| && levels'[i..] == levels[i..]
        invariant levels'[..i] == OthersLevels(levels[..i], maker)
        invariant removed == Ids(Own(FlattenUp(levels[..i]), maker))
      {
        var queue, ids := CancelAllLevel(levels[i].queue, maker);
        CancelAllStep(levels, i, maker);
        ghost var before := levels';
        levels' := levels'[i := Level(levels[i].price, queue)];
        assert levels'[..i + 1] == before[..i] + [Level(levels[i].price, queue)];
        removed := removed + ids;
      }
      assert levels[..|levels|] == levels && levels'[..|levels|] == levels';
    }

    static method CancelAllLevel(queue: Queue, maker: Address) returns (queue': Queue, removed: seq<nat>)
      ensures queue' == Others(queue, maker) && removed == Ids(Own(queue, maker))
    {
      queue', removed := queue, [];
      var i := 0;
      while i < |queue'|
        invariant Filtered(queue, queue', i, removed, maker)
        decreases |queue'| - i
      {
        FilteredOn(queue, queue', i, removed, maker);
        if queue'[i].maker == maker {
          removed := removed + [queue'[i].orderId];
          queue' := queue'[..i] + queue'[i + 1..];
        } else {
          i := i + 1;
        }
      }
      assert queue'[..i] == queue';
    }

    /** Drops the empty levels; no order moves. */
    method Prune()
      requires Valid()
      modifies this
      ensures Valid() && Pruned() && State() == old(State())
    {
      RetainKeepsOrders(buys);
      RetainKeepsOrders(sells);
      RetainOk(buys);
      RetainOk(sells);
      RetainedFrom(buys);
      RetainedFrom(sells);
      buys, sells := RetainNonEmpty(buys), RetainNonEmpty(sells);
    }

    function BestBid(): Option<nat>
      reads this
    {
      if buys == [] then None else Some(buys[|buys| - 1].price)
    }

    function BestAsk(): Option<nat>
      reads this
    {
      if sells == [] then None else Some(sells[0].price)
    }
  }

  /** In a pruned book the best prices are those of the orders that would match next. */
  lemma {:induction false} BestPrices(book: OrderBook)
    requires book.Valid() && book.Pruned()
    ensures book.BestBid() == if book.State().bids == [] then None else Some(book.State().bids[0].price)
    ensures book.BestAsk() == if book.State().asks == [] then None else Some(book.State().asks[0].price)
  {}
}
