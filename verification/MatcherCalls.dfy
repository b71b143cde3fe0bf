/** What every command to the matcher answers and leaves behind, written out. */
module MatcherCalls {
  import opened Chain
  import opened Matching
  import opened OrderBook
  import opened Engine
  import opened MatcherRuns

  /** The bids of a book, or its asks, in price-time priority. */
  lemma {:induction false} PriorityMeans(q: Queue)
    ensures Ranked(Buy, q) <==>
      forall i, j | 0 <= i < j < |q| ::
        q[i].price > q[j].price || (q[i].price == q[j].price && q[i].seqNo < q[j].seqNo)
    ensures Ranked(Sell, q) <==>
      forall i, j | 0 <= i < j < |q| ::
        q[i].price < q[j].price || (q[i].price == q[j].price && q[i].seqNo < q[j].seqNo)
  {
    forall i, j | 0 <= i < j < |q|
      ensures Ahead(Buy, q[i], q[j]) <==>
        (q[i].price > q[j].price || (q[i].price == q[j].price && q[i].seqNo < q[j].seqNo))
      ensures Ahead(Sell, q[i], q[j]) <==>
        (q[i].price < q[j].price || (q[i].price == q[j].price && q[i].seqNo < q[j].seqNo))
    {}
  }

  /** How much an incoming order of a side can take from a list: from other makers, at prices within its limit. */
  lemma {:induction false} LiquidityMeans(q: Queue, t: Incoming)
    ensures q == [] ==> Liquidity(q, t) == 0
    ensures q != [] ==>
      var takes := q[0].maker != t.maker && if t.side == Buy then q[0].price <= t.price else q[0].price >= t.price;
      Liquidity(q, t) == Liquidity(q[1..], t) + if takes then q[0].amount - q[0].filled else 0
  {}

  /**
   Placing an order.  It is filled completely exactly when the liquidity covers it.  Otherwise it rests as it
   came, under the next number, on its own side; and what it records as filled is what was filled, or, as the
   code is written, what was not.
   */
  lemma {:induction false} PlaceAnswers(b: Book, t: Incoming, rule: Rule)
    requires Ranked(Opposite(t.side), Against(b, t.side))
    ensures
      var p, liquidity := Place(b, t, rule), Liquidity(if t.side == Buy then b.asks else b.bids, t);
      var filled := if t.amount <= liquidity then t.amount else liquidity;
      && SumAmounts(p.fills) == filled
      && p.fullyFilled == (t.amount <= liquidity)
      && p.resting.Some? == (t.amount > liquidity)
      && (p.resting.Some? ==>
            p.resting.value == Order(t.orderId, t.maker, t.price, t.amount,
                                     if rule == AsWritten then t.amount - filled else filled,
                                     t.side, b.nextSeq, t.nonce, t.deadline))
      && p.book.nextSeq == b.nextSeq + if p.resting.Some? then 1 else 0
  {
    SweepIsMaximal(Against(b, t.side), t, t.amount);
    SweepConserves(Against(b, t.side), t, t.amount);
  }

  /** The resting order joins the orders on its own side; the other side keeps what the walk left. */
  lemma {:induction false} PlaceRestsIn(b: Book, t: Incoming, rule: Rule)
    ensures
      var p := Place(b, t, rule);
      var own, own' := if t.side == Buy then b.bids else b.asks, if t.side == Buy then p.book.bids else p.book.asks;
      multiset(own') == multiset(own) + if p.resting.Some? then multiset{p.resting.value} else multiset{}
  {
    var s := Sweep(Against(b, t.side), t, t.amount);
    if s.left > 0 {
      SweepConserves(Against(b, t.side), t, t.amount);
      InsertAdds(t.side, if t.side == Buy then b.bids else b.asks, Place(b, t, rule).resting.value);
    }
  }

  lemma {:induction false} InsertAdds(side: Side, q: Queue, o: RestingOrder)
    ensures multiset(Matching.Insert(side, q, o)) == multiset(q) + multiset{o}
  {
    var n := InsertSplits(side, q, o);
    assert q == q[..n] + q[n..];
  }

  /** A command changes no book but that of its own position, and answers for its own market. */
  lemma {:induction false} OtherBooksKept(rule: Rule, bs: Books, cmd: Command, out: Out, bs': Books, p: nat)
    requires Next(rule, bs, cmd, out, bs') && (cmd.Shutdown? || cmd.positionId != p)
    ensures p in bs' <==> p in bs
    ensures p in bs ==> bs'[p] == bs[p]
    ensures out.result.Some? <==> cmd.PlaceOrder?
    ensures cmd.PlaceOrder? ==> out.result.value.marketId == cmd.marketId
  {}

  /** Cancelling everything of a maker leaves exactly the orders of others, as often as they were there. */
  lemma {:induction false} OthersExactly(q: Queue, maker: Address, o: RestingOrder)
    ensures multiset(Others(q, maker))[o] == if o.maker == maker then 0 else multiset(q)[o]
    ensures multiset(Own(q, maker))[o] == if o.maker == maker then multiset(q)[o] else 0
  {
    if q == [] {
    } else {
      OthersExactly(q[1..], maker, o);
      assert q == [q[0]] + q[1..];
    }
  }

  /** And leaves them in their order. */
  lemma {:induction false} OthersInOrder(q: Queue, maker: Address, side: Side)
    requires Ranked(side, q)
    ensures Ranked(side, Others(q, maker)) && Ranked(side, Own(q, maker))
  {
    OthersWithin(q, maker, side);
    OwnRanked(q, maker, side);
  }

  lemma {:induction false} OwnRanked(q: Queue, maker: Address, side: Side)
    requires Ranked(side, q)
    ensures Ranked(side, Own(q, maker))
  {
    if q == [] {
    } else {
      var rest := Own(q[1..], maker);
      OwnRanked(q[1..], maker, side);
      forall i | 0 <= i < |rest| ensures Ahead(side, q[0], rest[i]) {
        OthersExactly(q[1..], maker, rest[i]);
        assert rest[i] in multiset(rest) && rest[i] in multiset(q[1..]);
        var j :| 0 <= j < |q[1..]| && q[1..][j] == rest[i];
        assert Ahead(side, q[0], q[j + 1]);
      }
    }
  }

  /** The results sent on are those of the placements, each once and in order. */
  lemma {:induction false} AnswersInOrder(outs: seq<Out>, i: nat)
    requires i < |outs|
    ensures Results(outs[..i + 1]) == Results(outs[..i]) + if outs[i].result.Some? then [outs[i].result.value] else []
  {
    assert outs[..i + 1][..i] == outs[..i];
  }
}
