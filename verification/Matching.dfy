/**
 What matching means, on flat lists: one side of a book is the list of its resting orders, best
 first, and an incoming order sweeps that list greedily.  The price levels, queues and nested loops
 of the order book are an implementation of this.
 */
module Matching {
  import opened Chain

  datatype Option<+T> = None | Some(value: T)

  datatype Side = Buy | Sell

  datatype Order = Order(orderId: nat, maker: Address, price: nat, amount: nat, filled: nat, side: Side,
                         seqNo: nat, nonce: nat, deadline: nat)
  {
    function Remaining(): nat
      requires filled <= amount
    {
      amount - filled
    }
  }

  /** An order never filled beyond its amount. */
  type RestingOrder = o: Order | o.filled <= o.amount
    witness Order(0, Zero, 0, 0, 0, Buy, 0, 0, 0)

  type Queue = seq<RestingOrder>

  datatype Fill = Fill(makerOrderId: nat, takerOrderId: nat, maker: Address, taker: Address, price: nat,
                       amount: nat, takerSide: Side)

  /** An order as it arrives at the matcher. */
  datatype Incoming = Incoming(orderId: nat, maker: Address, price: nat, amount: nat, side: Side, nonce: nat,
                               deadline: nat)

  function Opposite(side: Side): Side {
    if side == Buy then Sell else Buy
  }

  /** A resting order priced `price` is acceptable to a taker on `takerSide` with this limit. */
  predicate Crosses(takerSide: Side, price: nat, limit: nat) {
    if takerSide == Buy then price <= limit else price >= limit
  }

  /** On the list of `side`, price `p` ranks strictly before price `q`. */
  predicate Better(side: Side, p: nat, q: nat) {
    if side == Sell then p < q else p > q
  }

  function Min(a: nat, b: nat): nat {
    if a <= b then a else b
  }

  function FillOf(maker: RestingOrder, t: Incoming, amount: nat): Fill {
    Fill(maker.orderId, t.orderId, maker.maker, t.maker, maker.price, amount, t.side)
  }

  /**
   The outcome of a sweep: the fills, what stays on the list, what is left to fill, and the taker's own
   orders met on the way.
   */
  datatype Swept = Swept(fills: seq<Fill>, rest: Queue, left: nat, dropped: Queue)

  /**
   The greedy walk.  While something is left and the best order crosses: an order of the taker's own
   is dropped, any other is filled as far as it goes.
   */
  function Sweep(q: Queue, t: Incoming, left: nat): Swept {
    if q == [] || left == 0 || !Crosses(t.side, q[0].price, t.price) then
      Swept([], q, left, [])
    else if q[0].maker == t.maker then
      var s := Sweep(q[1..], t, left);
      s.(dropped := [q[0]] + s.dropped)
    else
      var amount := Min(left, q[0].Remaining());
      if amount == q[0].Remaining() then
        var s := Sweep(q[1..], t, left - amount);
        s.(fills := [FillOf(q[0], t, amount)] + s.fills)
      else
        Swept([FillOf(q[0], t, amount)], [q[0].(filled := q[0].filled + amount)] + q[1..], left - amount, [])
  }

  /** Where a new order goes: behind everything priced at least as well. */
  function Insert(side: Side, q: Queue, o: RestingOrder): Queue {
    if q == [] || Better(side, o.price, q[0].price) then [o] + q
    else [q[0]] + Insert(side, q[1..], o)
  }

  /** Price-time priority: strictly better price, or the same price and an earlier sequence number. */
  predicate Ahead(side: Side, a: RestingOrder, b: RestingOrder) {
    Better(side, a.price, b.price) || (a.price == b.price && a.seqNo < b.seqNo)
  }

  ghost predicate Ranked(side: Side, q: Queue) {
    forall i, j | 0 <= i < j < |q| :: Ahead(side, q[i], q[j])
  }

  // ---- Quantities ----

  function SumAmounts(fills: seq<Fill>): nat {
    if fills == [] then 0 else fills[0].amount + SumAmounts(fills[1..])
  }

  /** Remaining quantity an incoming order could take: crossing orders of other makers. */
  function Liquidity(q: Queue, t: Incoming): nat {
    if q == [] then 0
    else (if Crosses(t.side, q[0].price, t.price) && q[0].maker != t.maker then q[0].Remaining() else 0)
         + Liquidity(q[1..], t)
  }

  /** The crossing orders of other makers, best first. */
  function Candidates(q: Queue, t: Incoming): Queue {
    if q == [] then []
    else
      var rest := Candidates(q[1..], t);
      if Crosses(t.side, q[0].price, t.price) && q[0].maker != t.maker then [q[0]] + rest else rest
  }

  // ---- Sweeps are maximal ----

  lemma {:induction false} NothingCrosses(q: Queue, t: Incoming)
    requires Ranked(Opposite(t.side), q)
    requires q != [] ==> !Crosses(t.side, q[0].price, t.price)
    ensures Liquidity(q, t) == 0 && Candidates(q, t) == []
  {
    if |q| <= 1 {
    } else {
      assert Ahead(Opposite(t.side), q[0], q[1]);
      NothingCrosses(q[1..], t);
    }
  }

  /** What a sweep fills is the smaller of the amount asked for and the liquidity there is. */
  lemma {:induction false} SweepIsMaximal(q: Queue, t: Incoming, left: nat)
    requires Ranked(Opposite(t.side), q)
    ensures SumAmounts(Sweep(q, t, left).fills) == Min(left, Liquidity(q, t))
    ensures Sweep(q, t, left).left == left - Min(left, Liquidity(q, t))
  {
    if q == [] || left == 0 {
    } else if !Crosses(t.side, q[0].price, t.price) {
      NothingCrosses(q, t);
    } else if q[0].maker == t.maker {
      SweepIsMaximal(q[1..], t, left);
    } else {
      var amount := Min(left, q[0].Remaining());
      SweepIsMaximal(q[1..], t, left - amount);
      var f := FillOf(q[0], t, amount);
      var more := Sweep(q[1..], t, left - amount).fills;
      assert ([f] + more)[1..] == more;
    }
  }

  /** Without any assumption on the list: what was asked for is filled or left. */
  lemma {:induction false} SweepConserves(q: Queue, t: Incoming, left: nat)
    ensures SumAmounts(Sweep(q, t, left).fills) + Sweep(q, t, left).left == left
  {
    if q == [] || left == 0 || !Crosses(t.side, q[0].price, t.price) {
    } else if q[0].maker == t.maker {
      SweepConserves(q[1..], t, left);
    } else {
      var amount := Min(left, q[0].Remaining());
      SweepConserves(q[1..], t, left - amount);
      var f := FillOf(q[0], t, amount);
      var more := Sweep(q[1..], t, left - amount).fills;
      assert ([f] + more)[1..] == more;
    }
  }

  // ---- Sweeps respect priority ----

  /**
   Price-time priority: the `k`-th fill is between the taker and the `k`-th candidate, at that candidate's own
   price, and every candidate before the last one touched is filled to the end.
   */
  lemma {:induction false} SweepFollowsPriority(q: Queue, t: Incoming, left: nat, k: nat)
    requires Ranked(Opposite(t.side), q) && k < |Sweep(q, t, left).fills|
    ensures
      var fills, cs := Sweep(q, t, left).fills, Candidates(q, t);
      && |fills| <= |cs|
      && fills[k].price == cs[k].price
      && fills[k].makerOrderId == cs[k].orderId && fills[k].maker == cs[k].maker
      && fills[k].takerOrderId == t.orderId && fills[k].taker == t.maker && fills[k].takerSide == t.side
      && fills[k].amount <= cs[k].amount - cs[k].filled
      && (k < |fills| - 1 ==> fills[k].amount == cs[k].amount - cs[k].filled)
  {
    if q[0].maker == t.maker {
      SweepFollowsPriority(q[1..], t, left, k);
    } else {
      var amount := Min(left, q[0].Remaining());
      var more := Sweep(q[1..], t, left - amount).fills;
      if amount == q[0].Remaining() && more != [] {
        SweepFollowsPriority(q[1..], t, left - amount, if k == 0 then 0 else k - 1);
      }
    }
  }

  lemma {:induction false} CandidatesCross(q: Queue, t: Incoming, i: nat)
    requires i < |Candidates(q, t)|
    ensures Candidates(q, t)[i] in q
    ensures Crosses(t.side, Candidates(q, t)[i].price, t.price) && Candidates(q, t)[i].maker != t.maker
  {
    if Crosses(t.side, q[0].price, t.price) && q[0].maker != t.maker {
      if i > 0 {
        CandidatesCross(q[1..], t, i - 1);
      }
    } else {
      CandidatesCross(q[1..], t, i);
    }
  }

  lemma {:induction false} CandidatesRanked(q: Queue, t: Incoming)
    requires Ranked(Opposite(t.side), q)
    ensures Ranked(Opposite(t.side), Candidates(q, t))
  {
    if q == [] {
    } else {
      CandidatesRanked(q[1..], t);
      var rest := Candidates(q[1..], t);
      forall j | 0 <= j < |rest| ensures Ahead(Opposite(t.side), q[0], rest[j]) {
        CandidatesCross(q[1..], t, j);
        var i :| 0 <= i < |q[1..]| && q[1..][i] == rest[j];
        assert Ahead(Opposite(t.side), q[0], q[i + 1]);
      }
    }
  }

  /** Fill prices stay within the taker's limit, are never a self-trade, and move away from the best. */
  lemma {:induction false} FillPricesAreOrderly(q: Queue, t: Incoming, left: nat)
    requires Ranked(Opposite(t.side), q)
    ensures
      var fills := Sweep(q, t, left).fills;
      && (forall i | 0 <= i < |fills| :: fills[i].maker != t.maker)
      && (t.side == Buy ==> forall i | 0 <= i < |fills| :: fills[i].price <= t.price)
      && (t.side == Sell ==> forall i | 0 <= i < |fills| :: fills[i].price >= t.price)
      && (t.side == Buy ==> forall i, j | 0 <= i < j < |fills| :: fills[i].price <= fills[j].price)
      && (t.side == Sell ==> forall i, j | 0 <= i < j < |fills| :: fills[i].price >= fills[j].price)
  {
    var fills, cs := Sweep(q, t, left).fills, Candidates(q, t);
    CandidatesRanked(q, t);
    if fills != [] {
      SweepFollowsPriority(q, t, left, 0);
    }
    forall i | 0 <= i < |fills| ensures i < |cs| && fills[i].price == cs[i].price && fills[i].maker == cs[i].maker {
      SweepFollowsPriority(q, t, left, i);
    }
    forall i | 0 <= i < |fills| ensures Crosses(t.side, fills[i].price, t.price) && fills[i].maker != t.maker {
      CandidatesCross(q, t, i);
    }
    forall i, j | 0 <= i < j < |fills| ensures !Better(Opposite(t.side), fills[j].price, fills[i].price) {
      assert Ahead(Opposite(t.side), cs[i], cs[j]);
    }
  }

  // ---- What a sweep leaves ----

  /** `a` survives from `b`: the same order, perhaps filled further. */
  predicate Survives(a: RestingOrder, b: RestingOrder) {
    a == b.(filled := a.filled) && a.filled >= b.filled
  }

  /** `rest` is the end of `q` from `n` on, its orders perhaps filled further. */
  ghost predicate EndOf(rest: Queue, q: Queue, n: nat) {
    && n <= |q| && |rest| == |q| - n
    && forall i | 0 <= i < |rest| :: Survives(rest[i], q[n + i])
  }

  lemma {:induction false} EndOfTail(rest: Queue, q: Queue, n: nat)
    requires q != [] && EndOf(rest, q[1..], n)
    ensures EndOf(rest, q, n + 1) && q[1..][n..] == q[n + 1..]
    ensures n < |q[1..]| ==> q[1..][n] == q[n + 1]
  {
    forall i | 0 <= i < |rest| ensures Survives(rest[i], q[n + 1 + i]) {
      assert q[1..][n + i] == q[n + 1 + i];
    }
  }

  lemma {:induction false} PartlyFilled(q: Queue, amount: nat)
    requires q != [] && amount <= q[0].Remaining()
    ensures EndOf([q[0].(filled := q[0].filled + amount)] + q[1..], q, 0)
  {}

  /** The rest of a sweep is the end of the list, its first order perhaps partly filled. */
  lemma {:induction false} SweepRest(q: Queue, t: Incoming, left: nat) returns (n: nat)
    ensures EndOf(Sweep(q, t, left).rest, q, n)
    ensures Sweep(q, t, left).left > 0 ==> Sweep(q, t, left).rest == q[n..]
    ensures Sweep(q, t, left).left > 0 && n < |q| ==> !Crosses(t.side, q[n].price, t.price)
  {
    var s := Sweep(q, t, left);
    if q == [] || left == 0 || !Crosses(t.side, q[0].price, t.price) {
      n := 0;
    } else if q[0].maker == t.maker {
      n := SweepRest(q[1..], t, left);
      EndOfTail(s.rest, q, n);
      n := n + 1;
    } else {
      var amount := Min(left, q[0].Remaining());
      if amount == q[0].Remaining() {
        n := SweepRest(q[1..], t, left - amount);
        EndOfTail(s.rest, q, n);
        n := n + 1;
      } else {
        PartlyFilled(q, amount);
        n := 0;
      }
    }
  }

  /**
   Where every order met on the way goes: of the `n` orders a sweep consumes, the taker's own are dropped and
   all others are filled; at most one more is filled in part, and then nothing is left to fill.
   */
  lemma {:induction false} SweepTally(q: Queue, t: Incoming, left: nat) returns (n: nat)
    ensures
      var s := Sweep(q, t, left);
      && n <= |q| && s.dropped == Own(q[..n], t.maker)
      && (|| (|s.fills| == |Others(q[..n], t.maker)| && s.rest == q[n..])
          || (|s.fills| == |Others(q[..n], t.maker)| + 1 && s.left == 0 && n < |q|
              && s.fills[|s.fills| - 1].makerOrderId == q[n].orderId
              && s.rest == [q[n].(filled := q[n].filled + s.fills[|s.fills| - 1].amount)] + q[n + 1..]))
  {
    var s := Sweep(q, t, left);
    if q == [] || left == 0 || !Crosses(t.side, q[0].price, t.price) {
      n := 0;
    } else {
      var amount := Min(left, q[0].Remaining());
      if q[0].maker == t.maker {
        n := SweepTally(q[1..], t, left);
        TallyStep(q, n);
        n := n + 1;
      } else if amount == q[0].Remaining() {
        n := SweepTally(q[1..], t, left - amount);
        TallyStep(q, n);
        n := n + 1;
      } else {
        n := 0;
      }
    }
  }

  lemma {:induction false} TallyStep(q: Queue, n: nat)
    requires q != [] && n <= |q[1..]|
    ensures q[..n + 1][0] == q[0] && q[..n + 1][1..] == q[1..][..n] && q[1..][n..] == q[n + 1..]
    ensures n < |q[1..]| ==> q[1..][n] == q[n + 1] && q[1..][n + 1..] == q[n + 2..]
  {}

  lemma {:induction false} SweepKeepsRank(q: Queue, t: Incoming, left: nat, side: Side)
    requires Ranked(side, q)
    ensures Ranked(side, Sweep(q, t, left).rest)
  {
    var n := SweepRest(q, t, left);
    var rest := Sweep(q, t, left).rest;
    forall i, j | 0 <= i < j < |rest| ensures Ahead(side, rest[i], rest[j]) {
      assert Survives(rest[i], q[n + i]) && Survives(rest[j], q[n + j]);
      assert Ahead(side, q[n + i], q[n + j]);
    }
  }

  // ---- Insertion ----

  lemma {:induction false} InsertSplits(side: Side, q: Queue, o: RestingOrder) returns (n: nat)
    ensures n <= |q| && Insert(side, q, o) == q[..n] + [o] + q[n..]
    ensures forall i | 0 <= i < n :: !Better(side, o.price, q[i].price)
    ensures n < |q| ==> Better(side, o.price, q[n].price)
  {
    if q == [] || Better(side, o.price, q[0].price) {
      n := 0;
    } else {
      n := InsertSplits(side, q[1..], o);
      n := n + 1;
      assert q[..n] == [q[0]] + q[1..][..n - 1];
      assert q[n..] == q[1..][n - 1..];
    }
  }

  /** Inserting an order stamped later than all others keeps price-time priority. */
  lemma {:induction false} InsertKeepsRank(side: Side, q: Queue, o: RestingOrder)
    requires Ranked(side, q)
    requires forall i | 0 <= i < |q| :: q[i].seqNo < o.seqNo
    ensures Ranked(side, Insert(side, q, o))
    ensures multiset(Insert(side, q, o)) == multiset(q) + multiset{o}
  {
    if q == [] {
    } else if Better(side, o.price, q[0].price) {
      forall j | 0 <= j < |q| ensures Ahead(side, o, q[j]) {
        if j > 0 {
          assert Ahead(side, q[0], q[j]);
        }
      }
    } else {
      var rest := Insert(side, q[1..], o);
      InsertKeepsRank(side, q[1..], o);
      assert q == [q[0]] + q[1..];
      forall j | 0 <= j < |rest| ensures Ahead(side, q[0], rest[j]) {
        assert rest[j] in multiset(q[1..]) + multiset{o};
        if rest[j] != o {
          var i :| 0 <= i < |q[1..]| && q[1..][i] == rest[j];
          assert Ahead(side, q[0], q[i + 1]);
        }
      }
    }
  }

  // ---- Cancellation ----

  /** `q` without the orders of `maker`. */
  function Others(q: Queue, maker: Address): Queue {
    if q == [] then []
    else if q[0].maker == maker then Others(q[1..], maker)
    else [q[0]] + Others(q[1..], maker)
  }

  /** The orders of `maker` in `q`. */
  function Own(q: Queue, maker: Address): Queue {
    if q == [] then []
    else if q[0].maker == maker then [q[0]] + Own(q[1..], maker)
    else Own(q[1..], maker)
  }

  function Ids(q: Queue): seq<nat> {
    seq(|q|, i requires 0 <= i < |q| => q[i].orderId)
  }

  /** `q'` is `q` with one occurrence of `o` taken out and everything else in place. */
  ghost predicate RemovesOne(q: Queue, o: RestingOrder, q': Queue) {
    exists i :: 0 <= i < |q| && q[i] == o && q' == q[..i] + q[i + 1..]
  }

  /** The same, and `o` is the one a scan by ascending price, oldest first, meets first of its identifier. */
  ghost predicate RemovesFirst(q: Queue, o: RestingOrder, q': Queue) {
    exists i :: 0 <= i < |q| && q[i] == o && q' == q[..i] + q[i + 1..] && ScannedFirst(q, i)
  }

  ghost predicate ScannedFirst(q: Queue, i: nat)
    requires i < |q|
  {
    forall j | 0 <= j < |q| && q[j].orderId == q[i].orderId ::
      q[i].price < q[j].price || (q[i].price == q[j].price && i <= j)
  }

  /** Orders of this identifier in `q`, if any, are all priced higher. */
  ghost predicate ScannedLater(o: RestingOrder, q: Queue) {
    forall j | 0 <= j < |q| && q[j].orderId == o.orderId :: o.price < q[j].price
  }

  ghost predicate Contains(q: Queue, orderId: nat) {
    exists i :: 0 <= i < |q| && q[i].orderId == orderId
  }

  lemma {:induction false} OthersConcat(a: Queue, b: Queue, maker: Address)
    ensures Others(a + b, maker) == Others(a, maker) + Others(b, maker)
    ensures Own(a + b, maker) == Own(a, maker) + Own(b, maker)
  {
    if a == [] {
      assert a + b == b;
    } else {
      assert (a + b)[1..] == a[1..] + b && (a + b)[0] == a[0];
      OthersConcat(a[1..], b, maker);
      var o, w := Others(a[1..], maker), Own(a[1..], maker);
      assert [a[0]] + (o + Others(b, maker)) == [a[0]] + o + Others(b, maker);
      assert [a[0]] + (w + Own(b, maker)) == [a[0]] + w + Own(b, maker);
    }
  }

  /** Taking out an order from the middle stretch of a list, with nothing of its identifier scanned before it. */
  lemma {:induction false} RemoveInside(a: Queue, q: Queue, i: nat, b: Queue)
    requires i < |q| && !Contains(q[..i], q[i].orderId)
    requires forall j | 0 <= j < |q| :: q[j].price == q[i].price
    requires ScannedLater(q[i], a) && ScannedLater(q[i], b)
    ensures RemovesFirst(a + q + b, q[i], a + (q[..i] + q[i + 1..]) + b)
  {
    var whole := a + q + b;
    var at := |a| + i;
    assert whole[at] == q[i];
    assert a + (q[..i] + q[i + 1..]) + b == whole[..at] + whole[at + 1..];
    forall j | 0 <= j < i ensures q[j].orderId != q[i].orderId {
      assert q[..i][j] == q[j];
    }
    forall j | 0 <= j < |whole| && whole[j].orderId == q[i].orderId
      ensures q[i].price < whole[j].price || (q[i].price == whole[j].price && at <= j)
    {
    }
    assert ScannedFirst(whole, at);
  }

  // ---- Buying and selling are mirror images ----

  /** The same order on the other side, its price reflected about `m`. */
  function Reflect(o: RestingOrder, m: nat): RestingOrder
    requires o.price <= m
  {
    o.(price := m - o.price, side := Opposite(o.side))
  }

  ghost predicate PricedWithin(q: Queue, m: nat) {
    forall i | 0 <= i < |q| :: q[i].price <= m
  }

  ghost function ReflectAll(q: Queue, m: nat): Queue
    requires PricedWithin(q, m)
  {
    seq(|q|, i requires 0 <= i < |q| => Reflect(q[i], m))
  }

  function ReflectTaker(t: Incoming, m: nat): Incoming
    requires t.price <= m
  {
    t.(price := m - t.price, side := Opposite(t.side))
  }

  ghost predicate MirrorFills(fills: seq<Fill>, mirrored: seq<Fill>, m: nat) {
    && |fills| == |mirrored|
    && forall i | 0 <= i < |fills| ::
         fills[i].price <= m
         && mirrored[i] == fills[i].(price := m - fills[i].price, takerSide := Opposite(fills[i].takerSide))
  }

  ghost predicate MirrorSwept(s: Swept, r: Swept, m: nat) {
    && MirrorFills(s.fills, r.fills, m) && r.left == s.left
    && PricedWithin(s.rest, m) && r.rest == ReflectAll(s.rest, m)
    && PricedWithin(s.dropped, m) && r.dropped == ReflectAll(s.dropped, m)
  }

  lemma {:induction false} ReflectParts(q: Queue, m: nat)
    requires q != [] && PricedWithin(q, m)
    ensures PricedWithin(q[1..], m) && ReflectAll(q, m) == [Reflect(q[0], m)] + ReflectAll(q[1..], m)
    ensures ReflectAll(q, m)[1..] == ReflectAll(q[1..], m)
  {}

  lemma {:induction false} MirrorStep(s: Swept, r: Swept, o: RestingOrder, f: Fill, m: nat)
    requires MirrorSwept(s, r, m) && o.price <= m && f.price <= m
    ensures MirrorSwept(s.(dropped := [o] + s.dropped), r.(dropped := [Reflect(o, m)] + r.dropped), m)
    ensures MirrorSwept(s.(fills := [f] + s.fills),
                        r.(fills := [f.(price := m - f.price, takerSide := Opposite(f.takerSide))] + r.fills), m)
  {
    ReflectParts([o] + s.dropped, m);
  }

  lemma {:induction false} MirrorStops(q: Queue, t: Incoming, left: nat, m: nat)
    requires PricedWithin(q, m) && t.price <= m
    requires q == [] || left == 0 || !Crosses(t.side, q[0].price, t.price)
    ensures MirrorSwept(Sweep(q, t, left), Sweep(ReflectAll(q, m), ReflectTaker(t, m), left), m)
  {}

  lemma {:induction false} MirrorPartly(q: Queue, t: Incoming, left: nat, m: nat)
    requires PricedWithin(q, m) && t.price <= m && q != [] && 0 < left < q[0].Remaining()
    requires Crosses(t.side, q[0].price, t.price) && q[0].maker != t.maker
    ensures MirrorSwept(Sweep(q, t, left), Sweep(ReflectAll(q, m), ReflectTaker(t, m), left), m)
  {
    var partly: RestingOrder := q[0].(filled := q[0].filled + left);
    var mirrored := ReflectAll(q, m);
    ReflectParts(q, m);
    ReflectParts([partly] + q[1..], m);
    assert ([partly] + q[1..])[1..] == q[1..];
    PartlyTaken(q, t, left);
    PartlyTaken(mirrored, ReflectTaker(t, m), left);
    assert mirrored[0].(filled := mirrored[0].filled + left) == Reflect(partly, m);
  }

  lemma {:induction false} PartlyTaken(q: Queue, t: Incoming, left: nat)
    requires q != [] && 0 < left < q[0].Remaining()
    requires Crosses(t.side, q[0].price, t.price) && q[0].maker != t.maker
    ensures Sweep(q, t, left)
         == Swept([FillOf(q[0], t, left)], [q[0].(filled := q[0].filled + left)] + q[1..], 0, [])
  {}

  /** Matching a sell is matching a buy with all prices reflected: same fills, same rest, same leftover. */
  lemma {:induction false} SweepMirrors(q: Queue, t: Incoming, left: nat, m: nat)
    requires PricedWithin(q, m) && t.price <= m
    ensures MirrorSwept(Sweep(q, t, left), Sweep(ReflectAll(q, m), ReflectTaker(t, m), left), m)
  {
    if q == [] || left == 0 || !Crosses(t.side, q[0].price, t.price) {
      MirrorStops(q, t, left, m);
    } else {
      ReflectParts(q, m);
      var mirrored, taker := ReflectAll(q[1..], m), ReflectTaker(t, m);
      var amount := Min(left, q[0].Remaining());
      var f := FillOf(q[0], t, amount);
      if q[0].maker == t.maker {
        SweepMirrors(q[1..], t, left, m);
        MirrorStep(Sweep(q[1..], t, left), Sweep(mirrored, taker, left), q[0], f, m);
      } else if amount == q[0].Remaining() {
        SweepMirrors(q[1..], t, left - amount, m);
        MirrorStep(Sweep(q[1..], t, left - amount), Sweep(mirrored, taker, left - amount), q[0], f, m);
      } else {
        MirrorPartly(q, t, left, m);
      }
    }
  }
}
