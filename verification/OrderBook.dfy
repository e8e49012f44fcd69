/** The price-time-priority book of internal/book/book.go on flat queues: each side is one sequence of resting
    orders, best price first and oldest first at a price. */
module OrderBook {
  import opened Types
  import opened Dedup
  import Money

  datatype BookConfig = BookConfig(symbol: Text, venue: Text, shard: int, collarBps: int)

  datatype FlatBook = FlatBook(
    config: BookConfig, bids: seq<Order>, asks: seq<Order>, arrival: nat, bookSeq: nat, dedup: Window)
  {
    function Queue(side: Side): seq<Order> { if side == Buy then bids else asks }
    function WithQueue(side: Side, q: seq<Order>): FlatBook
    {
      if side == Buy then this.(bids := q) else this.(asks := q)
    }
    /** `byID`: the order is resting on one of the sides. */
    predicate Live(id: Uuid) { HasId(bids, id) || HasId(asks, id) }
    predicate Seen(id: Uuid) { Live(id) || dedup.Has(id) }

    ghost predicate Valid()
    {
      && SideOk(Buy, bids, arrival) && SideOk(Sell, asks, arrival) && Disjoint(bids, asks)
      && (bids != [] && asks != [] ==> bids[0].limitPrice < asks[0].limitPrice)
      && dedup.Valid() && dedup.limit > 0
    }
  }

  function EmptyBook(config: BookConfig, window: int): FlatBook
  {
    FlatBook(config, [], [], 0, 0, Window(if window < 1 then 1 else window, []))
  }

  predicate HasId(q: seq<Order>, id: Uuid) { exists i :: 0 <= i < |q| && q[i].id == id }

  // ---- priority ------------------------------------------------------------------------------

  /** Price p ranks strictly ahead of p' on a side: bids descend, asks ascend. */
  predicate Better(side: Side, p: int, p': int) { if side == Buy then p > p' else p < p' }

  /** Price first, then arrival. */
  predicate Before(side: Side, a: Order, b: Order)
  {
    Better(side, a.limitPrice, b.limitPrice) || (a.limitPrice == b.limitPrice && a.seqNo < b.seqNo)
  }

  ghost predicate Sorted(side: Side, q: seq<Order>)
  {
    forall i, j :: 0 <= i < j < |q| ==> Before(side, q[i], q[j])
  }

  predicate Resting(side: Side, o: Order, arrival: nat)
  {
    o.side == side && o.typ == Limit && o.tif == GTC && o.remaining > 0 && o.id != NIL && o.seqNo <= arrival
  }

  /** No two orders of a queue share an id or an arrival number. */
  ghost predicate Apart(q: seq<Order>)
  {
    forall i, j :: 0 <= i < j < |q| ==> q[i].id != q[j].id && q[i].seqNo != q[j].seqNo
  }

  ghost predicate SideOk(side: Side, q: seq<Order>, arrival: nat)
  {
    Sorted(side, q) && Apart(q) && forall i :: 0 <= i < |q| ==> Resting(side, q[i], arrival)
  }

  ghost predicate Disjoint(p: seq<Order>, q: seq<Order>)
  {
    forall i, j :: 0 <= i < |p| && 0 <= j < |q| ==> p[i].id != q[j].id && p[i].seqNo != q[j].seqNo
  }

  /** `crosses`: the limit price bounds a limit order, the collar around the stamped reference a market order. */
  predicate Crosses(o: Order, price: int, collarBps: int)
  {
    if o.typ == Limit then (if o.side == Buy then price <= o.limitPrice else price >= o.limitPrice)
    else if o.refPrice <= 0 then false
    else if o.side == Buy then
      match Money.ApplyBps(o.refPrice, collarBps) case None => false case Some(bound) => price <= bound
    else
      match Money.SubBps(o.refPrice, collarBps) case None => false case Some(bound) => price >= bound
  }

  // ---- operations ----------------------------------------------------------------------------

  /** How many leading orders of a queue stay ahead of a newcomer at a price. */
  function Position(side: Side, q: seq<Order>, price: int): (p: nat)
    ensures p <= |q|
    ensures forall i :: 0 <= i < p ==> !Better(side, price, q[i].limitPrice)
    ensures p < |q| ==> Better(side, price, q[p].limitPrice)
  {
    if q == [] || Better(side, price, q[0].limitPrice) then 0 else 1 + Position(side, q[1..], price)
  }

  function Insert(side: Side, q: seq<Order>, o: Order): seq<Order>
  {
    var p := Position(side, q, o.limitPrice);
    q[..p] + [o] + q[p..]
  }

  function FillFor(config: BookConfig, o: Order, maker: Order, qty: int, bookSeq: nat): Fill
  {
    Fill(FillId(config.shard, config.venue, config.symbol, bookSeq), maker.limitPrice, qty,
         o.id, o.account, o.side, maker.id, maker.account)
  }

  datatype Matched = Matched(left: int, queue: seq<Order>, fills: seq<Fill>)

  /** The taker against the opposite queue: best maker first, at the maker's price, while it crosses. */
  function Match(config: BookConfig, o: Order, q: seq<Order>, bookSeq: nat): Matched
    decreases |q|
  {
    if o.remaining <= 0 || q == [] || !Crosses(o, q[0].limitPrice, config.collarBps) then Matched(o.remaining, q, [])
    else
      var maker := q[0];
      var take := Min(o.remaining, maker.remaining);
      var fill := FillFor(config, o, maker, take, bookSeq + 1);
      if maker.remaining == take then
        var m := Match(config, o.(remaining := o.remaining - take), q[1..], bookSeq + 1);
        m.(fills := [fill] + m.fills)
      else
        Matched(o.remaining - take, [maker.(remaining := maker.remaining - take)] + q[1..], [fill])
  }

  datatype SubmitResult = SubmitResult(fills: seq<Fill>, disposition: Disposition, remaining: int, reason: Reason,
    duplicate: bool)

  function CancelReason(o: Order, opposite: seq<Order>): Reason
  {
    if o.typ != Market then IocRemainder else if opposite != [] then CollarBreach else BookExhausted
  }

  /** The order as it enters matching: stamped with its arrival, a zero remainder read as its full size. */
  function Admit(b: FlatBook, o: Order): Order
  {
    o.(seqNo := b.arrival + 1, remaining := if o.remaining == 0 then o.qty else o.remaining)
  }

  /** `rest`: the order joins its own side behind everything at its price or better. */
  function Rest(b: FlatBook, o: Order): FlatBook
  {
    b.WithQueue(o.side, Insert(o.side, b.Queue(o.side), o))
  }

  /** The book once the incoming order is remembered, stamped and matched. */
  function AfterMatch(b: FlatBook, o: Order, m: Matched): FlatBook
  {
    b.WithQueue(o.side.Opposite(), m.queue)
     .(arrival := b.arrival + 1, bookSeq := b.bookSeq + |m.fills|, dedup := b.dedup.Push(o.id))
  }

  /** What becomes of the remainder: nothing is left, it rests, or it is cancelled. */
  function Conclude(after: FlatBook, o: Order, left: int, fills: seq<Fill>): (FlatBook, SubmitResult)
  {
    if left == 0 then (after, SubmitResult(fills, Complete, 0, NoReason, false))
    else if o.typ == Limit && o.tif == GTC then
      (Rest(after, o.(remaining := left)), SubmitResult(fills, Rested, left, NoReason, false))
    else
      (after, SubmitResult(fills, Cancelled, left, CancelReason(o, after.Queue(o.side.Opposite())), false))
  }

  function Submit(b: FlatBook, order: Order): (FlatBook, SubmitResult)
  {
    if b.Seen(order.id) then (b, SubmitResult([], Cancelled, 0, Duplicate, true))
    else
      var o := Admit(b, order);
      var m := Match(b.config, o, b.Queue(o.side.Opposite()), b.bookSeq);
      Conclude(AfterMatch(b, o, m), o, m.left, m.fills)
  }

  /** The index of an order in a queue, or the queue's length. */
  function IndexOf(q: seq<Order>, id: Uuid): (i: nat)
    ensures i <= |q|
    ensures i < |q| <==> HasId(q, id)
    ensures i < |q| ==> q[i].id == id
    ensures forall j :: 0 <= j < i ==> q[j].id != id
  {
    if q == [] then 0 else if q[0].id == id then assert HasId(q, id); 0
    else
      var r := IndexOf(q[1..], id);
      assert HasId(q, id) <==> HasId(q[1..], id) by {
        if HasId(q[1..], id) { assert q[1 + r].id == id; }
        if HasId(q, id) { var k :| 0 <= k < |q| && q[k].id == id; assert q[1..][k - 1].id == id; }
      }
      1 + r
  }

  function Without(q: seq<Order>, i: nat): seq<Order>
    requires i < |q|
  {
    q[..i] + q[i + 1..]
  }

  /** `Cancel`: the unfilled quantity of a resting order, removed; None when nothing rests under the id. */
  function Cancel(b: FlatBook, id: Uuid): (FlatBook, Option<int>)
  {
    if HasId(b.bids, id) then
      var i := IndexOf(b.bids, id);
      (b.(bids := Without(b.bids, i)), Some(b.bids[i].remaining))
    else if HasId(b.asks, id) then
      var i := IndexOf(b.asks, id);
      (b.(asks := Without(b.asks, i)), Some(b.asks[i].remaining))
    else (b, None)
  }

  /** One displayed price level. */
  datatype DepthLevel = DepthLevel(price: int, qty: int)

  /** A queue summed up price by price. */
  function Grouped(q: seq<Order>): seq<DepthLevel>
  {
    if q == [] then []
    else
      var rest := Grouped(q[1..]);
      if rest != [] && rest[0].price == q[0].limitPrice then
        [DepthLevel(q[0].limitPrice, q[0].remaining + rest[0].qty)] + rest[1..]
      else [DepthLevel(q[0].limitPrice, q[0].remaining)] + rest
  }

  /** `Depth`: at most n levels of one side, best first. */
  function Depth(q: seq<Order>, n: nat): seq<DepthLevel>
  {
    Grouped(q)[..Min(n, |Grouped(q)|)]
  }

  // ---- matching is the greedy prefix ------------------------------------------------------------

  function FilledQty(fills: seq<Fill>): int
  {
    if fills == [] then 0 else fills[0].qty + FilledQty(fills[1..])
  }

  function RestingQty(q: seq<Order>): int
  {
    if q == [] then 0 else q[0].remaining + RestingQty(q[1..])
  }

  /** One execution: a crossing maker, at its price, for no more than it had. */
  ghost predicate Took(config: BookConfig, o: Order, maker: Order, bookSeq: nat, f: Fill)
  {
    Crosses(o, maker.limitPrice, config.collarBps) && 0 < f.qty <= maker.remaining
    && f == FillFor(config, o, maker, f.qty, bookSeq)
  }

  /** The leading makers were taken in order, under consecutive fill numbers. */
  ghost predicate TookInOrder(config: BookConfig, o: Order, q: seq<Order>, bookSeq: nat, fills: seq<Fill>)
  {
    |fills| <= |q| && forall i :: 0 <= i < |fills| ==> Took(config, o, q[i], bookSeq + 1 + i, fills[i])
  }

  /** All but perhaps the last were taken whole; the rest of the queue is untouched. */
  ghost predicate LeftRest(q: seq<Order>, m: Matched)
    requires |m.fills| <= |q|
  {
    var k := |m.fills|;
    && (forall i :: 0 <= i < k - 1 ==> m.fills[i].qty == q[i].remaining)
    && (if k == 0 || m.fills[k - 1].qty == q[k - 1].remaining then m.queue == q[k..]
        else m.left == 0 && m.queue == [q[k - 1].(remaining := q[k - 1].remaining - m.fills[k - 1].qty)] + q[k..])
  }

  /** Matching takes the greedy prefix of the crossing makers at their prices, with consecutive fill numbers, all but
      the last of them whole. */
  lemma {:induction false} MatchIsGreedy(config: BookConfig, o: Order, q: seq<Order>, bookSeq: nat)
    requires o.remaining >= 0 && forall i :: 0 <= i < |q| ==> q[i].remaining > 0
    ensures TookInOrder(config, o, q, bookSeq, Match(config, o, q, bookSeq).fills)
    ensures LeftRest(q, Match(config, o, q, bookSeq))
    decreases |q|
  {
    hide Crosses;
    var m := Match(config, o, q, bookSeq);
    if !(o.remaining <= 0 || q == [] || !Crosses(o, q[0].limitPrice, config.collarBps)) {
      var take := Min(o.remaining, q[0].remaining);
      if q[0].remaining == take {
        var o' := o.(remaining := o.remaining - take);
        MatchIsGreedy(config, o', q[1..], bookSeq + 1);
        GreedyStep(config, o, o', q, bookSeq, Match(config, o', q[1..], bookSeq + 1), m);
      }
    }
  }

  lemma {:induction false} GreedyStep(config: BookConfig, o: Order, o': Order, q: seq<Order>, bookSeq: nat, t: Matched,
      m: Matched)
    requires q != [] && o' == o.(remaining := o'.remaining) && q[0].remaining > 0
    requires Crosses(o, q[0].limitPrice, config.collarBps)
    requires TookInOrder(config, o', q[1..], bookSeq + 1, t.fills) && LeftRest(q[1..], t)
    requires m == t.(fills := [FillFor(config, o, q[0], q[0].remaining, bookSeq + 1)] + t.fills)
    ensures TookInOrder(config, o, q, bookSeq, m.fills) && LeftRest(q, m)
  {
    hide Crosses;
    var k := |m.fills|;
    forall i | 0 <= i < k ensures Took(config, o, q[i], bookSeq + 1 + i, m.fills[i]) {
      if i > 0 {
        CrossesIgnoresRemaining(o, o', q[i].limitPrice, config.collarBps);
        assert Took(config, o', q[1..][i - 1], bookSeq + 1 + i, t.fills[i - 1]);
      }
    }
    forall i | 0 <= i < k - 1 ensures m.fills[i].qty == q[i].remaining {
      if i > 0 { assert t.fills[i - 1].qty == q[1..][i - 1].remaining; }
    }
    assert q[1..][k - 1..] == q[k..];
    if k > 1 { assert q[1..][k - 2] == q[k - 1] && t.fills[k - 2] == m.fills[k - 1]; }
  }

  /** It accounts for every share, and stops only when the taker is done, the queue is empty or the next maker does
      not cross. */
  lemma {:induction false} MatchAccounts(config: BookConfig, o: Order, q: seq<Order>, bookSeq: nat)
    requires o.remaining >= 0 && forall i :: 0 <= i < |q| ==> q[i].remaining > 0
    ensures var m := Match(config, o, q, bookSeq);
      && m.left >= 0 && m.left + FilledQty(m.fills) == o.remaining
      && (m.left > 0 ==> m.queue == [] || !Crosses(o, m.queue[0].limitPrice, config.collarBps))
      && RestingQty(m.queue) + FilledQty(m.fills) == RestingQty(q)
    decreases |q|
  {
    hide Crosses;
    var m := Match(config, o, q, bookSeq);
    if !(o.remaining <= 0 || q == [] || !Crosses(o, q[0].limitPrice, config.collarBps)) {
      var take := Min(o.remaining, q[0].remaining);
      if q[0].remaining == take {
        var o' := o.(remaining := o.remaining - take);
        MatchAccounts(config, o', q[1..], bookSeq + 1);
        assert m.fills[1..] == Match(config, o', q[1..], bookSeq + 1).fills;
        if m.queue != [] { CrossesIgnoresRemaining(o, o', m.queue[0].limitPrice, config.collarBps); }
      } else {
        assert m.fills[1..] == [] && m.queue[1..] == q[1..];
      }
    }
  }

  lemma {:induction false} CrossesIgnoresRemaining(o: Order, o': Order, price: int, collarBps: int)
    requires o' == o.(remaining := o'.remaining)
    ensures Crosses(o', price, collarBps) == Crosses(o, price, collarBps)
  {}

  // ---- what every operation keeps -----------------------------------------------------------------

  /** q' is a suffix of q up to a smaller first remainder. */
  ghost predicate Shaved(q: seq<Order>, q': seq<Order>)
  {
    && |q'| <= |q|
    && var t := q[|q| - |q'|..];
    q' == [] || (q'[1..] == t[1..] && q'[0] == t[0].(remaining := q'[0].remaining)
      && 0 < q'[0].remaining <= t[0].remaining)
  }

  lemma {:induction false} MatchShaves(config: BookConfig, o: Order, q: seq<Order>, bookSeq: nat)
    requires o.remaining >= 0 && forall i :: 0 <= i < |q| ==> q[i].remaining > 0
    ensures Shaved(q, Match(config, o, q, bookSeq).queue)
  {
    hide Crosses, Match;
    MatchIsGreedy(config, o, q, bookSeq);
    var m := Match(config, o, q, bookSeq);
    var k := |m.fills|;
    if k > 0 { assert Took(config, o, q[k - 1], bookSeq + k, m.fills[k - 1]); }
  }

  lemma {:induction false} ShavedAt(q: seq<Order>, q': seq<Order>, j: nat)
    requires Shaved(q, q') && j < |q'|
    ensures var o := q[|q| - |q'| + j]; q'[j] == o.(remaining := q'[j].remaining) && (j > 0 ==> q'[j] == o)
  {
    var t := q[|q| - |q'|..];
    if j > 0 { assert q'[j] == q'[1..][j - 1] == t[1..][j - 1] == t[j]; }
  }

  lemma {:induction false} ShavedKeeps(side: Side, q: seq<Order>, q': seq<Order>, other: seq<Order>, arrival: nat,
      later: nat)
    requires SideOk(side, q, arrival) && Shaved(q, q') && Disjoint(q, other) && arrival <= later
    ensures SideOk(side, q', later) && Disjoint(q', other)
    ensures forall id :: HasId(q', id) ==> HasId(q, id)
    ensures q' != [] ==> q != [] && !Better(side, q'[0].limitPrice, q[0].limitPrice)
  {
    var d := |q| - |q'|;
    forall j | 0 <= j < |q'| ensures q'[j] == q[d + j].(remaining := q'[j].remaining) && Resting(side, q'[j], later) {
      ShavedAt(q, q', j);
    }
    forall id | HasId(q', id) ensures HasId(q, id) {
      var i :| 0 <= i < |q'| && q'[i].id == id;
      assert q[d + i].id == id;
    }
  }

  lemma {:induction false} InsertKeeps(side: Side, q: seq<Order>, o: Order, other: seq<Order>, arrival: nat)
    requires SideOk(side, q, arrival) && Disjoint(q, other) && Resting(side, o, arrival + 1) && o.seqNo == arrival + 1
    requires !HasId(q, o.id) && forall i :: 0 <= i < |other| ==> other[i].id != o.id && other[i].seqNo <= arrival
    ensures SideOk(side, Insert(side, q, o), arrival + 1) && Disjoint(Insert(side, q, o), other)
    ensures Insert(side, q, o)[0] == (if q == [] || Better(side, o.limitPrice, q[0].limitPrice) then o else q[0])
  {
    var p := Position(side, q, o.limitPrice);
    var r := Insert(side, q, o);
    assert forall i :: 0 <= i < |q| ==> Resting(side, q[i], arrival) && q[i].id != o.id;
    InsertSorted(side, q, o);
    InsertApart(side, q, o, arrival);
    hide Before, Sorted, Apart;
    assert forall i :: 0 <= i < |r| ==> r[i] == if i < p then q[i] else if i == p then o else q[i - 1];
  }

  lemma {:induction false} InsertApart(side: Side, q: seq<Order>, o: Order, arrival: nat)
    requires Apart(q) && o.seqNo == arrival + 1
    requires forall i :: 0 <= i < |q| ==> Resting(side, q[i], arrival) && q[i].id != o.id
    ensures Apart(Insert(side, q, o))
  {
    var p, r := Position(side, q, o.limitPrice), Insert(side, q, o);
    forall i, j | 0 <= i < j < |r| ensures r[i].id != r[j].id && r[i].seqNo != r[j].seqNo {
      assert r[i] == if i < p then q[i] else if i == p then o else q[i - 1];
      assert r[j] == if j < p then q[j] else if j == p then o else q[j - 1];
    }
  }

  /** Inserting an order younger than the whole queue keeps price-time order. */
  lemma {:induction false} InsertSorted(side: Side, q: seq<Order>, o: Order)
    requires Sorted(side, q) && forall i :: 0 <= i < |q| ==> q[i].seqNo < o.seqNo
    ensures Sorted(side, Insert(side, q, o))
  {
    var p := Position(side, q, o.limitPrice);
    var r := Insert(side, q, o);
    forall i | 0 <= i < |q| ensures if i < p then Before(side, q[i], o) else Before(side, o, q[i]) {
      if p < i { assert Before(side, q[p], q[i]); }
    }
    hide Before;
    forall i, j | 0 <= i < j < |r| ensures Before(side, r[i], r[j]) {
      assert r[i] == if i < p then q[i] else if i == p then o else q[i - 1];
      assert r[j] == if j < p then q[j] else if j == p then o else q[j - 1];
    }
  }

  predicate Submittable(o: Order) { o.id != NIL && o.qty >= 0 && o.remaining >= 0 }

  /** Validity seen from one side. */
  ghost predicate ValidFrom(side: Side, own: seq<Order>, opp: seq<Order>, arrival: nat, dedup: Window)
  {
    && SideOk(side, own, arrival) && SideOk(side.Opposite(), opp, arrival) && Disjoint(own, opp)
    && (own != [] && opp != [] ==> Better(side.Opposite(), own[0].limitPrice, opp[0].limitPrice))
    && dedup.Valid() && dedup.limit > 0
  }

  lemma {:induction false} EitherSide(b: FlatBook, side: Side)
    ensures b.Valid() <==> ValidFrom(side, b.Queue(side), b.Queue(side.Opposite()), b.arrival, b.dedup)
  {
    hide SideOk;
  }

  /** Matching leaves a valid book in which the incoming order, if anything of it is left, no longer crosses. */
  lemma {:induction false} AfterMatchKeeps(b: FlatBook, o: Order)
    requires b.Valid() && o.id != NIL && o.remaining >= 0
    ensures var m := Match(b.config, o, b.Queue(o.side.Opposite()), b.bookSeq);
      && AfterMatch(b, o, m).Valid() && m.left >= 0
      && (forall id :: AfterMatch(b, o, m).Live(id) ==> b.Live(id))
      && (m.left > 0 && m.queue != [] ==> !Crosses(o, m.queue[0].limitPrice, b.config.collarBps))
  {
    hide Crosses, Match, FlatBook.Valid;
    var opp, own := b.Queue(o.side.Opposite()), b.Queue(o.side);
    var m := Match(b.config, o, opp, b.bookSeq);
    EitherSide(b, o.side);
    EitherSide(AfterMatch(b, o, m), o.side);
    PushValid(b.dedup, o.id);
    assert forall i :: 0 <= i < |opp| ==> Resting(o.side.Opposite(), opp[i], b.arrival);
    MatchAccounts(b.config, o, opp, b.bookSeq);
    MatchShaves(b.config, o, opp, b.bookSeq);
    assert Disjoint(opp, own);
    ShavedKeeps(o.side.Opposite(), opp, m.queue, own, b.arrival, b.arrival + 1);
    LaterOk(o.side, own, b.arrival);
    assert Disjoint(own, m.queue);
  }

  lemma {:induction false} LaterOk(side: Side, q: seq<Order>, arrival: nat)
    requires SideOk(side, q, arrival)
    ensures SideOk(side, q, arrival + 1)
  {}

  /** Resting a newcomer that does not cross keeps the book valid. */
  lemma {:induction false} RestKeeps(b: FlatBook, o: Order)
    requires b.Valid() && b.arrival > 0 && Resting(o.side, o, b.arrival) && o.seqNo == b.arrival && !b.Live(o.id)
    requires forall i :: 0 <= i < |b.bids| ==> b.bids[i].seqNo < b.arrival
    requires forall i :: 0 <= i < |b.asks| ==> b.asks[i].seqNo < b.arrival
    requires var opp := b.Queue(o.side.Opposite()); opp != [] ==> !Crosses(o, opp[0].limitPrice, b.config.collarBps)
    ensures Rest(b, o).Valid()
  {
    hide Insert, FlatBook.Valid;
    var opp, own := b.Queue(o.side.Opposite()), b.Queue(o.side);
    EitherSide(b, o.side);
    EitherSide(Rest(b, o), o.side);
    assert SideOk(o.side, own, b.arrival - 1);
    InsertKeeps(o.side, own, o, opp, b.arrival - 1);
  }

  /** Submitting any order keeps the book sorted, FIFO at a price, uncrossed, free of empty orders and of reused ids. */
  lemma {:induction false} SubmitKeeps(b: FlatBook, order: Order)
    requires b.Valid() && Submittable(order)
    ensures Submit(b, order).0.Valid()
  {
    hide Crosses, Match, Rest, FlatBook.Valid;
    if !b.Seen(order.id) {
      var o := Admit(b, order);
      var m := Match(b.config, o, b.Queue(o.side.Opposite()), b.bookSeq);
      AfterMatchKeeps(b, o);
      if m.left != 0 && o.typ == Limit && o.tif == GTC {
        AfterMatchIsOlder(b, o);
        CrossesIgnoresRemaining(o, o.(remaining := m.left), if m.queue == [] then 0
          else m.queue[0].limitPrice, b.config.collarBps);
        RestKeeps(AfterMatch(b, o, m), o.(remaining := m.left));
      }
    }
  }

  lemma {:induction false} AfterMatchIsOlder(b: FlatBook, o: Order)
    requires b.Valid() && o.remaining >= 0
    ensures var after := AfterMatch(b, o, Match(b.config, o, b.Queue(o.side.Opposite()), b.bookSeq));
      && (forall i :: 0 <= i < |after.bids| ==> after.bids[i].seqNo <= b.arrival)
      && (forall i :: 0 <= i < |after.asks| ==> after.asks[i].seqNo <= b.arrival)
  {
    hide Crosses, Match;
    var opp := b.Queue(o.side.Opposite());
    assert SideOk(o.side.Opposite(), opp, b.arrival) && SideOk(o.side, b.Queue(o.side), b.arrival);
    MatchShaves(b.config, o, opp, b.bookSeq);
    var q := Match(b.config, o, opp, b.bookSeq).queue;
    forall j | 0 <= j < |q| ensures q[j].seqNo <= b.arrival {
      ShavedAt(opp, q, j);
      assert Resting(o.side.Opposite(), opp[|opp| - |q| + j], b.arrival);
    }
  }

  lemma {:induction false} WithoutKeeps(side: Side, q: seq<Order>, i: nat, other: seq<Order>, arrival: nat)
    requires i < |q| && SideOk(side, q, arrival) && Disjoint(q, other)
    ensures SideOk(side, Without(q, i), arrival) && Disjoint(Without(q, i), other)
    ensures Without(q, i) != [] ==> !Better(side, Without(q, i)[0].limitPrice, q[0].limitPrice)
    ensures !HasId(Without(q, i), q[i].id)
  {
    var r := Without(q, i);
    assert forall j :: 0 <= j < |r| ==> r[j] == q[if j < i then j else j + 1];
  }

  lemma {:induction false} CancelKeeps(b: FlatBook, id: Uuid)
    requires b.Valid()
    ensures Cancel(b, id).0.Valid() && !Cancel(b, id).0.Live(id)
  {
    if HasId(b.bids, id) {
      var i := IndexOf(b.bids, id);
      WithoutKeeps(Buy, b.bids, i, b.asks, b.arrival);
      if HasId(b.asks, id) { assert false; }
    } else if HasId(b.asks, id) {
      assert Disjoint(b.asks, b.bids);
      WithoutKeeps(Sell, b.asks, IndexOf(b.asks, id), b.bids, b.arrival);
    }
  }

  // ---- filled quantity ----------------------------------------------------------------------------

  lemma {:induction false} FilledSplit(f: seq<Fill>, g: seq<Fill>)
    ensures FilledQty(f + g) == FilledQty(f) + FilledQty(g)
  {
    if f == [] { assert f + g == g; } else {
      assert (f + g)[1..] == f[1..] + g;
      FilledSplit(f[1..], g);
    }
  }

  /** A submit fills between nothing and all of what came in. */
  lemma {:induction false} SubmitBounded(b: FlatBook, o: Order)
    requires b.Valid() && Submittable(o) && o.remaining > 0
    ensures 0 <= FilledQty(Submit(b, o).1.fills) <= o.remaining
  {
    hide Match, Insert, Crosses;
    if !b.Seen(o.id) {
      var a, opp := Admit(b, o), b.Queue(o.side.Opposite());
      assert forall i :: 0 <= i < |opp| ==> Resting(o.side.Opposite(), opp[i], b.arrival);
      MatchAccounts(b.config, a, opp, b.bookSeq);
      MatchIsGreedy(b.config, a, opp, b.bookSeq);
      FilledNonneg(b.config, a, opp, b.bookSeq, Match(b.config, a, opp, b.bookSeq).fills);
    }
  }

  lemma {:induction false} FilledNonneg(config: BookConfig, o: Order, q: seq<Order>, bookSeq: nat, fills: seq<Fill>)
    requires TookInOrder(config, o, q, bookSeq, fills)
    ensures FilledQty(fills) >= 0
  {
    hide Crosses;
    if fills != [] {
      assert Took(config, o, q[0], bookSeq + 1, fills[0]);
      forall i | 0 <= i < |fills[1..]| ensures Took(config, o, q[1..][i], bookSeq + 1 + 1 + i, fills[1..][i]) {
        assert Took(config, o, q[i + 1], bookSeq + 1 + (i + 1), fills[i + 1]);
      }
      FilledNonneg(config, o, q[1..], bookSeq + 1, fills[1..]);
    }
  }
}
