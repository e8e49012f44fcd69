/** The book as internal/book/book.go keeps it, nested price levels with an id index and a ring, updated in place
    and proved against the flat queues. */
module Book {
  import opened Types
  import opened Dedup
  import opened OrderBook
  import BookRuns

  datatype Level = Level(price: int, orders: seq<Order>)

  function Flatten(levels: seq<Level>): seq<Order>
  {
    if levels == [] then [] else levels[0].orders + Flatten(levels[1..])
  }

  /** Levels are never empty, hold one price each and are strictly ordered, best first. */
  ghost predicate LevelsOk(side: Side, levels: seq<Level>)
  {
    && (forall i :: 0 <= i < |levels| ==> LevelOk(levels[i]))
    && (forall i, j :: 0 <= i < j < |levels| ==> Better(side, levels[i].price, levels[j].price))
  }

  ghost predicate LevelOk(l: Level)
  {
    l.orders != [] && forall k :: 0 <= k < |l.orders| ==> l.orders[k].limitPrice == l.price
  }

  lemma {:induction false} FlattenSplit(a: seq<Level>, b: seq<Level>)
    ensures Flatten(a + b) == Flatten(a) + Flatten(b)
  {
    if a == [] { assert a + b == b; } else {
      assert (a + b)[1..] == a[1..] + b;
      FlattenSplit(a[1..], b);
    }
  }

  lemma {:induction false} FlattenAt(levels: seq<Level>, i: nat)
    requires i < |levels|
    ensures Flatten(levels) == Flatten(levels[..i]) + levels[i].orders + Flatten(levels[i + 1..])
  {
    assert levels == levels[..i] + levels[i..];
    FlattenSplit(levels[..i], levels[i..]);
    assert levels[i..][1..] == levels[i + 1..];
  }

  /** Where a price falls in the flat queue, from where it falls among the levels. */
  lemma {:induction false} PositionAmongLevels(side: Side, levels: seq<Level>, price: int, k: nat)
    requires LevelsOk(side, levels) && k <= |levels|
    requires forall i :: 0 <= i < k ==> !Better(side, price, levels[i].price)
    requires k < |levels| ==> Better(side, price, levels[k].price)
    ensures Position(side, Flatten(levels), price) == |Flatten(levels[..k])|
  {
    if k == 0 {
      if levels != [] { assert Flatten(levels)[0] == levels[0].orders[0]; }
    } else {
      var rest := Flatten(levels[1..]);
      assert levels[..k][1..] == levels[1..][..k - 1];
      PositionAmongLevels(side, levels[1..], price, k - 1);
      SkipLevel(side, levels[0].orders, rest, price);
    }
  }

  lemma {:induction false} SkipLevel(side: Side, a: seq<Order>, b: seq<Order>, price: int)
    requires forall i :: 0 <= i < |a| ==> !Better(side, price, a[i].limitPrice)
    ensures Position(side, a + b, price) == |a| + Position(side, b, price)
  {
    if a == [] { assert a + b == b; } else {
      assert (a + b)[1..] == a[1..] + b;
      SkipLevel(side, a[1..], b, price);
    }
  }

  /** The two cases of `rest`: joining the level at its price, or opening a level at its place. */
  lemma {:induction false} JoinLevel(side: Side, levels: seq<Level>, o: Order, k: nat)
    requires LevelsOk(side, levels) && k < |levels| && levels[k].price == o.limitPrice
    ensures var l := levels[k := Level(levels[k].price, levels[k].orders + [o])];
      LevelsOk(side, l) && Flatten(l) == Insert(side, Flatten(levels), o)
  {
    hide Flatten, LevelsOk, Insert;
    var l := levels[k := Level(levels[k].price, levels[k].orders + [o])];
    JoinLevelOk(side, levels, o, k);
    AheadOfNext(side, levels, k);
    PositionAmongLevels(side, levels, o.limitPrice, k + 1);
    FlattenAt(levels, k);
    FlattenAt(l, k);
    assert l[..k] == levels[..k] && l[k + 1..] == levels[k + 1..];
    FlattenOne(levels, k);
    var a, m, c := Flatten(levels[..k]), levels[k].orders, Flatten(levels[k + 1..]);
    InsertBetween(side, a + m, c, o);
    assert (a + m) + [o] + c == a + (m + [o]) + c;
  }

  lemma {:induction false} JoinLevelOk(side: Side, levels: seq<Level>, o: Order, k: nat)
    requires LevelsOk(side, levels) && k < |levels| && levels[k].price == o.limitPrice
    ensures LevelsOk(side, levels[k := Level(levels[k].price, levels[k].orders + [o])])
  {
    assert LevelOk(levels[k]);
  }

  lemma {:induction false} AheadOfNext(side: Side, levels: seq<Level>, k: nat)
    requires LevelsOk(side, levels) && k < |levels|
    ensures forall i :: 0 <= i < k + 1 ==> !Better(side, levels[k].price, levels[i].price)
    ensures k + 1 < |levels| ==> Better(side, levels[k].price, levels[k + 1].price)
  {
    assert forall i :: 0 <= i < k ==> Better(side, levels[i].price, levels[k].price);
  }

  lemma {:induction false} InsertBetween(side: Side, a: seq<Order>, c: seq<Order>, o: Order)
    requires Position(side, a + c, o.limitPrice) == |a|
    ensures Insert(side, a + c, o) == a + [o] + c
  {
    assert (a + c)[..|a|] == a && (a + c)[|a|..] == c;
  }

  lemma {:induction false} FlattenOne(levels: seq<Level>, k: nat)
    requires k < |levels|
    ensures Flatten(levels[..k + 1]) == Flatten(levels[..k]) + levels[k].orders
  {
    assert levels[..k + 1] == levels[..k] + [levels[k]];
    FlattenSplit(levels[..k], [levels[k]]);
    assert [levels[k]][1..] == [];
    assert Flatten([levels[k]]) == levels[k].orders + [];
  }

  lemma {:induction false} OpenLevel(side: Side, levels: seq<Level>, o: Order, k: nat)
    requires LevelsOk(side, levels) && k <= |levels|
    requires forall i :: 0 <= i < k ==> Better(side, levels[i].price, o.limitPrice)
    requires k < |levels| ==> Better(side, o.limitPrice, levels[k].price)
    ensures var l := levels[..k] + [Level(o.limitPrice, [o])] + levels[k..];
      LevelsOk(side, l) && Flatten(l) == Insert(side, Flatten(levels), o)
  {
    hide Flatten, LevelsOk, Insert;
    var l := levels[..k] + [Level(o.limitPrice, [o])] + levels[k..];
    NotBehind(side, levels, o.limitPrice, k);
    PositionAmongLevels(side, levels, o.limitPrice, k);
    OpenLevelOk(side, levels, o, k);
    FlattenAt(l, k);
    assert l[..k] == levels[..k] && l[k + 1..] == levels[k..];
    assert levels == levels[..k] + levels[k..];
    FlattenSplit(levels[..k], levels[k..]);
    InsertBetween(side, Flatten(levels[..k]), Flatten(levels[k..]), o);
  }

  lemma {:induction false} NotBehind(side: Side, levels: seq<Level>, price: int, k: nat)
    requires k <= |levels| && forall i :: 0 <= i < k ==> Better(side, levels[i].price, price)
    ensures forall i :: 0 <= i < k ==> !Better(side, price, levels[i].price)
  {}

  lemma {:induction false} OpenLevelOk(side: Side, levels: seq<Level>, o: Order, k: nat)
    requires LevelsOk(side, levels) && k <= |levels|
    requires forall i :: 0 <= i < k ==> Better(side, levels[i].price, o.limitPrice)
    requires k < |levels| ==> Better(side, o.limitPrice, levels[k].price)
    ensures LevelsOk(side, levels[..k] + [Level(o.limitPrice, [o])] + levels[k..])
  {
    var l := levels[..k] + [Level(o.limitPrice, [o])] + levels[k..];
    assert forall i :: 0 <= i < |l| ==>
      l[i] == if i < k then levels[i] else if i == k then Level(o.limitPrice, [o]) else levels[i - 1];
    forall i | k <= i < |levels| ensures Better(side, o.limitPrice, levels[i].price) {
      if k < i { assert Better(side, levels[k].price, levels[i].price); }
    }
  }

  /** The index holds exactly the resting orders, each as it rests. */
  ghost predicate Indexed(byID: map<Uuid, Order>, p: seq<Order>, q: seq<Order>)
  {
    && (forall i :: 0 <= i < |p| ==> p[i].id in byID && byID[p[i].id] == p[i])
    && (forall i :: 0 <= i < |q| ==> q[i].id in byID && byID[q[i].id] == q[i])
    && (forall id :: id in byID ==> HasId(p, id) || HasId(q, id))
  }

  class Book {
    const config: BookConfig
    var bids: seq<Level>
    var asks: seq<Level>
    var byID: map<Uuid, Order>
    var arrival: nat
    var bookSeq: nat
    var ring: IdRing

    function Levels(side: Side): seq<Level>
      reads this
    {
      if side == Buy then bids else asks
    }

    ghost function Flat(): FlatBook
      requires ring.Valid()
      reads this, ring, ring.slots
    {
      FlatBook(config, Flatten(bids), Flatten(asks), arrival, bookSeq, ring.View())
    }

    /** The three representations agree: levels, index and ring. */
    ghost predicate Coherent()
      reads this, ring, ring.slots
    {
      LevelsOk(Buy, bids) && LevelsOk(Sell, asks) && ring.Valid() && Indexed(byID, Flatten(bids), Flatten(asks))
    }

    ghost predicate Valid()
      reads this, ring, ring.slots
    {
      Coherent() && Flat().Valid()
    }

    constructor (config: BookConfig, dedupWindow: int)
      ensures Valid() && fresh(ring) && fresh(ring.slots)
      ensures Flat() == EmptyBook(config, dedupWindow)
    {
      this.config := config;
      bids, asks := [], [];
      byID := map[];
      arrival, bookSeq := 0, 0;
      ring := new IdRing(if dedupWindow < 1 then 1 else dedupWindow);
      new;
      hide FlatBook.Valid, LevelsOk, Indexed, Flatten, IdRing.Valid;
      EmptyIsValid(config, dedupWindow);
      EmptyLevels();
      assert Flat() == EmptyBook(config, dedupWindow);
    }

    method SetLevels(side: Side, levels: seq<Level>)
      modifies this`bids, this`asks
      ensures Levels(side) == levels && Levels(side.Opposite()) == old(Levels(side.Opposite()))
    {
      if side == Buy { bids := levels; } else { asks := levels; }
    }

    /** `rest`: binary search for the level, then append to it or open one. */
    method Rest(o: Order)
      requires LevelsOk(o.side, Levels(o.side))
      modifies this`bids, this`asks, this`byID
      ensures LevelsOk(o.side, Levels(o.side))
      ensures Flatten(Levels(o.side)) == Insert(o.side, Flatten(old(Levels(o.side))), o)
      ensures Levels(o.side.Opposite()) == old(Levels(o.side.Opposite()))
      ensures byID == old(byID)[o.id := o]
    {
      var levels := Levels(o.side);
      var lo, hi := 0, |levels|;
      while lo < hi
        invariant 0 <= lo <= hi <= |levels|
        invariant forall i :: 0 <= i < lo ==> Better(o.side, levels[i].price, o.limitPrice)
        invariant forall i :: hi <= i < |levels| ==> !Better(o.side, levels[i].price, o.limitPrice)
      {
        var mid := lo + (hi - lo) / 2;
        if !Better(o.side, levels[mid].price, o.limitPrice) { hi := mid; } else { lo := mid + 1; }
      }
      if lo < |levels| && levels[lo].price == o.limitPrice {
        JoinLevel(o.side, levels, o, lo);
        SetLevels(o.side, levels[lo := Level(levels[lo].price, levels[lo].orders + [o])]);
      } else {
        OpenLevel(o.side, levels, o, lo);
        SetLevels(o.side, levels[..lo] + [Level(o.limitPrice, [o])] + levels[lo..]);
      }
      byID := byID[o.id := o];
    }

    /** One turn of the matching loop: the oldest order of the best opposite level trades at its price. */
    method TakeBest(o: Order) returns (left: int, fill: Fill)
      requires var levels := Levels(o.side.Opposite()); levels != [] && LevelsOk(o.side.Opposite(), levels)
      requires o.remaining > 0
      requires Tradable(byID, Flatten(Levels(o.side.Opposite())), Flatten(Levels(o.side)))
      modifies this`bids, this`asks, this`byID, this`bookSeq
      ensures Levels(o.side) == old(Levels(o.side)) && LevelsOk(o.side.Opposite(), Levels(o.side.Opposite()))
      ensures var q := old(Flatten(Levels(o.side.Opposite())));
        q != [] && Traded(config, o, q, old(bookSeq), left, fill, Flatten(Levels(o.side.Opposite())), bookSeq)
      ensures Tradable(byID, Flatten(Levels(o.side.Opposite())), Flatten(Levels(o.side)))
    {
      hide Tradable, LevelsOk;
      var levels := Levels(o.side.Opposite());
      ghost var q, own := Flatten(levels), Flatten(Levels(o.side));
      BestIsFirst(o.side.Opposite(), levels);
      var best := levels[0];
      var maker := best.orders[0];
      var qty := o.remaining;
      if maker.remaining < qty { qty := maker.remaining; }
      bookSeq := bookSeq + 1;
      fill := Fill(FillId(config.shard, config.venue, config.symbol, bookSeq), best.price, qty,
                   o.id, o.account, o.side, maker.id, maker.account);
      left := o.remaining - qty;
      var traded := maker.(remaining := maker.remaining - qty);
      if traded.remaining == 0 {
        byID := byID - {maker.id};
        PopBest(o.side.Opposite(), levels);
        if |best.orders| == 1 {
          SetLevels(o.side.Opposite(), levels[1..]);
        } else {
          SetLevels(o.side.Opposite(), [Level(best.price, best.orders[1..])] + levels[1..]);
        }
        TradableWithout(old(byID), q, own, 0);
      } else {
        byID := byID[maker.id := traded];
        ShrinkBest(o.side.Opposite(), levels, traded);
        SetLevels(o.side.Opposite(), [Level(best.price, [traded] + best.orders[1..])] + levels[1..]);
        TradableShrunk(old(byID), q, own, traded);
      }
    }

    /** `Submit`: match while the best opposite level crosses, then rest, cancel or complete. */
    method Submit(order: Order) returns (res: SubmitResult)
      requires Valid() && Submittable(order)
      modifies this, ring, ring.slots
      ensures Valid() && ring == old(ring) && ring.slots == old(ring.slots)
      ensures (Flat(), res) == OrderBook.Submit(old(Flat()), order)
    {
      hide FlatBook.Valid, LevelsOk, OrderBook.Submit, Flatten, Indexed, Executed;
      ghost var before := Flat();
      SubmitKeeps(before, order);
      SubmitUnfolds(before, order);
      SeenByIndex(byID, before, order.id);
      var live := order.id in byID;
      var remembered := ring.Seen(order.id);
      if live || remembered {
        return SubmitResult([], Cancelled, 0, Duplicate, true);
      }
      EnteredIsValid(before, order.id);
      ring.Remember(order.id);
      arrival := arrival + 1;
      res := Execute(
        order.(seqNo := arrival, remaining := if order.remaining == 0 then order.qty else order.remaining));
    }

    /** Matching an admitted order and settling its remainder. */
    method Execute(o: Order) returns (res: SubmitResult)
      requires Valid() && o.id != NIL && o.remaining >= 0 && !Flat().Live(o.id)
      modifies this`bids, this`asks, this`byID, this`bookSeq
      ensures LevelsOk(Buy, bids) && LevelsOk(Sell, asks) && Indexed(byID, Flatten(bids), Flatten(asks))
      ensures (Flat(), res) == Executed(old(Flat()), o)
    {
      hide FlatBook.Valid, Match, LevelsOk, Conclude, Flatten, Indexed, Tradable;
      ghost var before := Flat();
      ReadyToTrade(byID, before, o.side);
      var fills, left := MatchLoop(o);
      TradedStaysOut(before, o);
      TradedIsIndexed(byID, Flat(), o.side);
      res := Settle(o, fills, left);
    }

    /** The switch at the end of `Submit`. */
    method Settle(o: Order, fills: seq<Fill>, left: int) returns (res: SubmitResult)
      requires LevelsOk(Buy, bids) && LevelsOk(Sell, asks) && ring.Valid()
      requires Indexed(byID, Flatten(bids), Flatten(asks))
      requires !Flat().Live(o.id)
      modifies this`bids, this`asks, this`byID
      ensures LevelsOk(Buy, bids) && LevelsOk(Sell, asks) && Indexed(byID, Flatten(bids), Flatten(asks))
      ensures (Flat(), res) == Conclude(old(Flat()), o, left, fills)
    {
      hide LevelsOk, Insert;
      if left == 0 {
        res := SubmitResult(fills, Complete, 0, NoReason, false);
      } else if o.typ == Limit && o.tif == GTC {
        RestedIsIndexed(byID, Flat(), o.(remaining := left));
        Rest(o.(remaining := left));
        res := SubmitResult(fills, Rested, left, NoReason, false);
      } else {
        res := SubmitResult(fills, Cancelled, left, CancelReasonOf(o), false);
      }
    }

    /** `cancelReason`: whether liquidity is left on the opposite side tells a collar clip from an empty book. */
    function CancelReasonOf(o: Order): (r: Reason)
      requires LevelsOk(o.side.Opposite(), Levels(o.side.Opposite()))
      reads this
      ensures r == CancelReason(o, Flatten(Levels(o.side.Opposite())))
    {
      if o.typ != Market then IocRemainder
      else if |Levels(o.side.Opposite())| > 0 then
        BestIsFirst(o.side.Opposite(), Levels(o.side.Opposite())); CollarBreach
      else BookExhausted
    }

    /** The matching loop. */
    method MatchLoop(o: Order) returns (fills: seq<Fill>, left: int)
      requires LevelsOk(o.side.Opposite(), Levels(o.side.Opposite())) && o.remaining >= 0
      requires Tradable(byID, Flatten(Levels(o.side.Opposite())), Flatten(Levels(o.side)))
      modifies this`bids, this`asks, this`byID, this`bookSeq
      ensures Levels(o.side) == old(Levels(o.side)) && LevelsOk(o.side.Opposite(), Levels(o.side.Opposite()))
      ensures Tradable(byID, Flatten(Levels(o.side.Opposite())), Flatten(Levels(o.side)))
      ensures var m := Match(config, o, old(Flatten(Levels(o.side.Opposite()))), old(bookSeq));
        left == m.left && fills == m.fills && Flatten(Levels(o.side.Opposite())) == m.queue
          && bookSeq == old(bookSeq) + |m.fills|
    {
      hide Tradable, LevelsOk, Crosses, Match, Traded, Flatten;
      fills, left := [], o.remaining;
      ghost var m := Match(config, o, Flatten(Levels(o.side.Opposite())), bookSeq);
      while left > 0 && Levels(o.side.Opposite()) != []
        invariant left >= 0 && bookSeq == old(bookSeq) + |fills|
        invariant Levels(o.side) == old(Levels(o.side)) && LevelsOk(o.side.Opposite(), Levels(o.side.Opposite()))
        invariant Tradable(byID, Flatten(Levels(o.side.Opposite())), Flatten(Levels(o.side)))
        invariant var t := Match(config, o.(remaining := left), Flatten(Levels(o.side.Opposite())), bookSeq);
          m.left == t.left && m.queue == t.queue && m.fills == fills + t.fills
        decreases left
      {
        FirstHasSome(byID, Flatten(Levels(o.side.Opposite())), Flatten(Levels(o.side)));
        ghost var trail := Match(config, o.(remaining := left), Flatten(Levels(o.side.Opposite())), bookSeq);
        BestIsFirst(o.side.Opposite(), Levels(o.side.Opposite()));
        var cur := o.(remaining := left);
        CrossesIgnoresRemaining(o, cur, Flatten(Levels(o.side.Opposite()))[0].limitPrice, config.collarBps);
        if !Crosses(o, Levels(o.side.Opposite())[0].price, config.collarBps) {
          break;
        }
        ghost var q, seqNo := Flatten(Levels(o.side.Opposite())), bookSeq;
        var fill: Fill;
        left, fill := TakeBest(cur);
        fills := fills + [fill];
        assert bookSeq == seqNo + 1 by {
          TradedCounts(config, cur, q, seqNo, left, fill, Flatten(Levels(o.side.Opposite())), bookSeq);
        }
        OneTurn(config, cur, q, seqNo, left, fill, Flatten(Levels(o.side.Opposite())));
      }
      FlattenNone();
      Stopped(config, o.(remaining := left), Flatten(Levels(o.side.Opposite())), bookSeq);
    }

    /** The order at a place of its side leaves its level, which goes when it is empty. */
    method TakeOut(id: Uuid, li: nat, oi: nat)
      requires Valid() && id in byID
      requires li < |Levels(byID[id].side)| && oi < |Levels(byID[id].side)[li].orders|
      requires Levels(byID[id].side)[li].orders[oi].id == id
      modifies this`bids, this`asks, this`byID
      ensures Valid() && (Flat(), Some(old(byID[id].remaining))) == OrderBook.Cancel(old(Flat()), id)
    {
      hide FlatBook.Valid, LevelsOk, Flatten, OrderBook.Cancel;
      ghost var before := Flat();
      CancelKeeps(before, id);
      var o := byID[id];
      var levels := Levels(o.side);
      var orders := levels[li].orders[..oi] + levels[li].orders[oi + 1..];
      var next := if orders == [] then levels[..li] + levels[li + 1..]
        else levels[li := Level(levels[li].price, orders)];
      RemovedAt(byID, before, levels, li, oi, id);
      SetLevels(o.side, next);
      byID := byID - {id};
    }

    /** `Cancel`: find the level by price, the order within it by id, and take it out. */
    method Cancel(id: Uuid) returns (r: Option<int>)
      requires Valid()
      modifies this`bids, this`asks, this`byID
      ensures Valid() && (Flat(), r) == OrderBook.Cancel(old(Flat()), id)
    {
      hide FlatBook.Valid, LevelsOk, Flatten, OrderBook.Cancel;
      ghost var before := Flat();
      SeenByIndex(byID, before, id);
      if id !in byID { CancelAbsent(before, id); return None; }
      var o := byID[id];
      IndexedSide(byID, before, id);
      var levels := Levels(o.side);
      var li := 0;
      while li < |levels|
        invariant 0 <= li <= |levels| && bids == old(bids) && asks == old(asks) && byID == old(byID)
        invariant forall k :: 0 <= k < li ==> !HasId(levels[k].orders, id)
      {
        var lv := levels[li];
        if lv.price == o.limitPrice {
          var oi := 0;
          while oi < |lv.orders|
            invariant 0 <= oi <= |lv.orders| && bids == old(bids) && asks == old(asks) && byID == old(byID)
            invariant forall j :: 0 <= j < oi ==> lv.orders[j].id != id
          {
            if lv.orders[oi].id == id {
              TakeOut(id, li, oi);
              return Some(o.remaining);
            }
            oi := oi + 1;
          }
        } else {
          NotAtAnotherPrice(byID, before, levels, li, id);
        }
        li := li + 1;
      }
      InSomeLevel(levels, id);
      assert false;
      r := None;
    }

    /** `Depth` of one side. */
    method Depth(side: Side, n: nat) returns (out: seq<DepthLevel>)
      requires LevelsOk(side, Levels(side))
      ensures out == OrderBook.Depth(Flatten(Levels(side)), n)
    {
      var levels := Levels(side);
      GroupedLevels(side, levels);
      out := [];
      var i := 0;
      while i < |levels| && i < n
        invariant 0 <= i <= |levels| && i <= n
        invariant out == Grouped(Flatten(levels))[..i]
      {
        var q := 0;
        var k := 0;
        while k < |levels[i].orders|
          invariant 0 <= k <= |levels[i].orders|
          invariant q + RestingQty(levels[i].orders[k..]) == RestingQty(levels[i].orders)
        {
          q := q + levels[i].orders[k].remaining;
          k := k + 1;
        }
        out := out + [DepthLevel(levels[i].price, q)];
        i := i + 1;
      }
    }

    method Collect(levels: seq<Level>) returns (out: seq<Order>)
      ensures out == Flatten(levels)
    {
      out := [];
      var i := 0;
      while i < |levels|
        invariant 0 <= i <= |levels| && out + Flatten(levels[i..]) == Flatten(levels)
      {
        ghost var done := out;
        var k := 0;
        while k < |levels[i].orders|
          invariant 0 <= k <= |levels[i].orders| && out == done + levels[i].orders[..k]
        {
          out := out + [levels[i].orders[k]];
          k := k + 1;
        }
        assert levels[i..][1..] == levels[i + 1..];
        assert done + Flatten(levels[i..]) == done + levels[i].orders + Flatten(levels[i + 1..]);
        i := i + 1;
      }
    }

    /** `Snapshot`: every resting order with both counters, in arrival order. */
    method TakeSnapshot() returns (s: BookRuns.Snapshot)
      requires ring.Valid()
      ensures s == BookRuns.TakeSnapshot(Flat())
    {
      var b := Collect(bids);
      var a := Collect(asks);
      s := BookRuns.Snapshot(bookSeq, arrival, BookRuns.SortBySeq(b + a));
    }

    /** One turn of the loading loop. */
    method Reload(o: Order)
      requires Coherent() && ring.slots.Length > 0 && o.id != NIL && !Flat().Live(o.id)
      modifies this`bids, this`asks, this`byID, ring, ring.slots
      ensures Coherent() && ring.slots == old(ring.slots)
      ensures Flat() == OrderBook.Rest(old(Flat()).(dedup := old(Flat()).dedup.Push(o.id)), o)
    {
      hide LevelsOk, Insert;
      ghost var b := Flat();
      ring.Remember(o.id);
      RestedIsIndexed(byID, b, o);
      hide Indexed;
      Rest(o);
    }

    /** `LoadSnapshot`: forget everything, then rest and remember the orders in arrival order. */
    method LoadSnapshot(s: BookRuns.Snapshot)
      requires ring.Valid() && ring.slots.Length > 0
      requires RealIds(s.orders) && DistinctIds(s.orders)
      modifies this
      ensures fresh(ring) && fresh(ring.slots) && Coherent()
      ensures Flat() == BookRuns.LoadSnapshot(config, old(ring.slots.Length), s)
    {
      hide LevelsOk, Insert, IdRing.Valid, Indexed, OrderBook.Rest, RealIds, DistinctIds;
      bids, asks := [], [];
      byID := map[];
      ring := new IdRing(ring.slots.Length);
      bookSeq, arrival := 0, 0;
      EmptyLevels();
      var ordered := BookRuns.SortBySeq(s.orders);
      SortKeepsIds(s.orders);
      ghost var empty := Flat();
      var i := 0;
      while i < |ordered|
        invariant 0 <= i <= |ordered| && fresh(ring) && fresh(ring.slots) && Coherent() && ring.slots.Length > 0
        invariant forall k :: i <= k < |ordered| ==> !Flat().Live(ordered[k].id)
        invariant BookRuns.LoadOrders(Flat(), ordered[i..]) == BookRuns.LoadOrders(empty, ordered)
      {
        var o := ordered[i];
        assert ordered[i..][0] == o && ordered[i..][1..] == ordered[i + 1..];
        i := i + 1;
        if o.remaining <= 0 { continue; }
        ghost var b := Flat();
        LiveAfterRest(b.(dedup := b.dedup.Push(o.id)), o, ordered, i);
        Reload(o);
      }
      assert ordered[i..] == [];
      bookSeq := s.bookSeq;
      arrival := s.arrival;
    }
  }

  predicate RealIds(q: seq<Order>) { forall i :: 0 <= i < |q| ==> q[i].id != NIL }
  predicate DistinctIds(q: seq<Order>) { forall i, j :: 0 <= i < j < |q| ==> q[i].id != q[j].id }

  /** The book with an order's arrival counted and its id remembered. */
  function Entered(b: FlatBook, id: Uuid): FlatBook { b.(arrival := b.arrival + 1, dedup := b.dedup.Push(id)) }

  /** An admitted order matched and concluded. */
  function Executed(b: FlatBook, o: Order): (FlatBook, SubmitResult)
  {
    var m := Match(b.config, o, b.Queue(o.side.Opposite()), b.bookSeq);
    Conclude(b.WithQueue(o.side.Opposite(), m.queue).(bookSeq := b.bookSeq + |m.fills|), o, m.left, m.fills)
  }

  lemma {:induction false} SubmitUnfolds(b: FlatBook, order: Order)
    ensures b.Seen(order.id) ==> OrderBook.Submit(b, order) == (b, SubmitResult([], Cancelled, 0, Duplicate, true))
    ensures !b.Seen(order.id) ==> OrderBook.Submit(b, order) == Executed(Entered(b, order.id), Admit(b, order))
  {
    hide Match, Conclude;
  }

  lemma {:induction false} EnteredIsValid(b: FlatBook, id: Uuid)
    requires b.Valid() && id != NIL
    ensures Entered(b, id).Valid()
  {
    PushValid(b.dedup, id);
    LaterOk(Buy, b.bids, b.arrival);
    LaterOk(Sell, b.asks, b.arrival);
    hide SideOk, Window.Valid;
  }

  lemma {:induction false} TradedStaysOut(b: FlatBook, o: Order)
    requires b.Valid() && o.id != NIL && o.remaining >= 0 && !b.Live(o.id)
    ensures !b.WithQueue(o.side.Opposite(), Match(b.config, o, b.Queue(o.side.Opposite()), b.bookSeq).queue).Live(o.id)
  {
    hide Match;
    AfterMatchKeeps(b, o);
  }

  /** What one turn does to the flat queue, the fill counter and the taker. */
  ghost predicate Traded(config: BookConfig, o: Order, q: seq<Order>, seqNo: nat, left: int, fill: Fill, q': seq<Order>,
      seqNo': nat)
    requires q != []
  {
    var take := Min(o.remaining, q[0].remaining);
    && left == o.remaining - take && seqNo' == seqNo + 1 && fill == FillFor(config, o, q[0], take, seqNo + 1)
    && q' == if q[0].remaining == take then q[1..] else [q[0].(remaining := q[0].remaining - take)] + q[1..]
  }

  lemma {:induction false} TradedCounts(config: BookConfig, o: Order, q: seq<Order>, seqNo: nat, left: int, fill: Fill,
      q': seq<Order>, seqNo': nat)
    requires q != [] && Traded(config, o, q, seqNo, left, fill, q', seqNo')
    ensures seqNo' == seqNo + 1
  {}

  lemma {:induction false} OneTurn(config: BookConfig, o: Order, q: seq<Order>, seqNo: nat, left: int, fill: Fill,
      q': seq<Order>)
    requires q != [] && o.remaining > 0 && q[0].remaining > 0 && Crosses(o, q[0].limitPrice, config.collarBps)
    requires Traded(config, o, q, seqNo, left, fill, q', seqNo + 1)
    ensures 0 <= left < o.remaining
    ensures var t, t' := Match(config, o, q, seqNo), Match(config, o.(remaining := left), q', seqNo + 1);
      t.left == t'.left && t.queue == t'.queue && t.fills == [fill] + t'.fills
  {
    hide Crosses;
  }

  lemma {:induction false} FlattenNone()
    ensures Flatten([]) == []
  {}

  lemma {:induction false} Stopped(config: BookConfig, o: Order, q: seq<Order>, seqNo: nat)
    requires o.remaining <= 0 || q == [] || !Crosses(o, q[0].limitPrice, config.collarBps)
    ensures Match(config, o, q, seqNo) == Matched(o.remaining, q, [])
  {}

  lemma {:induction false} PopBest(side: Side, levels: seq<Level>)
    requires levels != [] && LevelsOk(side, levels)
    ensures LevelsOk(side, levels[1..])
    ensures |levels[0].orders| == 1 ==> Flatten(levels[1..]) == Flatten(levels)[1..]
    ensures var l := [Level(levels[0].price, levels[0].orders[1..])] + levels[1..];
      |levels[0].orders| > 1 ==> LevelsOk(side, l) && Flatten(l) == Flatten(levels)[1..]
  {
    assert LevelOk(levels[0]);
    var l := [Level(levels[0].price, levels[0].orders[1..])] + levels[1..];
    assert l[1..] == levels[1..];
    assert Flatten(levels)[1..] == levels[0].orders[1..] + Flatten(levels[1..]);
    if |levels[0].orders| > 1 { HeadReplaced(side, levels, l[0]); }
  }

  lemma {:induction false} ShrinkBest(side: Side, levels: seq<Level>, o: Order)
    requires levels != [] && LevelsOk(side, levels) && o.limitPrice == levels[0].price
    ensures var l := [Level(levels[0].price, [o] + levels[0].orders[1..])] + levels[1..];
      LevelsOk(side, l) && Flatten(l) == [o] + Flatten(levels)[1..]
  {
    assert LevelOk(levels[0]);
    var l := [Level(levels[0].price, [o] + levels[0].orders[1..])] + levels[1..];
    assert l[1..] == levels[1..];
    assert Flatten(levels)[1..] == levels[0].orders[1..] + Flatten(levels[1..]);
    HeadReplaced(side, levels, l[0]);
  }

  lemma {:induction false} HeadReplaced(side: Side, levels: seq<Level>, head: Level)
    requires levels != [] && LevelsOk(side, levels) && LevelOk(head) && head.price == levels[0].price
    ensures LevelsOk(side, [head] + levels[1..])
  {}

  /** A side ready to trade: its orders are apart from each other and from the other side, indexed and not empty. */
  ghost predicate Tradable(byID: map<Uuid, Order>, q: seq<Order>, own: seq<Order>)
  {
    Apart(q) && Disjoint(q, own) && Indexed(byID, q, own) && forall i :: 0 <= i < |q| ==> q[i].remaining > 0
  }

  lemma {:induction false} FirstHasSome(byID: map<Uuid, Order>, q: seq<Order>, own: seq<Order>)
    requires Tradable(byID, q, own)
    ensures q != [] ==> q[0].remaining > 0
  {}

  lemma {:induction false} BestIsFirst(side: Side, levels: seq<Level>)
    requires levels != [] && LevelsOk(side, levels)
    ensures levels[0].orders != [] && Flatten(levels) != [] && Flatten(levels)[0] == levels[0].orders[0]
    ensures levels[0].orders[0].limitPrice == levels[0].price
  {
    assert LevelOk(levels[0]);
  }

  lemma {:induction false} TradableWithout(byID: map<Uuid, Order>, q: seq<Order>, own: seq<Order>, i: nat)
    requires i < |q| && Tradable(byID, q, own)
    ensures Tradable(byID - {q[i].id}, Without(q, i), own)
    ensures i == 0 ==> Without(q, i) == q[1..]
  {
    var r, m := Without(q, i), byID - {q[i].id};
    assert forall j :: 0 <= j < |r| ==> r[j] == q[if j < i then j else j + 1];
    forall id | id in m ensures HasId(r, id) || HasId(own, id) { HasIdWithout(q, i, id); }
    assert Apart(r) && Disjoint(r, own) && forall j :: 0 <= j < |r| ==> r[j].id != q[i].id;
    hide Apart, Disjoint, Without, HasId;
  }

  lemma {:induction false} HasIdWithout(q: seq<Order>, i: nat, id: Uuid)
    requires i < |q| && id != q[i].id
    ensures HasId(Without(q, i), id) <==> HasId(q, id)
  {
    var r := Without(q, i);
    if HasId(q, id) {
      var k :| 0 <= k < |q| && q[k].id == id;
      assert r[if k < i then k else k - 1].id == id;
    }
    if HasId(r, id) {
      var k :| 0 <= k < |r| && r[k].id == id;
      assert q[if k < i then k else k + 1].id == id;
    }
  }

  lemma {:induction false} EmptyIsValid(config: BookConfig, window: int)
    ensures EmptyBook(config, window).Valid()
  {}

  lemma {:induction false} TradableShrunk(byID: map<Uuid, Order>, q: seq<Order>, own: seq<Order>, o: Order)
    requires q != [] && Tradable(byID, q, own) && o == q[0].(remaining := o.remaining) && o.remaining > 0
    ensures Tradable(byID[o.id := o], [o] + q[1..], own)
  {
    var r := [o] + q[1..];
    forall id | id in byID[o.id := o] ensures HasId(r, id) || HasId(own, id) {
      if id == o.id { assert r[0].id == id; }
      else if HasId(q, id) { var k :| 0 <= k < |q| && q[k].id == id; assert r[k].id == id; }
    }
  }

  lemma {:induction false} SeenByIndex(byID: map<Uuid, Order>, b: FlatBook, id: Uuid)
    requires Indexed(byID, b.bids, b.asks)
    ensures id in byID <==> b.Live(id)
  {}

  lemma {:induction false} ReadyToTrade(byID: map<Uuid, Order>, b: FlatBook, side: Side)
    requires b.Valid() && Indexed(byID, b.bids, b.asks)
    ensures Tradable(byID, b.Queue(side.Opposite()), b.Queue(side))
  {
    EitherSide(b, side.Opposite());
    hide Sorted, Better;
    assert forall i :: 0 <= i < |b.Queue(side.Opposite())| ==>
      Resting(side.Opposite(), b.Queue(side.Opposite())[i], b.arrival);
  }

  lemma {:induction false} TradedIsIndexed(byID: map<Uuid, Order>, b: FlatBook, side: Side)
    requires Tradable(byID, b.Queue(side.Opposite()), b.Queue(side))
    ensures Indexed(byID, b.bids, b.asks)
  {}

  lemma {:induction false} RestedIsIndexed(byID: map<Uuid, Order>, b: FlatBook, o: Order)
    requires Indexed(byID, b.bids, b.asks) && !b.Live(o.id)
    ensures var r := Rest(b, o); Indexed(byID[o.id := o], r.bids, r.asks)
  {
    IndexedInsert(byID, b.Queue(o.side.Opposite()), b.Queue(o.side), o);
  }

  lemma {:induction false} IndexedInsert(byID: map<Uuid, Order>, q: seq<Order>, own: seq<Order>, o: Order)
    requires Indexed(byID, q, own) && !HasId(q, o.id) && !HasId(own, o.id)
    ensures Indexed(byID[o.id := o], q, Insert(o.side, own, o))
  {
    var p := Position(o.side, own, o.limitPrice);
    var r := Insert(o.side, own, o);
    assert forall i :: 0 <= i < |r| ==> r[i] == if i < p then own[i] else if i == p then o else own[i - 1];
    forall id | id in byID[o.id := o] ensures HasId(q, id) || HasId(r, id) {
      if id == o.id { assert r[p].id == id; }
      else if HasId(own, id) {
        var k :| 0 <= k < |own| && own[k].id == id;
        assert r[if k < p then k else k + 1].id == id;
      }
    }
  }

  lemma {:induction false} CancelAbsent(b: FlatBook, id: Uuid)
    requires !b.Live(id)
    ensures OrderBook.Cancel(b, id) == (b, None)
  {}

  /** The index entry of a live order is the order itself, on the side it says. */
  lemma {:induction false} IndexedSide(byID: map<Uuid, Order>, b: FlatBook, id: Uuid)
    requires b.Valid() && Indexed(byID, b.bids, b.asks) && id in byID
    ensures byID[id].id == id && HasId(b.Queue(byID[id].side), id)
  {
    if HasId(b.bids, id) {
      var k :| 0 <= k < |b.bids| && b.bids[k].id == id;
      assert Resting(Buy, b.bids[k], b.arrival);
    } else {
      var k :| 0 <= k < |b.asks| && b.asks[k].id == id;
      assert Resting(Sell, b.asks[k], b.arrival);
    }
  }

  lemma {:induction false} FlattenIndex(levels: seq<Level>, k: nat, j: nat)
    requires k < |levels| && j < |levels[k].orders|
    ensures |Flatten(levels[..k])| + j < |Flatten(levels)|
    ensures Flatten(levels)[|Flatten(levels[..k])| + j] == levels[k].orders[j]
  {
    FlattenAt(levels, k);
  }

  lemma {:induction false} NotAtAnotherPrice(byID: map<Uuid, Order>, b: FlatBook, levels: seq<Level>, k: nat, id: Uuid)
    requires Indexed(byID, b.bids, b.asks) && id in byID && k < |levels|
    requires LevelsOk(byID[id].side, levels) && Flatten(levels) == b.Queue(byID[id].side)
    requires levels[k].price != byID[id].limitPrice
    ensures !HasId(levels[k].orders, id)
  {
    if HasId(levels[k].orders, id) {
      var j :| 0 <= j < |levels[k].orders| && levels[k].orders[j].id == id;
      assert LevelOk(levels[k]);
      FlattenIndex(levels, k, j);
    }
  }

  lemma {:induction false} InSomeLevel(levels: seq<Level>, id: Uuid)
    requires HasId(Flatten(levels), id)
    ensures exists k :: 0 <= k < |levels| && HasId(levels[k].orders, id)
  {
    var i :| 0 <= i < |Flatten(levels)| && Flatten(levels)[i].id == id;
    if i < |levels[0].orders| {
      assert HasId(levels[0].orders, id);
    } else {
      assert Flatten(levels[1..])[i - |levels[0].orders|].id == id;
      InSomeLevel(levels[1..], id);
      var k :| 0 <= k < |levels[1..]| && HasId(levels[1..][k].orders, id);
      assert HasId(levels[k + 1].orders, id);
    }
  }

  lemma {:induction false} IndexOfUnique(q: seq<Order>, i: nat)
    requires i < |q| && Apart(q)
    ensures IndexOf(q, q[i].id) == i && HasId(q, q[i].id)
  {
    assert HasId(q, q[i].id);
    var r := IndexOf(q, q[i].id);
    assert q[r].id == q[i].id;
  }

  /** Taking one order out of its level, and the level out of the side when it was alone, is the flat removal. */
  lemma {:induction false} RemovedAt(byID: map<Uuid, Order>, b: FlatBook, levels: seq<Level>, li: nat, oi: nat,
      id: Uuid)
    requires b.Valid() && Indexed(byID, b.bids, b.asks) && id in byID
    requires LevelsOk(byID[id].side, levels) && Flatten(levels) == b.Queue(byID[id].side)
    requires li < |levels| && oi < |levels[li].orders| && levels[li].orders[oi].id == id
    ensures var orders := Without(levels[li].orders, oi);
      var next := if orders == [] then levels[..li] + levels[li + 1..]
        else levels[li := Level(levels[li].price, orders)];
      var b' := b.WithQueue(byID[id].side, Flatten(next));
      && LevelsOk(byID[id].side, next)
      && OrderBook.Cancel(b, id) == (b', Some(byID[id].remaining))
      && Indexed(byID - {id}, b'.bids, b'.asks)
  {
    hide FlatBook.Valid, LevelsOk, Flatten, OrderBook.Cancel;
    var at := |Flatten(levels[..li])| + oi;
    FlattenIndex(levels, li, oi);
    RemovedFlat(byID[id].side, levels, li, oi);
    FlatRemoval(byID, b, byID[id].side, at);
  }

  lemma {:induction false} FlatRemoval(byID: map<Uuid, Order>, b: FlatBook, side: Side, at: nat)
    requires b.Valid() && Indexed(byID, b.bids, b.asks) && at < |b.Queue(side)|
    ensures var o, b' := b.Queue(side)[at], b.WithQueue(side, Without(b.Queue(side), at));
      OrderBook.Cancel(b, o.id) == (b', Some(o.remaining))
      && o.id in byID && byID[o.id] == o && Indexed(byID - {o.id}, b'.bids, b'.asks)
  {
    var q, own := b.Queue(side), b.Queue(side.Opposite());
    ReadyToTrade(byID, b, side.Opposite());
    SidesSwap(side);
    OnlyOnOneSide(b, side, at);
    EitherSide(b, side);
    IndexOfUnique(q, at);
    hide FlatBook.Valid, ValidFrom, Without;
    TradableWithout(byID, q, own, at);
  }

  lemma {:induction false} SidesSwap(side: Side)
    ensures side.Opposite().Opposite() == side
  {}

  lemma {:induction false} OnlyOnOneSide(b: FlatBook, side: Side, at: nat)
    requires b.Valid() && at < |b.Queue(side)|
    ensures !HasId(b.Queue(side.Opposite()), b.Queue(side)[at].id)
  {}

  lemma {:induction false} RemovedFlat(side: Side, levels: seq<Level>, li: nat, oi: nat)
    requires LevelsOk(side, levels) && li < |levels| && oi < |levels[li].orders|
    ensures var lv := levels[li];
      var orders := Without(lv.orders, oi);
      var next := if orders == [] then levels[..li] + levels[li + 1..] else levels[li := Level(lv.price, orders)];
      LevelsOk(side, next) && |Flatten(levels[..li])| + oi < |Flatten(levels)|
      && Flatten(next) == Without(Flatten(levels), |Flatten(levels[..li])| + oi)
  {
    var lv := levels[li];
    var orders := Without(lv.orders, oi);
    var next := if orders == [] then levels[..li] + levels[li + 1..] else levels[li := Level(lv.price, orders)];
    RemovedLevelsOk(side, levels, li, oi);
    hide LevelsOk, Flatten;
    FlattenAt(levels, li);
    var a, c := Flatten(levels[..li]), Flatten(levels[li + 1..]);
    if orders == [] {
      FlattenSplit(levels[..li], levels[li + 1..]);
    } else {
      FlattenAt(next, li);
      assert next[..li] == levels[..li] && next[li + 1..] == levels[li + 1..];
    }
    assert Flatten(next) == a + orders + c;
    WithoutMiddle(a, lv.orders, c, oi);
  }

  lemma {:induction false} WithoutMiddle(a: seq<Order>, m: seq<Order>, c: seq<Order>, i: nat)
    requires i < |m|
    ensures Without(a + m + c, |a| + i) == a + Without(m, i) + c
  {}

  lemma {:induction false} RemovedLevelsOk(side: Side, levels: seq<Level>, li: nat, oi: nat)
    requires LevelsOk(side, levels) && li < |levels| && oi < |levels[li].orders|
    ensures LevelsOk(side, levels[..li] + levels[li + 1..])
    ensures Without(levels[li].orders, oi) != [] ==>
      LevelsOk(side, levels[li := Level(levels[li].price, Without(levels[li].orders, oi))])
  {
    var gone := levels[..li] + levels[li + 1..];
    assert forall k :: 0 <= k < |gone| ==> gone[k] == levels[if k < li then k else k + 1];
    var orders := Without(levels[li].orders, oi);
    assert LevelOk(levels[li]);
    assert forall k :: 0 <= k < |orders| ==> orders[k] == levels[li].orders[if k < oi then k else k + 1];
  }

  /** The levels summed one by one are the flat queue grouped by price. */
  lemma {:induction false} GroupedLevels(side: Side, levels: seq<Level>)
    requires LevelsOk(side, levels)
    ensures |Grouped(Flatten(levels))| == |levels|
    ensures forall i :: 0 <= i < |levels| ==>
      Grouped(Flatten(levels))[i] == DepthLevel(levels[i].price, RestingQty(levels[i].orders))
  {
    if levels != [] {
      GroupedLevels(side, levels[1..]);
      assert LevelOk(levels[0]);
      if |levels| > 1 { assert Better(side, levels[0].price, levels[1].price); }
      GroupedOne(levels[0].price, levels[0].orders, Flatten(levels[1..]));
    }
  }

  lemma {:induction false} GroupedOne(price: int, a: seq<Order>, b: seq<Order>)
    requires a != [] && forall i :: 0 <= i < |a| ==> a[i].limitPrice == price
    requires Grouped(b) != [] ==> Grouped(b)[0].price != price
    ensures Grouped(a + b) == [DepthLevel(price, RestingQty(a))] + Grouped(b)
  {
    var ab := a + b;
    assert ab != [] && ab[0] == a[0] && ab[1..] == a[1..] + b;
    if |a| == 1 { assert a[1..] + b == b && a[1..] == []; } else { GroupedOne(price, a[1..], b); }
  }

  lemma {:induction false} EmptyLevels()
    ensures Flatten([]) == [] && LevelsOk(Buy, []) && LevelsOk(Sell, []) && Indexed(map[], [], [])
  {}

  lemma {:induction false} SortKeepsIds(q: seq<Order>)
    requires RealIds(q) && DistinctIds(q)
    ensures RealIds(BookRuns.SortBySeq(q)) && DistinctIds(BookRuns.SortBySeq(q))
  {
    var s := BookRuns.SortBySeq(q);
    BookRuns.SortBySeqSorted(q);
    forall i | 0 <= i < |s| ensures s[i].id != NIL && s[i] in q { assert s[i] in multiset(s); }
    forall i, j | 0 <= i < j < |s| ensures s[i].id != s[j].id {
      if s[i] == s[j] {
        BookRuns.TwiceIn(s, i, j);
        OnceById(q, s[i]);
      } else {
        var k :| 0 <= k < |q| && q[k] == s[i];
        var l :| 0 <= l < |q| && q[l] == s[j];
      }
    }
  }

  lemma {:induction false} OnceById(q: seq<Order>, x: Order)
    requires DistinctIds(q)
    ensures multiset(q)[x] <= 1
  {
    if x in q {
      var k :| 0 <= k < |q| && q[k] == x;
      assert q == q[..k] + [x] + q[k + 1..];
      assert x !in q[..k] && x !in q[k + 1..];
    }
  }

  lemma {:induction false} LiveAfterRest(b: FlatBook, o: Order, ordered: seq<Order>, i: nat)
    requires 0 < i <= |ordered| && ordered[i - 1] == o && RealIds(ordered) && DistinctIds(ordered)
    requires forall k :: i - 1 <= k < |ordered| ==> !b.Live(ordered[k].id)
    ensures o.id != NIL && !b.Live(o.id)
    ensures forall k :: i <= k < |ordered| ==> !OrderBook.Rest(b, o).Live(ordered[k].id)
  {
    forall k | i <= k < |ordered| ensures !OrderBook.Rest(b, o).Live(ordered[k].id) {
      var own := b.Queue(o.side);
      var p := Position(o.side, own, o.limitPrice);
      var r := Insert(o.side, own, o);
      assert forall x :: 0 <= x < |r| ==> r[x] == if x < p then own[x] else if x == p then o else own[x - 1];
      assert !HasId(own, ordered[k].id);
      assert ordered[i - 1].id != ordered[k].id;
    }
  }
}
