/** Whole runs of a book: what they keep, what they count, and what a reloaded snapshot does afterwards. */
module BookRuns {
  import opened Types
  import opened Dedup
  import opened OrderBook

  datatype Op = SubmitOp(order: Order) | CancelOp(id: Uuid)
  datatype OpResult = Submitted(result: SubmitResult) | Withdrawn(qty: Option<int>)

  function Apply(b: FlatBook, op: Op): (FlatBook, OpResult)
  {
    match op
    case SubmitOp(o) => var (b', r) := Submit(b, o); (b', Submitted(r))
    case CancelOp(id) => var (b', q) := Cancel(b, id); (b', Withdrawn(q))
  }

  function Run(b: FlatBook, ops: seq<Op>): FlatBook
    decreases |ops|
  {
    if ops == [] then b else Run(Apply(b, ops[0]).0, ops[1..])
  }

  function Results(b: FlatBook, ops: seq<Op>): seq<OpResult>
    decreases |ops|
  {
    if ops == [] then [] else [Apply(b, ops[0]).1] + Results(Apply(b, ops[0]).0, ops[1..])
  }

  ghost predicate Runnable(ops: seq<Op>)
  {
    forall i :: 0 <= i < |ops| && ops[i].SubmitOp? ==> Submittable(ops[i].order)
  }

  lemma {:induction false} ApplyKeeps(b: FlatBook, op: Op)
    requires b.Valid() && (op.SubmitOp? ==> Submittable(op.order))
    ensures Apply(b, op).0.Valid()
  {
    hide Submit, Cancel, FlatBook.Valid;
    match op
    case SubmitOp(o) => SubmitKeeps(b, o);
    case CancelOp(id) => CancelKeeps(b, id);
  }

  /** Every book reachable by submits and cancels is strictly sorted, FIFO at a price, uncrossed, without empty
      orders and without two orders under one id. */
  lemma {:induction false} RunKeeps(b: FlatBook, ops: seq<Op>)
    requires b.Valid() && Runnable(ops)
    ensures Run(b, ops).Valid()
    decreases |ops|
  {
    hide Apply, FlatBook.Valid;
    if ops != [] {
      ApplyKeeps(b, ops[0]);
      RunKeeps(Apply(b, ops[0]).0, ops[1..]);
    }
  }

  // ---- conservation -------------------------------------------------------------------------------

  /** Quantity entering, executing and leaving unexecuted on one side in one operation. */
  datatype Flow = Flow(entered: int, filled: int, dropped: int)

  function FlowOf(b: FlatBook, op: Op, side: Side): Flow
  {
    match op
    case SubmitOp(o) =>
      var r := Submit(b, o).1;
      Flow(if r.duplicate || o.side != side then 0 else Admit(b, o).remaining,
           FilledQty(r.fills),
           if o.side == side && r.disposition == Cancelled then r.remaining else 0)
    case CancelOp(id) =>
      Flow(0, 0, if HasId(b.Queue(side), id) && Cancel(b, id).1.Some? then Cancel(b, id).1.value else 0)
  }

  function TotalFlow(b: FlatBook, ops: seq<Op>, side: Side): Flow
    decreases |ops|
  {
    if ops == [] then Flow(0, 0, 0)
    else
      var f := FlowOf(b, ops[0], side);
      var rest := TotalFlow(Apply(b, ops[0]).0, ops[1..], side);
      Flow(f.entered + rest.entered, f.filled + rest.filled, f.dropped + rest.dropped)
  }

  lemma {:induction false} RestingSplit(p: seq<Order>, q: seq<Order>)
    ensures RestingQty(p + q) == RestingQty(p) + RestingQty(q)
  {
    if p == [] { assert p + q == q; } else {
      assert (p + q)[1..] == p[1..] + q;
      RestingSplit(p[1..], q);
    }
  }

  lemma {:induction false} InsertAdds(side: Side, q: seq<Order>, o: Order)
    ensures RestingQty(Insert(side, q, o)) == RestingQty(q) + o.remaining
  {
    var p := Position(side, q, o.limitPrice);
    RestingSplit(q[..p], [o] + q[p..]);
    RestingSplit([o], q[p..]);
    RestingSplit(q[..p], q[p..]);
    assert q[..p] + q[p..] == q && q[..p] + ([o] + q[p..]) == Insert(side, q, o);
    assert [o][1..] == [];
  }

  lemma {:induction false} WithoutSubtracts(q: seq<Order>, i: nat)
    requires i < |q|
    ensures RestingQty(Without(q, i)) == RestingQty(q) - q[i].remaining
  {
    RestingSplit(q[..i], q[i..]);
    RestingSplit(q[..i], q[i + 1..]);
    assert q[..i] + q[i..] == q && q[i..][1..] == q[i + 1..];
  }

  lemma {:induction false} SubmitConserves(b: FlatBook, o: Order, side: Side)
    requires b.Valid() && Submittable(o)
    ensures var f := FlowOf(b, SubmitOp(o), side);
      RestingQty(b.Queue(side)) + f.entered == RestingQty(Submit(b, o).0.Queue(side)) + f.filled + f.dropped
  {
    hide Match, Crosses, Insert;
    if !b.Seen(o.id) {
      var a := Admit(b, o);
      var opp := b.Queue(o.side.Opposite());
      assert forall i :: 0 <= i < |opp| ==> Resting(o.side.Opposite(), opp[i], b.arrival);
      var m := Match(b.config, a, opp, b.bookSeq);
      MatchAccounts(b.config, a, opp, b.bookSeq);
      InsertAdds(o.side, AfterMatch(b, a, m).Queue(o.side), a.(remaining := m.left));
    }
  }

  lemma {:induction false} CancelConserves(b: FlatBook, id: Uuid, side: Side)
    requires b.Valid()
    ensures var f := FlowOf(b, CancelOp(id), side);
      RestingQty(b.Queue(side)) + f.entered == RestingQty(Cancel(b, id).0.Queue(side)) + f.filled + f.dropped
  {
    if HasId(b.bids, id) {
      WithoutSubtracts(b.bids, IndexOf(b.bids, id));
      assert !HasId(b.asks, id);
    } else if HasId(b.asks, id) {
      WithoutSubtracts(b.asks, IndexOf(b.asks, id));
    }
  }

  /** Over any run, per side: what rested at the start plus what entered is what rests at the end plus what was
      filled plus what was cancelled. */
  lemma {:induction false} RunConserves(b: FlatBook, ops: seq<Op>, side: Side)
    requires b.Valid() && Runnable(ops)
    ensures var f := TotalFlow(b, ops, side);
      RestingQty(b.Queue(side)) + f.entered == RestingQty(Run(b, ops).Queue(side)) + f.filled + f.dropped
    decreases |ops|
  {
    if ops != [] {
      hide FlowOf, Submit, Cancel, FlatBook.Valid, FlatBook.Queue;
      var next := Apply(b, ops[0]).0;
      ApplyKeeps(b, ops[0]);
      RunConserves(next, ops[1..], side);
      match ops[0] {
        case SubmitOp(o) => SubmitConserves(b, o, side);
        case CancelOp(id) => CancelConserves(b, id, side);
      }
    }
  }

  // ---- fill numbering and suppression over runs ----------------------------------------------------

  function FillsOf(r: OpResult): seq<Fill> { if r.Submitted? then r.result.fills else [] }

  function AllFills(b: FlatBook, ops: seq<Op>): seq<Fill>
    decreases |ops|
  {
    if ops == [] then [] else FillsOf(Apply(b, ops[0]).1) + AllFills(Apply(b, ops[0]).0, ops[1..])
  }

  ghost predicate Numbered(config: BookConfig, fills: seq<Fill>, from: nat)
  {
    forall i :: 0 <= i < |fills| ==> fills[i].id == FillId(config.shard, config.venue, config.symbol, from + 1 + i)
  }

  lemma {:induction false} ApplyNumbers(b: FlatBook, op: Op)
    requires b.Valid() && (op.SubmitOp? ==> Submittable(op.order))
    ensures Numbered(b.config, FillsOf(Apply(b, op).1), b.bookSeq)
    ensures Apply(b, op).0.bookSeq == b.bookSeq + |FillsOf(Apply(b, op).1)| && Apply(b, op).0.config == b.config
  {
    hide Match, Crosses, Insert;
    if op.SubmitOp? && !b.Seen(op.order.id) {
      MatchNumbers(b, Admit(b, op.order));
    }
  }

  lemma {:induction false} MatchNumbers(b: FlatBook, o: Order)
    requires b.Valid() && o.remaining >= 0
    ensures Numbered(b.config, Match(b.config, o, b.Queue(o.side.Opposite()), b.bookSeq).fills, b.bookSeq)
  {
    hide Match, Crosses;
    var opp := b.Queue(o.side.Opposite());
    assert forall i :: 0 <= i < |opp| ==> Resting(o.side.Opposite(), opp[i], b.arrival);
    MatchIsGreedy(b.config, o, opp, b.bookSeq);
    var fills := Match(b.config, o, opp, b.bookSeq).fills;
    assert forall i :: 0 <= i < |fills| ==> Took(b.config, o, opp[i], b.bookSeq + 1 + i, fills[i]);
  }

  /** The fills of a run carry consecutive numbers, so no identity is ever minted twice. */
  lemma {:induction false} RunNumbers(b: FlatBook, ops: seq<Op>)
    requires b.Valid() && Runnable(ops)
    ensures Numbered(b.config, AllFills(b, ops), b.bookSeq)
    ensures Run(b, ops).bookSeq == b.bookSeq + |AllFills(b, ops)|
    ensures forall i, j :: 0 <= i < j < |AllFills(b, ops)| ==> AllFills(b, ops)[i].id != AllFills(b, ops)[j].id
    decreases |ops|
  {
    if ops != [] {
      hide Apply, FlatBook.Valid;
      ApplyNumbers(b, ops[0]);
      ApplyKeeps(b, ops[0]);
      RunNumbers(Apply(b, ops[0]).0, ops[1..]);
    }
  }

  /** Ids admitted by a run, in order. */
  function AdmittedIds(b: FlatBook, ops: seq<Op>): seq<Uuid>
    decreases |ops|
  {
    if ops == [] then []
    else (if ops[0].SubmitOp? && !b.Seen(ops[0].order.id) then [ops[0].order.id] else [])
         + AdmittedIds(Apply(b, ops[0]).0, ops[1..])
  }

  predicate Submits(ops: seq<Op>, id: Uuid)
  {
    exists j :: 0 <= j < |ops| && ops[j].SubmitOp? && ops[j].order.id == id
  }

  lemma {:induction false} RunRemembers(b: FlatBook, ops: seq<Op>)
    ensures Run(b, ops).dedup == PushAll(b.dedup, AdmittedIds(b, ops))
    ensures Admitted(b.dedup, AdmittedIds(b, ops)) == |AdmittedIds(b, ops)|
    ensures forall id :: id in AdmittedIds(b, ops) ==> Submits(ops, id)
    decreases |ops|
  {
    hide Submit, Cancel, FlatBook.Live;
    if ops != [] {
      var next := Apply(b, ops[0]).0;
      ApplyRemembers(b, ops[0]);
      RunRemembers(next, ops[1..]);
      var ids, rest := AdmittedIds(b, ops), AdmittedIds(next, ops[1..]);
      if ops[0].SubmitOp? && !b.Seen(ops[0].order.id) {
        assert ids[0] == ops[0].order.id && ids[1..] == rest;
      } else {
        assert ids == rest;
      }
      forall id | id in ids ensures Submits(ops, id) {
        if id in rest {
          var j :| 0 <= j < |ops[1..]| && ops[1..][j].SubmitOp? && ops[1..][j].order.id == id;
          assert ops[j + 1].order.id == id;
        }
      }
    }
  }

  lemma {:induction false} ApplyRemembers(b: FlatBook, op: Op)
    ensures Apply(b, op).0.dedup ==
      if op.SubmitOp? && !b.Seen(op.order.id) then b.dedup.Push(op.order.id) else b.dedup
  {
    hide Match, Insert;
  }

  /** After an id is admitted, a repeat of it is suppressed exactly while the order rests or fewer than the window's
      length of newer orders have been admitted. */
  lemma {:induction false} SuppressionWindow(b: FlatBook, o: Order, ops: seq<Op>)
    requires b.Valid() && Submittable(o) && !b.Seen(o.id)
    requires Runnable(ops) && !Submits(ops, o.id)
    ensures var b1 := Submit(b, o).0;
      Run(b1, ops).Seen(o.id) <==> Run(b1, ops).Live(o.id) || |AdmittedIds(b1, ops)| < b.dedup.limit
  {
    var b1 := Submit(b, o).0;
    assert b1.dedup == b.dedup.Push(o.id) by { hide Match, Insert; }
    hide Submit;
    RunRemembers(b1, ops);
    var ids := AdmittedIds(b1, ops);
    assert !Submits(ops, NIL);
    SuppressedUntilLimitNewer(b.dedup, o.id, ids);
  }

  // ---- snapshots ---------------------------------------------------------------------------------

  datatype Snapshot = Snapshot(bookSeq: nat, arrival: nat, orders: seq<Order>)

  function InsertBySeq(q: seq<Order>, o: Order): (r: seq<Order>)
    ensures |r| == |q| + 1
  {
    if q == [] || o.seqNo < q[0].seqNo then [o] + q else [q[0]] + InsertBySeq(q[1..], o)
  }

  /** sort.Slice by arrival number. */
  function SortBySeq(q: seq<Order>): (r: seq<Order>)
    ensures |r| == |q|
  {
    if q == [] then [] else InsertBySeq(SortBySeq(q[1..]), q[0])
  }

  function TakeSnapshot(b: FlatBook): Snapshot
  {
    Snapshot(b.bookSeq, b.arrival, SortBySeq(b.bids + b.asks))
  }

  /** The loop of `LoadSnapshot`: rest and remember each order that still has something left. */
  function LoadOrders(b: FlatBook, orders: seq<Order>): FlatBook
    decreases |orders|
  {
    if orders == [] then b
    else if orders[0].remaining <= 0 then LoadOrders(b, orders[1..])
    else LoadOrders(Rest(b.(dedup := b.dedup.Push(orders[0].id)), orders[0]), orders[1..])
  }

  function LoadSnapshot(config: BookConfig, window: nat, s: Snapshot): FlatBook
  {
    LoadOrders(EmptyBook(config, window), SortBySeq(s.orders)).(bookSeq := s.bookSeq, arrival := s.arrival)
  }

  ghost predicate BySeq(q: seq<Order>) { forall i, j :: 0 <= i < j < |q| ==> q[i].seqNo <= q[j].seqNo }

  lemma {:induction false} InsertBySeqAdds(q: seq<Order>, o: Order)
    ensures multiset(InsertBySeq(q, o)) == multiset(q) + multiset{o}
  {
    if !(q == [] || o.seqNo < q[0].seqNo) {
      InsertBySeqAdds(q[1..], o);
      assert q == [q[0]] + q[1..];
    }
  }

  lemma {:induction false} InsertBySeqSorted(q: seq<Order>, o: Order)
    requires BySeq(q)
    ensures BySeq(InsertBySeq(q, o))
    ensures InsertBySeq(q, o)[0].seqNo == if q == [] then o.seqNo else Min(o.seqNo, q[0].seqNo)
  {
    if !(q == [] || o.seqNo < q[0].seqNo) {
      InsertBySeqSorted(q[1..], o);
    }
  }

  lemma {:induction false} SortBySeqSorted(q: seq<Order>)
    ensures BySeq(SortBySeq(q)) && multiset(SortBySeq(q)) == multiset(q)
  {
    hide InsertBySeq;
    if q != [] {
      hide BySeq;
      SortBySeqSorted(q[1..]);
      InsertBySeqSorted(SortBySeq(q[1..]), q[0]);
      InsertBySeqAdds(SortBySeq(q[1..]), q[0]);
      assert q == [q[0]] + q[1..];
    }
  }

  ghost predicate Younger(q: seq<Order>, orders: seq<Order>)
  {
    forall x, y :: x in q && y in orders ==> x.seqNo < y.seqNo
  }

  lemma {:induction false} RestAdds(b: FlatBook, o: Order, side: Side)
    requires Sorted(side, b.Queue(side)) && forall x :: x in b.Queue(side) ==> x.seqNo < o.seqNo
    ensures Sorted(side, Rest(b, o).Queue(side))
    ensures forall x :: x in Rest(b, o).Queue(side) <==> x in b.Queue(side) || (x == o && o.side == side)
  {
    var q := b.Queue(side);
    if o.side == side {
      var p := Position(side, q, o.limitPrice);
      InsertSorted(side, q, o);
      assert q[..p] + q[p..] == q;
    }
  }

  /** Resting orders one by one in arrival order builds a sorted queue of exactly those orders. */
  lemma {:induction false} LoadBuilds(b: FlatBook, orders: seq<Order>, side: Side)
    requires Sorted(side, b.Queue(side)) && BySeq(orders) && Younger(b.Queue(side), orders)
    requires forall i, j :: 0 <= i < j < |orders| ==> orders[i].seqNo != orders[j].seqNo
    requires forall i :: 0 <= i < |orders| ==> orders[i].remaining > 0
    ensures Sorted(side, LoadOrders(b, orders).Queue(side))
    ensures forall o :: o in LoadOrders(b, orders).Queue(side) <==>
      o in b.Queue(side) || (o in orders && o.side == side)
    decreases |orders|
  {
    if orders != [] {
      var o, rest := orders[0], orders[1..];
      assert o in orders;
      var next := Rest(b.(dedup := b.dedup.Push(o.id)), o);
      RestAdds(b.(dedup := b.dedup.Push(o.id)), o, side);
      hide Rest;
      assert orders == [o] + rest;
      forall y | y in rest ensures o.seqNo < y.seqNo {
        var j :| 0 <= j < |rest| && rest[j] == y;
        assert orders[j + 1] == y;
      }
      LoadBuilds(next, rest, side);
    }
  }

  lemma {:induction false} LoadKeepsRest(b: FlatBook, orders: seq<Order>)
    ensures var r := LoadOrders(b, orders);
      r.config == b.config && r.arrival == b.arrival && r.bookSeq == b.bookSeq && r.dedup.limit == b.dedup.limit
    ensures b.dedup.Valid() && (forall i :: 0 <= i < |orders| ==> orders[i].id != NIL) ==>
      LoadOrders(b, orders).dedup.Valid()
    ensures forall id :: id in LoadOrders(b, orders).dedup.recent ==> id in b.dedup.recent || HasId(orders, id)
    decreases |orders|
  {
    if orders != [] {
      var next := if orders[0].remaining <= 0 then b else Rest(b.(dedup := b.dedup.Push(orders[0].id)), orders[0]);
      LoadKeepsRest(next, orders[1..]);
      if b.dedup.Valid() && orders[0].id != NIL { PushValid(b.dedup, orders[0].id); }
      forall id | id in LoadOrders(b, orders).dedup.recent ensures id in b.dedup.recent || HasId(orders, id) {
        if id in next.dedup.recent {
          if id !in b.dedup.recent { assert orders[0].id == id; }
        } else {
          var k :| 0 <= k < |orders[1..]| && orders[1..][k].id == id;
          assert orders[k + 1].id == id;
        }
      }
    }
  }

  /** Price-time order leaves no freedom: two sorted queues of the same orders are the same queue. */
  lemma {:induction false} SortedUnique(side: Side, p: seq<Order>, q: seq<Order>)
    requires Sorted(side, p) && Sorted(side, q) && forall o :: o in p <==> o in q
    ensures p == q
    decreases |p|
  {
    assert q != [] ==> q[0] in q;
    assert p != [] ==> p[0] in p;
    if p == [] || q == [] {
    } else {
      var i :| 0 <= i < |q| && q[i] == p[0];
      var j :| 0 <= j < |p| && p[j] == q[0];
      assert p[0] == q[0] by {
        if i > 0 && j > 0 { NeverBothAhead(side, p[0], q[0]); }
      }
      forall o ensures o in p[1..] <==> o in q[1..] {
        if o in p[1..] { RestOfSorted(side, p, q, o); }
        if o in q[1..] { RestOfSorted(side, q, p, o); }
      }
      SortedUnique(side, p[1..], q[1..]);
      assert p == [p[0]] + p[1..] && q == [q[0]] + q[1..];
    }
  }

  lemma {:induction false} RestOfSorted(side: Side, p: seq<Order>, q: seq<Order>, o: Order)
    requires Sorted(side, p) && p != [] && q != [] && p[0] == q[0] && o in p[1..] && forall x :: x in p <==> x in q
    ensures o in q[1..]
  {
    var i :| 0 <= i < |p[1..]| && p[1..][i] == o;
    assert Before(side, p[0], p[i + 1]) && p[i + 1] in q;
    var k :| 0 <= k < |q| && q[k] == o;
    if k > 0 { assert q[1..][k - 1] == o; }
  }

  lemma {:induction false} NeverBothAhead(side: Side, a: Order, b: Order)
    ensures !(Before(side, a, b) && Before(side, b, a))
  {}

  /** The orders of a snapshot in the order they are loaded. */
  function Loaded(b: FlatBook): seq<Order> { SortBySeq(SortBySeq(b.bids + b.asks)) }

  /** They are exactly the resting orders, in strictly increasing arrival order. */
  lemma {:induction false} LoadedIsTheBook(b: FlatBook)
    requires b.Valid()
    ensures BySeq(Loaded(b)) && forall o :: o in Loaded(b) <==> o in b.bids || o in b.asks
    ensures forall i, j :: 0 <= i < j < |Loaded(b)| ==> Loaded(b)[i].seqNo != Loaded(b)[j].seqNo
  {
    var all := b.bids + b.asks;
    SortBySeqSorted(all);
    SortBySeqSorted(SortBySeq(all));
    assert multiset(Loaded(b)) == multiset(all);
    forall o ensures o in Loaded(b) <==> o in b.bids || o in b.asks {
      assert o in Loaded(b) <==> o in multiset(Loaded(b));
      assert o in all <==> o in multiset(all);
    }
    AllApart(b);
    DistinctSeqs(Loaded(b), all);
  }

  lemma {:induction false} RestsOnItsSide(b: FlatBook, o: Order)
    requires b.Valid()
    ensures o in b.bids ==> o.side == Buy && o.remaining > 0 && o.id != NIL && HasId(b.bids, o.id)
    ensures o in b.asks ==> o.side == Sell && o.remaining > 0 && o.id != NIL && HasId(b.asks, o.id)
  {
    if o in b.bids { var k :| 0 <= k < |b.bids| && b.bids[k] == o; assert Resting(Buy, b.bids[k], b.arrival); }
    if o in b.asks { var k :| 0 <= k < |b.asks| && b.asks[k] == o; assert Resting(Sell, b.asks[k], b.arrival); }
  }

  lemma {:induction false} AllApart(b: FlatBook)
    requires b.Valid()
    ensures Apart(b.bids + b.asks)
  {
    var all := b.bids + b.asks;
    forall i, j | 0 <= i < j < |all| ensures all[i].id != all[j].id && all[i].seqNo != all[j].seqNo {
      if i < |b.bids| <= j { assert all[j] == b.asks[j - |b.bids|]; }
    }
  }

  /** A rearrangement of orders with distinct arrival numbers has distinct arrival numbers. */
  lemma {:induction false} DistinctSeqs(s: seq<Order>, all: seq<Order>)
    requires multiset(s) == multiset(all) && Apart(all)
    ensures forall i, j :: 0 <= i < j < |s| ==> s[i].seqNo != s[j].seqNo
  {
    forall i, j | 0 <= i < j < |s| ensures s[i].seqNo != s[j].seqNo {
      var x, y := s[i], s[j];
      assert x in multiset(s) && y in multiset(s);
      assert x in all && y in all;
      if x == y {
        TwiceIn(s, i, j);
        OnceIn(all, x);
      } else {
        var k :| 0 <= k < |all| && all[k] == x;
        var l :| 0 <= l < |all| && all[l] == y;
      }
    }
  }

  lemma {:induction false} TwiceIn(s: seq<Order>, i: nat, j: nat)
    requires i < j < |s| && s[i] == s[j]
    ensures multiset(s)[s[i]] >= 2
  {
    assert s == s[..i] + [s[i]] + s[i + 1..j] + [s[j]] + s[j + 1..];
  }

  lemma {:induction false} OnceIn(s: seq<Order>, x: Order)
    requires Apart(s)
    ensures multiset(s)[x] <= 1
  {
    if x in s {
      var k :| 0 <= k < |s| && s[k] == x;
      assert s == s[..k] + [x] + s[k + 1..];
      assert x !in s[..k] && x !in s[k + 1..];
    }
  }

  /** Loading a snapshot of any valid book rebuilds the same queues in the same order and the same counters; only
      the memory of departed orders is lost. */
  lemma {:induction false} SnapshotRoundTrip(b: FlatBook)
    requires b.Valid()
    ensures var r := LoadSnapshot(b.config, b.dedup.limit, TakeSnapshot(b));
      r == b.(dedup := r.dedup) && r.Valid() && r.dedup.limit == b.dedup.limit
      && forall id :: id in r.dedup.recent ==> b.Live(id)
  {
    hide FlatBook.Valid, FlatBook.Live;
    var empty := EmptyBook(b.config, b.dedup.limit);
    assert b.dedup.limit > 0 by { LimitPositive(b); }
    LoadedIsTheBook(b);
    QueueRebuilt(b, Buy);
    QueueRebuilt(b, Sell);
    forall o | o in Loaded(b) ensures o.id != NIL && b.Live(o.id) { RestsOnItsSide(b, o); LiveIf(b, o.id); }
    LoadKeepsRest(empty, Loaded(b));
    hide LoadOrders, SortBySeq;
    var r := LoadSnapshot(b.config, b.dedup.limit, TakeSnapshot(b));
    assert r == b.(dedup := r.dedup);
    forall id | id in r.dedup.recent ensures b.Live(id) {
      var k :| 0 <= k < |Loaded(b)| && Loaded(b)[k].id == id;
      assert Loaded(b)[k] in Loaded(b);
    }
    SameQueuesValid(b, r);
  }

  lemma {:induction false} LimitPositive(b: FlatBook)
    requires b.Valid()
    ensures b.dedup.limit > 0
  {}

  lemma {:induction false} LiveIf(b: FlatBook, id: Uuid)
    ensures HasId(b.bids, id) || HasId(b.asks, id) ==> b.Live(id)
  {}

  lemma {:induction false} SameQueuesValid(b: FlatBook, r: FlatBook)
    requires b.Valid() && r == b.(dedup := r.dedup) && r.dedup.Valid() && r.dedup.limit > 0
    ensures r.Valid()
  {}

  lemma {:induction false} QueueRebuilt(b: FlatBook, side: Side)
    requires b.Valid() && b.dedup.limit > 0
    ensures LoadOrders(EmptyBook(b.config, b.dedup.limit), Loaded(b)).Queue(side) == b.Queue(side)
  {
    var empty := EmptyBook(b.config, b.dedup.limit);
    LoadedIsTheBook(b);
    forall o ensures o in b.Queue(side) <==> o in Loaded(b) && o.side == side { RestsOnItsSide(b, o); }
    assert Sorted(side, b.Queue(side));
    hide FlatBook.Valid, Sorted, Loaded, LoadOrders, BySeq;
    assert forall i :: 0 <= i < |Loaded(b)| ==> Loaded(b)[i] in Loaded(b);
    assert Sorted(side, empty.Queue(side)) by { EmptySorted(side); }
    assert Younger(empty.Queue(side), Loaded(b));
    forall i | 0 <= i < |Loaded(b)| ensures Loaded(b)[i].remaining > 0 { RestsOnItsSide(b, Loaded(b)[i]); }
    LoadBuilds(empty, Loaded(b), side);
    SortedUnique(side, LoadOrders(empty, Loaded(b)).Queue(side), b.Queue(side));
  }

  lemma {:induction false} EmptySorted(side: Side)
    ensures Sorted(side, [])
  {}

  // ---- books that differ only in what they remember of the past ------------------------------------

  ghost predicate Alike(a: FlatBook, b: FlatBook, past: set<Uuid>)
  {
    a == b.(dedup := a.dedup) && AgreeSince(a.dedup, b.dedup, past)
  }

  lemma {:induction false} SubmitAlike(a: FlatBook, b: FlatBook, past: set<Uuid>, o: Order)
    requires Alike(a, b, past) && o.id !in past
    ensures Submit(a, o).1 == Submit(b, o).1 && Alike(Submit(a, o).0, Submit(b, o).0, past)
  {
    hide Match, Insert;
    PushAgree(a.dedup, b.dedup, past, o.id);
  }

  lemma {:induction false} ApplyAlike(a: FlatBook, b: FlatBook, past: set<Uuid>, op: Op)
    requires Alike(a, b, past) && (op.SubmitOp? ==> op.order.id !in past)
    ensures Apply(a, op).1 == Apply(b, op).1 && Alike(Apply(a, op).0, Apply(b, op).0, past)
  {
    if op.SubmitOp? { SubmitAlike(a, b, past, op.order); }
  }

  lemma {:induction false} SubmitsLater(ops: seq<Op>, id: Uuid)
    requires ops != []
    ensures Submits(ops[1..], id) ==> Submits(ops, id)
  {
    if Submits(ops[1..], id) {
      var j :| 0 <= j < |ops[1..]| && ops[1..][j].SubmitOp? && ops[1..][j].order.id == id;
      assert ops[j + 1].SubmitOp? && ops[j + 1].order.id == id;
    }
  }

  lemma {:induction false} RunAlike(a: FlatBook, b: FlatBook, past: set<Uuid>, ops: seq<Op>)
    requires Alike(a, b, past) && forall id :: id in past ==> !Submits(ops, id)
    ensures Results(a, ops) == Results(b, ops) && Alike(Run(a, ops), Run(b, ops), past)
    decreases |ops|
  {
    hide Apply, Alike;
    if ops != [] {
      ApplyAlike(a, b, past, ops[0]);
      forall id | id in past ensures !Submits(ops[1..], id) { SubmitsLater(ops, id); }
      RunAlike(Apply(a, ops[0]).0, Apply(b, ops[0]).0, past, ops[1..]);
    }
  }

  /** The ids a book can still recognise. */
  function KnownIds(b: FlatBook): set<Uuid>
  {
    (set i | 0 <= i < |b.bids| :: b.bids[i].id) + (set i | 0 <= i < |b.asks| :: b.asks[i].id) +
      (set id | id in b.dedup.recent)
  }

  lemma {:induction false} ReloadedAlike(b: FlatBook, past: set<Uuid>)
    requires b.Valid() && KnownIds(b) <= past
    ensures Alike(b, LoadSnapshot(b.config, b.dedup.limit, TakeSnapshot(b)), past)
  {
    var r := LoadSnapshot(b.config, b.dedup.limit, TakeSnapshot(b));
    SnapshotRoundTrip(b);
    hide LoadSnapshot;
    forall id | id in r.dedup.recent ensures id in past { assert b.Live(id); }
    assert Joined(b.dedup.recent, past, b.dedup.recent, []);
    assert Joined(r.dedup.recent, past, r.dedup.recent, []);
    assert TailSince(b.dedup.recent, past, []) && TailSince(r.dedup.recent, past, []);
  }

  /** After a reload, every later run of submits under ids the original did not know, and of cancels, gives the very
      results and fill identities the original would have given. */
  lemma {:induction false} ReloadedBookBehavesAlike(b: FlatBook, ops: seq<Op>)
    requires b.Valid() && forall id :: id in KnownIds(b) ==> !Submits(ops, id)
    ensures Results(LoadSnapshot(b.config, b.dedup.limit, TakeSnapshot(b)), ops) == Results(b, ops)
  {
    hide LoadSnapshot, TakeSnapshot, Alike;
    ReloadedAlike(b, KnownIds(b));
    RunAlike(b, LoadSnapshot(b.config, b.dedup.limit, TakeSnapshot(b)), KnownIds(b), ops);
  }
}
