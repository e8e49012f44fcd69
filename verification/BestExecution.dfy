/** What the router's split is worth: every slice fills, no other split costs less, and what stays unrouted has
    nothing left to cross. */
module BestExecution {
  import opened Types
  import opened OrderBook
  import opened Router
  import Texts

  // ---- quantities on offer --------------------------------------------------------------------------

  /** A bound on the taker's rank of a price. */
  datatype Bound = Below(rank: int) | UpTo(rank: int) | Any
  predicate Inside(b: Bound, rank: int)
  {
    match b case Below(r) => rank < r case UpTo(r) => rank <= r case Any => true
  }

  /** Crossing liquidity of a queue inside a bound, order by order. */
  function QueueQty(o: Order, collarBps: int, q: seq<Order>, b: Bound): int
  {
    if q == [] then 0
    else (if Crosses(o, q[0].limitPrice, collarBps) && Inside(b, Rank(o.side, q[0].limitPrice)) then q[0].remaining
      else 0)
         + QueueQty(o, collarBps, q[1..], b)
  }

  function LevelsQty(o: Order, collarBps: int, levels: seq<DepthLevel>, b: Bound): int
  {
    if levels == [] then 0
    else (if Crosses(o, levels[0].price, collarBps) && Inside(b, Rank(o.side, levels[0].price)) then levels[0].qty
      else 0)
         + LevelsQty(o, collarBps, levels[1..], b)
  }

  function QuoteTerm(o: Order, collarBps: int, q: Quote, v: Text, b: Bound): int
  {
    if q.venue == v && Crosses(o, q.price, collarBps) && Inside(b, Rank(o.side, q.price)) then q.qty else 0
  }

  function QuotesQty(o: Order, collarBps: int, s: seq<Quote>, v: Text, b: Bound): int
  {
    if s == [] then 0 else QuoteTerm(o, collarBps, s[0], v, b) + QuotesQty(o, collarBps, s[1..], v, b)
  }

  lemma {:induction false} GroupedQty(o: Order, collarBps: int, q: seq<Order>, b: Bound)
    ensures LevelsQty(o, collarBps, Grouped(q), b) == QueueQty(o, collarBps, q, b)
  {
    hide Crosses, Inside;
    if q != [] { GroupedQty(o, collarBps, q[1..], b); }
  }

  lemma {:induction false} QuotesOfQty(o: Order, collarBps: int, name: Text, latency: int, levels: seq<DepthLevel>,
      v: Text, b: Bound)
    ensures QuotesQty(o, collarBps, QuotesOf(name, latency, levels), v, b) ==
      if name == v then LevelsQty(o, collarBps, levels, b) else 0
  {
    hide Crosses, Inside;
    if levels != [] {
      QuotesOfQty(o, collarBps, name, latency, levels[1..], v, b);
      assert QuotesOf(name, latency, levels)[1..] == QuotesOf(name, latency, levels[1..]);
    }
  }

  lemma {:induction false} QuotesQtySplit(o: Order, collarBps: int, s: seq<Quote>, t: seq<Quote>, v: Text, b: Bound)
    ensures QuotesQty(o, collarBps, s + t, v, b) == QuotesQty(o, collarBps, s, v, b) + QuotesQty(o, collarBps, t, v, b)
  {
    hide QuoteTerm;
    if s == [] { assert s + t == t; } else {
      assert (s + t)[1..] == s[1..] + t;
      QuotesQtySplit(o, collarBps, s[1..], t, v, b);
    }
  }

  /** The depth limit hides nothing of these books. */
  ghost predicate Visible(books: map<Text, FlatBook>, side: Side, depth: nat)
  {
    forall v :: v in books ==> |Grouped(books[v].Queue(side.Opposite()))| <= depth
  }

  lemma {:induction false} OffersQty(o: Order, collarBps: int, names: seq<Text>, books: map<Text, FlatBook>,
      venues: seq<Venue>, depth: nat, v: Text, b: Bound)
    requires forall i :: 0 <= i < |names| ==> names[i] in books
    requires Texts.Distinct(names) && Visible(books, o.side, depth)
    ensures QuotesQty(o, collarBps, OffersOver(names, books, o.side, venues, depth), v, b) ==
      if v in names then QueueQty(o, collarBps, books[v].Queue(o.side.Opposite()), b) else 0
  {
    hide QuotesQty, QueueQty, LevelsQty;
    if names == [] {
      NoQuotes(o, collarBps, v, b);
    } else {
      var q := books[names[0]].Queue(o.side.Opposite());
      var quotes := QuotesOf(names[0], Latency(venues, names[0]), Depth(q, depth));
      assert Depth(q, depth) == Grouped(q);
      OffersQty(o, collarBps, names[1..], books, venues, depth, v, b);
      QuotesQtySplit(o, collarBps, quotes, OffersOver(names[1..], books, o.side, venues, depth), v, b);
      QuotesOfQty(o, collarBps, names[0], Latency(venues, names[0]), Grouped(q), v, b);
      GroupedQty(o, collarBps, q, b);
      forall k | 0 <= k < |names[1..]| ensures names[1..][k] != names[0] { assert names[1..][k] == names[k + 1]; }
      assert names == [names[0]] + names[1..];
    }
  }

  lemma {:induction false} NoQuotes(o: Order, collarBps: int, v: Text, b: Bound)
    ensures QuotesQty(o, collarBps, [], v, b) == 0
  {}

  lemma {:induction false} InsertQuoteQty(o: Order, collarBps: int, s: seq<Quote>, q: Quote, v: Text, b: Bound)
    ensures QuotesQty(o, collarBps, InsertQuote(o.side, s, q), v, b) ==
      QuotesQty(o, collarBps, s, v, b) + QuoteTerm(o, collarBps, q, v, b)
  {
    hide QuoteTerm, QuoteBefore;
    var r := InsertQuote(o.side, s, q);
    if s == [] || !QuoteBefore(o.side, s[0], q) { assert r[1..] == s; } else {
      assert r[1..] == InsertQuote(o.side, s[1..], q);
      InsertQuoteQty(o, collarBps, s[1..], q, v, b);
    }
  }

  lemma {:induction false} SortQuotesQty(o: Order, collarBps: int, s: seq<Quote>, v: Text, b: Bound)
    ensures QuotesQty(o, collarBps, SortQuotes(o.side, s), v, b) == QuotesQty(o, collarBps, s, v, b)
  {
    hide QuoteTerm;
    if s != [] {
      SortQuotesQty(o, collarBps, s[1..], v, b);
      InsertQuoteQty(o, collarBps, SortQuotes(o.side, s[1..]), s[0], v, b);
    }
  }

  /** Best rank first, and every quote offers something. */
  ghost predicate Ranked(side: Side, s: seq<Quote>)
  {
    (forall i, j :: 0 <= i < j < |s| ==> Rank(side, s[i].price) <= Rank(side, s[j].price))
    && forall i :: 0 <= i < |s| ==> s[i].qty > 0
  }

  lemma {:induction false} InsertRanked(side: Side, s: seq<Quote>, q: Quote)
    requires Ranked(side, s) && q.qty > 0
    ensures Ranked(side, InsertQuote(side, s, q))
    ensures InsertQuote(side, s, q)[0] == q || (s != [] && InsertQuote(side, s, q)[0] == s[0])
  {
    if !(s == [] || !QuoteBefore(side, s[0], q)) { InsertRanked(side, s[1..], q); }
  }

  lemma {:induction false} SortRanked(side: Side, s: seq<Quote>)
    requires Positive(s)
    ensures Ranked(side, SortQuotes(side, s))
  {
    if s != [] {
      SortRanked(side, s[1..]);
      InsertRanked(side, SortQuotes(side, s[1..]), s[0]);
    }
  }

  // ---- what the loop plans -----------------------------------------------------------------------

  function TakeOf(o: Order, collarBps: int, left: int, q: Quote): int
  {
    if left <= 0 || !Crosses(o, q.price, collarBps) then 0 else Max(0, Min(q.qty, left))
  }

  /** What the loop takes at one venue, and what it leaves. */
  function TakenFor(o: Order, collarBps: int, left: int, s: seq<Quote>, v: Text): int
    decreases |s|
  {
    if s == [] then 0
    else
      var take := TakeOf(o, collarBps, left, s[0]);
      (if s[0].venue == v then take else 0) + TakenFor(o, collarBps, left - take, s[1..], v)
  }

  function LeftAfter(o: Order, collarBps: int, left: int, s: seq<Quote>): int
    decreases |s|
  {
    if s == [] then left else LeftAfter(o, collarBps, left - TakeOf(o, collarBps, left, s[0]), s[1..])
  }

  lemma {:induction false} LeftNonneg(o: Order, collarBps: int, left: int, s: seq<Quote>)
    requires left >= 0
    ensures 0 <= LeftAfter(o, collarBps, left, s) <= left
    decreases |s|
  {
    hide Crosses;
    if s != [] { LeftNonneg(o, collarBps, left - TakeOf(o, collarBps, left, s[0]), s[1..]); }
  }

  /** The order of first use lists exactly the venues with a planned quantity, each once. */
  ghost predicate Tidy(st: Planning)
  {
    Texts.Distinct(st.order) && (forall v :: v in st.order <==> v in st.planned) && forall v :: v in st.planned ==>
      st.planned[v] > 0
  }

  function OrderTotal(order: seq<Text>, planned: map<Text, int>): int
  {
    if order == [] then 0 else Get(planned, order[0]) + OrderTotal(order[1..], planned)
  }

  lemma {:induction false} TotalOnUpdate(order: seq<Text>, planned: map<Text, int>, v: Text, n: int)
    requires Texts.Distinct(order)
    ensures OrderTotal(order, planned[v := n]) == OrderTotal(order, planned) +
      if v in order then n - Get(planned, v) else 0
  {
    if order != [] {
      forall i | 0 <= i < |order[1..]| ensures order[1..][i] != order[0] { assert order[1..][i] == order[i + 1]; }
      assert order == [order[0]] + order[1..];
      TotalOnUpdate(order[1..], planned, v, n);
    }
  }

  lemma {:induction false} TotalOnAppend(order: seq<Text>, planned: map<Text, int>, v: Text)
    ensures OrderTotal(order + [v], planned) == OrderTotal(order, planned) + Get(planned, v)
  {
    if order == [] { assert [v][1..] == []; } else {
      assert (order + [v])[1..] == order[1..] + [v];
      TotalOnAppend(order[1..], planned, v);
    }
  }

  /** Planning n > 0 more at a venue. */
  function Planned(st: Planning, v: Text, n: int): Planning
  {
    Planning(st.remaining - n, st.planned[v := Get(st.planned, v) + n], if v in st.planned then st.order
      else st.order + [v])
  }

  lemma {:induction false} PlannedTidy(st: Planning, v: Text, n: int)
    requires Tidy(st) && n > 0
    ensures Tidy(Planned(st, v, n))
  {
    var next := Planned(st, v, n);
    forall u ensures u in next.order <==> u in next.planned {
      if v !in st.planned { assert next.order == st.order + [v]; }
    }
  }

  lemma {:induction false} PlannedTotal(st: Planning, v: Text, n: int)
    requires Tidy(st) && n > 0
    ensures OrderTotal(Planned(st, v, n).order, Planned(st, v, n).planned) == OrderTotal(st.order, st.planned) + n
  {
    TotalOnUpdate(st.order, st.planned, v, Get(st.planned, v) + n);
    TotalOnAppend(st.order, st.planned[v := Get(st.planned, v) + n], v);
  }

  lemma {:induction false} ConsiderKeeps(o: Order, collarBps: int, st: Planning, q: Quote)
    requires Tidy(st)
    ensures var next, take := Consider(o, collarBps, st, q), TakeOf(o, collarBps, st.remaining, q);
      && Tidy(next) && next.remaining == st.remaining - take
      && OrderTotal(next.order, next.planned) == OrderTotal(st.order, st.planned) + take
      && forall v :: Get(next.planned, v) == Get(st.planned, v) + if q.venue == v then take else 0
  {
    var take := TakeOf(o, collarBps, st.remaining, q);
    assert Consider(o, collarBps, st, q) == (if take > 0 then Planned(st, q.venue, take) else st);
    hide Crosses, Tidy, OrderTotal, Consider, TakeOf;
    if take > 0 {
      PlannedTidy(st, q.venue, take);
      PlannedTotal(st, q.venue, take);
    }
  }

  /** The accumulated map is the per-venue take, listed once per venue, and its total is what left the order. */
  lemma {:induction false} PlanIsTaken(o: Order, collarBps: int, st: Planning, s: seq<Quote>)
    requires Tidy(st)
    ensures var end := PlanOver(o, collarBps, st, s);
      && Tidy(end) && end.remaining == LeftAfter(o, collarBps, st.remaining, s)
      && OrderTotal(end.order, end.planned) == OrderTotal(st.order, st.planned) + st.remaining - end.remaining
      && forall v :: Get(end.planned, v) == Get(st.planned, v) + TakenFor(o, collarBps, st.remaining, s, v)
    decreases |s|
  {
    hide Consider, TakeOf, Tidy;
    if s != [] {
      ConsiderKeeps(o, collarBps, st, s[0]);
      PlanIsTaken(o, collarBps, Consider(o, collarBps, st, s[0]), s[1..]);
    }
  }

  /** The take at every venue lies between all it offers below a price rank and all it offers up to it. */
  ghost predicate Threshold(o: Order, collarBps: int, left: int, s: seq<Quote>, rank: int)
  {
    forall v :: QuotesQty(o, collarBps, s, v, Below(rank)) <= TakenFor(o, collarBps, left, s, v)
      <= QuotesQty(o, collarBps, s, v, UpTo(rank))
  }

  lemma {:induction false} QtyBounds(o: Order, collarBps: int, s: seq<Quote>, v: Text, rank: int)
    requires Ranked(o.side, s)
    ensures 0 <= QuotesQty(o, collarBps, s, v, Below(rank)) <= QuotesQty(o, collarBps, s, v, UpTo(rank))
    ensures (forall i :: 0 <= i < |s| ==> Rank(o.side, s[i].price) >= rank) ==>
      QuotesQty(o, collarBps, s, v, Below(rank)) == 0
  {
    hide Crosses;
    if s != [] {
      QtyBounds(o, collarBps, s[1..], v, rank);
      if forall i :: 0 <= i < |s| ==> Rank(o.side, s[i].price) >= rank {
        forall i | 0 <= i < |s[1..]| ensures Rank(o.side, s[1..][i].price) >= rank { assert s[1..][i] == s[i + 1]; }
      }
    }
  }

  lemma {:induction false} NothingTaken(o: Order, collarBps: int, left: int, s: seq<Quote>, v: Text)
    requires left <= 0
    ensures TakenFor(o, collarBps, left, s, v) == 0 && LeftAfter(o, collarBps, left, s) == left
    decreases |s|
  {
    if s != [] { NothingTaken(o, collarBps, left, s[1..], v); }
  }

  /** The takes always have a threshold price; when something of the order is left, they are everything that crosses. */
  lemma {:induction false} ThresholdExists(o: Order, collarBps: int, left: int, s: seq<Quote>) returns (rank: int)
    requires Ranked(o.side, s) && left >= 0
    ensures LeftAfter(o, collarBps, left, s) >= 0
    ensures LeftAfter(o, collarBps, left, s) > 0 ==>
      forall v :: TakenFor(o, collarBps, left, s, v) == QuotesQty(o, collarBps, s, v, Any)
    ensures Threshold(o, collarBps, left, s, rank) && (s != [] ==> rank >= Rank(o.side, s[0].price))
    decreases |s|
  {
    hide Crosses;
    rank := if s == [] then 0 else Rank(o.side, s[0].price);
    if s != [] {
      var take := TakeOf(o, collarBps, left, s[0]);
      if left - take == 0 {
        StopsHere(o, collarBps, left, s);
      } else {
        assert Ranked(o.side, s[1..]);
        var later := ThresholdExists(o, collarBps, left - take, s[1..]);
        if s[1..] != [] { rank := later; }
        ThresholdGrows(o, collarBps, left, s, rank);
      }
    }
  }

  lemma {:induction false} StopsHere(o: Order, collarBps: int, left: int, s: seq<Quote>)
    requires Ranked(o.side, s) && left >= 0 && s != [] && left == TakeOf(o, collarBps, left, s[0])
    ensures Threshold(o, collarBps, left, s, Rank(o.side, s[0].price)) && LeftAfter(o, collarBps, left, s) == 0
  {
    hide Crosses;
    var rank := Rank(o.side, s[0].price);
    NothingTaken(o, collarBps, 0, s[1..], s[0].venue);
    forall v
      ensures QuotesQty(o, collarBps, s, v, Below(rank)) <= TakenFor(o, collarBps, left, s, v) <=
        QuotesQty(o, collarBps, s, v, UpTo(rank))
    {
      NothingTaken(o, collarBps, 0, s[1..], v);
      QtyBounds(o, collarBps, s, v, rank);
      QtyBounds(o, collarBps, s[1..], v, rank);
    }
  }

  lemma {:induction false} ThresholdGrows(o: Order, collarBps: int, left: int, s: seq<Quote>, rank: int)
    requires s != [] && s[0].qty > 0 && left >= 0
    requires var take := TakeOf(o, collarBps, left, s[0]);
      left > take && Threshold(o, collarBps, left - take, s[1..], rank)
    requires rank >= Rank(o.side, s[0].price)
    ensures Threshold(o, collarBps, left, s, rank)
  {
    hide Crosses;
    var take := TakeOf(o, collarBps, left, s[0]);
    forall v
      ensures QuotesQty(o, collarBps, s, v, Below(rank)) <= TakenFor(o, collarBps, left, s, v) <=
        QuotesQty(o, collarBps, s, v, UpTo(rank))
    {
      assert QuotesQty(o, collarBps, s[1..], v, Below(rank)) <= TakenFor(o, collarBps, left - take, s[1..], v) <=
        QuotesQty(o, collarBps, s[1..], v, UpTo(rank));
    }
  }

  // ---- one venue ---------------------------------------------------------------------------------

  /** Total price times quantity, in the taker's rank. */
  function FillsCost(side: Side, fills: seq<Fill>): int
  {
    if fills == [] then 0 else Rank(side, fills[0].price) * fills[0].qty + FillsCost(side, fills[1..])
  }

  /** An alternative: how much to take of each resting order of a queue, crossing ones only. */
  ghost predicate Takable(o: Order, collarBps: int, q: seq<Order>, alloc: seq<int>)
  {
    |alloc| == |q| && forall i :: 0 <= i < |q| ==>
      0 <= alloc[i] <= q[i].remaining && (alloc[i] > 0 ==> Crosses(o, q[i].limitPrice, collarBps))
  }

  function AllocQty(alloc: seq<int>): int { if alloc == [] then 0 else alloc[0] + AllocQty(alloc[1..]) }

  function AllocCost(side: Side, q: seq<Order>, alloc: seq<int>): int
    requires |alloc| == |q|
  {
    if q == [] then 0 else Rank(side, q[0].limitPrice) * alloc[0] + AllocCost(side, q[1..], alloc[1..])
  }

  ghost predicate Ready(side: Side, q: seq<Order>)
  {
    (forall i, j :: 0 <= i < j < |q| ==> Rank(side, q[i].limitPrice) <= Rank(side, q[j].limitPrice))
    && forall i :: 0 <= i < |q| ==> q[i].remaining > 0
  }

  /** A price that ranks no better than one that does not cross does not cross either. */
  lemma {:induction false} CrossesByRank(o: Order, collarBps: int, p: int, p': int)
    requires Rank(o.side, p) <= Rank(o.side, p') && !Crosses(o, p, collarBps)
    ensures !Crosses(o, p', collarBps)
  {}

  lemma {:induction false} QueueBounds(o: Order, collarBps: int, q: seq<Order>, b: Bound)
    requires Ready(o.side, q)
    ensures QueueQty(o, collarBps, q, b) >= 0
    ensures q != [] && (!Crosses(o, q[0].limitPrice, collarBps) || !Inside(b, Rank(o.side, q[0].limitPrice)))
      ==> QueueQty(o, collarBps, q, b) == 0
  {
    hide Crosses;
    if q != [] {
      QueueBounds(o, collarBps, q[1..], b);
      if q[1..] != [] {
        if !Crosses(o, q[0].limitPrice, collarBps) { CrossesByRank(o, collarBps, q[0].limitPrice, q[1].limitPrice); }
      }
    }
  }

  /** With nothing crossing below a rank, every alternative pays at least that rank for each unit. */
  lemma {:induction false} NothingBelow(o: Order, collarBps: int, q: seq<Order>, rank: int, alloc: seq<int>)
    requires Ready(o.side, q) && Takable(o, collarBps, q, alloc) && QueueQty(o, collarBps, q, Below(rank)) == 0
    ensures AllocCost(o.side, q, alloc) >= rank * AllocQty(alloc)
  {
    hide Crosses, Rank;
    if q != [] {
      QueueBounds(o, collarBps, q[1..], Below(rank));
      NothingBelow(o, collarBps, q[1..], rank, alloc[1..]);
      TermAtLeast(Rank(o.side, q[0].limitPrice), rank, alloc[0]);
    }
  }

  lemma {:induction false} TermAtLeast(a: int, rank: int, n: int)
    requires n >= 0 && (n > 0 ==> a >= rank)
    ensures a * n >= rank * n
  {
    if n > 0 { assert (a - rank) * n >= 0; }
  }

  lemma {:induction false} TermAtMost(a: int, rank: int, n: int, m: int)
    requires 0 <= m <= n && a <= rank
    ensures a * n - rank * n <= a * m - rank * m
  {
    assert (rank - a) * (n - m) >= 0;
  }

  /** Two orders that match alike. */
  predicate SameTerms(o: Order, p: Order)
  {
    o.side == p.side && o.typ == p.typ && o.limitPrice == p.limitPrice && o.refPrice == p.refPrice
  }

  /** A slice within a threshold fills completely in its venue and, measured against the threshold price, costs no
      more than any other way of taking from that venue. */
  lemma {:induction false} VenueCheapest(config: BookConfig, o: Order, q: seq<Order>, seqNo: nat, rank: int,
      alloc: seq<int>)
    requires Ready(o.side, q) && o.remaining >= 0 && Takable(o, config.collarBps, q, alloc)
    requires QueueQty(o, config.collarBps, q, Below(rank)) <= o.remaining <=
      QueueQty(o, config.collarBps, q, UpTo(rank))
    ensures var m := Match(config, o, q, seqNo);
      && m.left == 0 && FilledQty(m.fills) == o.remaining
      && FillsCost(o.side, m.fills) - rank * o.remaining <= AllocCost(o.side, q, alloc) - rank * AllocQty(alloc)
    decreases |q|
  {
    hide Crosses, Rank;
    QueueBounds(o, config.collarBps, q, Below(rank));
    QueueBounds(o, config.collarBps, q, UpTo(rank));
    if o.remaining == 0 {
      NothingBelow(o, config.collarBps, q, rank, alloc);
    } else {
      var a, take := Rank(o.side, q[0].limitPrice), Min(o.remaining, q[0].remaining);
      var m := Match(config, o, q, seqNo);
      assert Takable(o, config.collarBps, q[1..], alloc[1..]);
      QueueBounds(o, config.collarBps, q[1..], Below(rank));
      if take == q[0].remaining {
        var o' := o.(remaining := o.remaining - take);
        SameQueueQty(o, o', config.collarBps, q[1..], Below(rank));
        SameQueueQty(o, o', config.collarBps, q[1..], UpTo(rank));
        SameTakable(o, o', config.collarBps, q[1..], alloc[1..]);
        if a == rank { AtThreshold(o, config.collarBps, q, rank); }
        VenueCheapest(config, o', q[1..], seqNo + 1, rank, alloc[1..]);
        assert m.fills[1..] == Match(config, o', q[1..], seqNo + 1).fills;
        TermAtMost(a, rank, take, alloc[0]);
        WholeStep(a, rank, take, o.remaining, alloc[0], AllocQty(alloc[1..]));
      } else {
        assert a == rank;
        assert m.fills[1..] == [];
        NothingBelow(o, config.collarBps, q, rank, alloc);
      }
    }
  }

  lemma {:induction false} WholeStep(a: int, rank: int, take: int, whole: int, part: int, rest: int)
    ensures rank * whole == rank * (whole - take) + rank * take
    ensures rank * (part + rest) == rank * part + rank * rest
  {}

  lemma {:induction false} AtThreshold(o: Order, collarBps: int, q: seq<Order>, rank: int)
    requires Ready(o.side, q) && q != [] && Rank(o.side, q[0].limitPrice) == rank
    ensures QueueQty(o, collarBps, q[1..], Below(rank)) == 0
  {
    QueueBounds(o, collarBps, q[1..], Below(rank));
  }

  lemma {:induction false} SameQueueQty(o: Order, p: Order, collarBps: int, q: seq<Order>, b: Bound)
    requires SameTerms(o, p)
    ensures QueueQty(o, collarBps, q, b) == QueueQty(p, collarBps, q, b)
  {
    if q != [] { SameQueueQty(o, p, collarBps, q[1..], b); }
  }

  lemma {:induction false} SameTakable(o: Order, p: Order, collarBps: int, q: seq<Order>, alloc: seq<int>)
    requires SameTerms(o, p) && Takable(o, collarBps, q, alloc)
    ensures Takable(p, collarBps, q, alloc)
  {
    assert forall price :: Crosses(p, price, collarBps) == Crosses(o, price, collarBps);
    hide Crosses;
  }

  /** A slice as large as everything that crosses fills completely and leaves nothing crossing. */
  lemma {:induction false} VenueExhausted(config: BookConfig, o: Order, q: seq<Order>, seqNo: nat)
    requires Ready(o.side, q) && o.remaining == QueueQty(o, config.collarBps, q, Any)
    ensures var m := Match(config, o, q, seqNo);
      && m.left == 0 && forall i :: 0 <= i < |m.queue| ==> !Crosses(o, m.queue[i].limitPrice, config.collarBps)
    decreases |q|
  {
    hide Crosses, Rank;
    QueueBounds(o, config.collarBps, q, Any);
    if q != [] {
      if Crosses(o, q[0].limitPrice, config.collarBps) {
        var o' := o.(remaining := o.remaining - q[0].remaining);
        QueueBounds(o, config.collarBps, q[1..], Any);
        SameQueueQty(o, o', config.collarBps, q[1..], Any);
        VenueExhausted(config, o', q[1..], seqNo + 1);
        var m := Match(config, o, q, seqNo);
        forall i | 0 <= i < |m.queue| ensures !Crosses(o, m.queue[i].limitPrice, config.collarBps) {
          CrossesIgnoresRemaining(o, o', m.queue[i].limitPrice, config.collarBps);
        }
      } else {
        forall i | 0 <= i < |q| ensures !Crosses(o, q[i].limitPrice, config.collarBps) {
          if i > 0 { CrossesByRank(o, config.collarBps, q[0].limitPrice, q[i].limitPrice); }
        }
      }
    }
  }

  // ---- the whole plan ------------------------------------------------------------------------------

  /** The order is new to healthy books that share the shard's collar and are no deeper than the router looks. */
  ghost predicate Routable(o: Order, books: map<Text, FlatBook>, collarBps: int)
  {
    && o.remaining > 0 && o.id != NIL && Visible(books, o.side, DEPTH)
    && forall v :: v in books ==> books[v].Valid() && books[v].config.collarBps == collarBps && !books[v].Seen(o.id)
  }

  /** The liquidity an order meets at a venue. */
  function Facing(o: Order, b: FlatBook): seq<Order> { b.Queue(o.side.Opposite()) }

  lemma {:induction false} FacingReady(o: Order, b: FlatBook)
    requires b.Valid()
    ensures Ready(o.side, Facing(o, b))
  {
    var q := Facing(o, b);
    assert SideOk(o.side.Opposite(), q, b.arrival);
    forall i, j | 0 <= i < j < |q| ensures Rank(o.side, q[i].limitPrice) <= Rank(o.side, q[j].limitPrice) {
      assert Before(o.side.Opposite(), q[i], q[j]);
    }
    assert forall i :: 0 <= i < |q| ==> Resting(o.side.Opposite(), q[i], b.arrival);
  }

  lemma {:induction false} GroupedPositive(q: seq<Order>)
    requires forall i :: 0 <= i < |q| ==> q[i].remaining > 0
    ensures forall i :: 0 <= i < |Grouped(q)| ==> Grouped(q)[i].qty > 0
  {
    if q != [] { GroupedPositive(q[1..]); }
  }

  ghost predicate Positive(s: seq<Quote>) { forall i :: 0 <= i < |s| ==> s[i].qty > 0 }

  lemma {:induction false} QuotesPositive(venue: Text, latency: int, levels: seq<DepthLevel>)
    requires forall i :: 0 <= i < |levels| ==> levels[i].qty > 0
    ensures Positive(QuotesOf(venue, latency, levels))
  {
    if levels != [] { QuotesPositive(venue, latency, levels[1..]); }
  }

  lemma {:induction false} OffersPositive(o: Order, names: seq<Text>, books: map<Text, FlatBook>, venues: seq<Venue>,
      depth: nat)
    requires forall i :: 0 <= i < |names| ==> names[i] in books && books[names[i]].Valid()
    ensures Positive(OffersOver(names, books, o.side, venues, depth))
  {
    hide FlatBook.Valid, QuotesOf, Depth;
    if names != [] {
      FacingReady(o, books[names[0]]);
      GroupedPositive(Facing(o, books[names[0]]));
      var levels := Depth(Facing(o, books[names[0]]), depth);
      assert forall i :: 0 <= i < |levels| ==> levels[i].qty > 0 by { DepthPrefix(Facing(o, books[names[0]]), depth); }
      QuotesPositive(names[0], Latency(venues, names[0]), levels);
      OffersPositive(o, names[1..], books, venues, depth);
    }
  }

  lemma {:induction false} DepthPrefix(q: seq<Order>, n: nat)
    ensures Depth(q, n) <= Grouped(q)
  {}

  /** The sorted offers are ranked, and sum up per venue to what its queue offers. */
  lemma {:induction false} OffersFaithful(o: Order, books: map<Text, FlatBook>, venues: seq<Venue>, collarBps: int)
    requires Routable(o, books, collarBps)
    ensures var s := Offers(o, books, venues, DEPTH);
      && Ranked(o.side, s)
      && (forall v, b :: v in books ==>
           QuotesQty(o, collarBps, s, v, b) == QueueQty(o, collarBps, Facing(o, books[v]), b))
      && (forall v, b :: v !in books ==> QuotesQty(o, collarBps, s, v, b) == 0)
  {
    hide FlatBook.Valid, OffersOver, SortQuotes, QuotesQty, QueueQty, Ranked;
    var names := Texts.Listed(books.Keys);
    assert forall i :: 0 <= i < |names| ==> names[i] in names;
    ListedDistinct(books.Keys);
    var raw := OffersOver(names, books, o.side, venues, DEPTH);
    OffersPositive(o, names, books, venues, DEPTH);
    SortRanked(o.side, raw);
    forall v, b ensures QuotesQty(o, collarBps, SortQuotes(o.side, raw), v, b) ==
      if v in books then QueueQty(o, collarBps, Facing(o, books[v]), b) else 0
    {
      SortQuotesQty(o, collarBps, raw, v, b);
      OffersQty(o, collarBps, names, books, venues, DEPTH, v, b);
    }
  }

  lemma {:induction false} ListedDistinct(s: set<Text>)
    ensures Texts.Distinct(Texts.Listed(s))
  {
    var r := Texts.Listed(s);
    forall i, j | 0 <= i < j < |r| ensures r[i] != r[j] { Texts.LessTotal(r[i], r[j]); }
  }

  /** What the plan takes from each venue, with the threshold price that justifies it. */
  ghost predicate Planful(o: Order, books: map<Text, FlatBook>, collarBps: int, st: Planning, rank: int)
  {
    && Tidy(st) && st.remaining >= 0 && OrderTotal(st.order, st.planned) == o.remaining - st.remaining
    && (forall v :: v in st.planned ==> v in books)
    && (forall v :: v in books ==>
          QueueQty(o, collarBps, Facing(o, books[v]), Below(rank)) <= Get(st.planned, v)
            <= QueueQty(o, collarBps, Facing(o, books[v]), UpTo(rank)))
    && (st.remaining > 0 ==> forall v :: v in books ==>
         Get(st.planned, v) == QueueQty(o, collarBps, Facing(o, books[v]), Any))
  }

  lemma {:induction false} PlanIsPlanful(o: Order, books: map<Text, FlatBook>, venues: seq<Venue>, collarBps: int)
      returns (rank: int)
    requires Routable(o, books, collarBps)
    ensures Planful(o, books, collarBps, Plan(o, books, venues, collarBps, DEPTH), rank)
  {
    var s := Offers(o, books, venues, DEPTH);
    OffersFaithful(o, books, venues, collarBps);
    RoutablePositive(o, books, collarBps);
    hide Offers, Routable, Ranked, QueueQty, QuotesQty, PlanOver, LeftAfter, TakenFor, Planful;
    rank := ThresholdExists(o, collarBps, o.remaining, s);
    TakenIsPlanful(o, books, collarBps, s, rank);
  }

  lemma {:induction false} TakenIsPlanful(o: Order, books: map<Text, FlatBook>, collarBps: int, s: seq<Quote>,
      rank: int)
    requires Threshold(o, collarBps, o.remaining, s, rank) && LeftAfter(o, collarBps, o.remaining, s) >= 0
    requires LeftAfter(o, collarBps, o.remaining, s) > 0 ==>
      forall v :: TakenFor(o, collarBps, o.remaining, s, v) == QuotesQty(o, collarBps, s, v, Any)
    requires forall v, b :: v in books ==>
      QuotesQty(o, collarBps, s, v, b) == QueueQty(o, collarBps, Facing(o, books[v]), b)
    requires forall v, b :: v !in books ==> QuotesQty(o, collarBps, s, v, b) == 0
    ensures Planful(o, books, collarBps, PlanOver(o, collarBps, Planning(o.remaining, map[], []), s), rank)
  {
    hide QueueQty, QuotesQty, PlanOver, LeftAfter, TakenFor, Facing;
    var start := Planning(o.remaining, map[], []);
    assert Tidy(start);
    PlanIsTaken(o, collarBps, start, s);
    var st := PlanOver(o, collarBps, start, s);
    hide Tidy;
    assert forall v :: Get(st.planned, v) == TakenFor(o, collarBps, o.remaining, s, v);
    forall v | v in st.planned ensures QuotesQty(o, collarBps, s, v, UpTo(rank)) > 0 {
      PlannedPositive(st, v);
      assert TakenFor(o, collarBps, o.remaining, s, v) <= QuotesQty(o, collarBps, s, v, UpTo(rank));
    }
  }

  lemma {:induction false} RoutablePositive(o: Order, books: map<Text, FlatBook>, collarBps: int)
    requires Routable(o, books, collarBps)
    ensures o.remaining > 0
  {}

  lemma {:induction false} PlannedPositive(st: Planning, v: Text)
    requires Tidy(st) && v in st.planned
    ensures Get(st.planned, v) > 0
  {}

  /** One slice in its venue. */
  function SliceResult(o: Order, b: FlatBook, qty: int): (FlatBook, SubmitResult) { Submit(b, Slice(o, qty)) }

  lemma {:induction false} SliceMatches(o: Order, b: FlatBook, qty: int, collarBps: int) returns (p: Order)
    requires b.Valid() && !b.Seen(o.id) && qty > 0 && b.config.collarBps == collarBps
    ensures SameTerms(o, p) && p.remaining == qty
    ensures var m := Match(b.config, p, Facing(o, b), b.bookSeq);
      && SliceResult(o, b, qty).1.fills == m.fills && Facing(o, SliceResult(o, b, qty).0) == m.queue
      && (m.left == 0 ==> SliceResult(o, b, qty).1.disposition == Complete && SliceResult(o, b, qty).1.remaining == 0)
  {
    hide Match;
    p := Admit(b, Slice(o, qty));
  }

  /** The slices, venue by venue: each from the book as it was, since no venue appears twice. */
  function Slices(order: seq<Text>, planned: map<Text, int>, o: Order, books: map<Text, FlatBook>): seq<SubmitResult>
    requires forall i :: 0 <= i < |order| ==> order[i] in books
  {
    if order == [] then []
    else [SliceResult(o, books[order[0]], Get(planned, order[0])).1] + Slices(order[1..], planned, o, books)
  }

  function FillsIn(rs: seq<SubmitResult>): seq<Fill> { if rs == [] then [] else rs[0].fills + FillsIn(rs[1..]) }

  lemma {:induction false} ExecuteIsSlices(o: Order, books: map<Text, FlatBook>, order: seq<Text>,
      planned: map<Text, int>, now: map<Text, FlatBook>)
    requires Texts.Distinct(order) && now.Keys == books.Keys
    requires forall i :: 0 <= i < |order| ==> order[i] in books && now[order[i]] == books[order[i]]
    ensures StepsAmong(StepsOf(order, planned), now.Keys)
    ensures var ex := Execute(now, o, StepsOf(order, planned));
      && ex.fills == FillsIn(Slices(order, planned, o, books))
      && ex.books.Keys == books.Keys
      && forall v :: v in books ==>
        ex.books[v] == if v in order then SliceResult(o, books[v], Get(planned, v)).0 else now[v]
    decreases |order|
  {
    hide Submit;
    if order != [] {
      var v := order[0];
      var next := now[v := SliceResult(o, books[v], Get(planned, v)).0];
      forall i | 0 <= i < |order[1..]| ensures order[1..][i] != v && next[order[1..][i]] == books[order[1..][i]] {
        assert order[1..][i] == order[i + 1];
      }
      ExecuteIsSlices(o, books, order[1..], planned, next);
      assert order == [v] + order[1..];
    }
  }

  lemma {:induction false} OrderInBooks(o: Order, books: map<Text, FlatBook>, collarBps: int, st: Planning, rank: int)
    requires Planful(o, books, collarBps, st, rank)
    ensures Texts.Distinct(st.order)
    ensures forall i :: 0 <= i < |st.order| ==> st.order[i] in books && Get(st.planned, st.order[i]) > 0
  {
    assert forall i :: 0 <= i < |st.order| ==> st.order[i] in st.order;
  }

  // ---- no other split is cheaper ---------------------------------------------------------------------

  /** Another way to take from the same crossing liquidity: an amount for every resting order of every venue. */
  ghost predicate Split(o: Order, books: map<Text, FlatBook>, collarBps: int, alt: map<Text, seq<int>>)
  {
    alt.Keys == books.Keys && forall v :: v in books ==> Takable(o, collarBps, Facing(o, books[v]), alt[v])
  }

  /** Names whose venue the shard has, with an amount for each of its resting orders. */
  ghost predicate Known(names: seq<Text>, o: Order, books: map<Text, FlatBook>, alt: map<Text, seq<int>>)
  {
    forall i :: 0 <= i < |names| ==>
      names[i] in alt && names[i] in books && |alt[names[i]]| == |Facing(o, books[names[i]])|
  }

  ghost function SplitQty(names: seq<Text>, o: Order, books: map<Text, FlatBook>, alt: map<Text, seq<int>>): int
    requires Known(names, o, books, alt)
  {
    if names == [] then 0 else AllocQty(alt[names[0]]) + SplitQty(names[1..], o, books, alt)
  }

  ghost function SplitCost(names: seq<Text>, o: Order, books: map<Text, FlatBook>, alt: map<Text, seq<int>>): int
    requires Known(names, o, books, alt)
  {
    if names == [] then 0
    else AllocCost(o.side, Facing(o, books[names[0]]), alt[names[0]]) + SplitCost(names[1..], o, books, alt)
  }

  /** Taking one venue's share out of the sums. */
  lemma {:induction false} SplitAt(names: seq<Text>, k: nat, o: Order, books: map<Text, FlatBook>,
      alt: map<Text, seq<int>>)
    requires k < |names| && Known(names, o, books, alt)
    ensures var rest := names[..k] + names[k + 1..];
      && Known(rest, o, books, alt)
      && SplitQty(names, o, books, alt) == AllocQty(alt[names[k]]) + SplitQty(rest, o, books, alt)
      && SplitCost(names, o, books, alt) ==
        AllocCost(o.side, Facing(o, books[names[k]]), alt[names[k]]) + SplitCost(rest, o, books, alt)
  {
    hide AllocCost, AllocQty, Facing;
    var rest := names[..k] + names[k + 1..];
    if k == 0 { assert rest == names[1..]; } else {
      assert names[1..][..k - 1] + names[1..][k..] == rest[1..] by {
        assert names[1..][..k - 1] == names[1..k] && names[1..][k..] == names[k + 1..];
      }
      assert names[1..][k - 1] == names[k] && names[1..][k - 1 + 1..] == names[1..][k..];
      SplitAt(names[1..], k - 1, o, books, alt);
    }
  }

  lemma {:induction false} FillsCostSplit(side: Side, f: seq<Fill>, g: seq<Fill>)
    ensures FillsCost(side, f + g) == FillsCost(side, f) + FillsCost(side, g)
    ensures FilledQty(f + g) == FilledQty(f) + FilledQty(g)
  {
    FilledSplit(f, g);
    if f == [] { assert f + g == g; } else {
      assert (f + g)[1..] == f[1..] + g;
      FillsCostSplit(side, f[1..], g);
    }
  }

  /** One planned slice: it fills completely, at no worse a surplus over the threshold price than any alternative. */
  lemma {:induction false} SliceCheapest(o: Order, b: FlatBook, qty: int, collarBps: int, rank: int, alloc: seq<int>)
    requires b.Valid() && !b.Seen(o.id) && qty > 0 && b.config.collarBps == collarBps
    requires QueueQty(o, collarBps, Facing(o, b), Below(rank)) <= qty <=
      QueueQty(o, collarBps, Facing(o, b), UpTo(rank))
    requires Takable(o, collarBps, Facing(o, b), alloc)
    ensures var r := SliceResult(o, b, qty).1;
      && r.disposition == Complete && r.remaining == 0 && FilledQty(r.fills) == qty
      && FillsCost(o.side, r.fills) - rank * qty <= AllocCost(o.side, Facing(o, b), alloc) - rank * AllocQty(alloc)
  {
    FacingReady(o, b);
    var p := SliceMatches(o, b, qty, collarBps);
    hide FlatBook.Valid, FlatBook.Seen, SliceResult, Facing, Ready;
    SameQueueQty(o, p, collarBps, Facing(o, b), Below(rank));
    SameQueueQty(o, p, collarBps, Facing(o, b), UpTo(rank));
    SameTakable(o, p, collarBps, Facing(o, b), alloc);
    VenueCheapest(b.config, p, Facing(o, b), b.bookSeq, rank, alloc);
  }

  /** The alternative that takes nothing from a queue. */
  function Nothing(n: nat): (r: seq<int>) ensures |r| == n && forall i :: 0 <= i < n ==> r[i] == 0
  {
    if n == 0 then [] else [0] + Nothing(n - 1)
  }

  /** At every venue the plan takes all that crosses below the threshold price and nothing beyond it. */
  ghost predicate Within(o: Order, books: map<Text, FlatBook>, collarBps: int, names: seq<Text>, order: seq<Text>,
      planned: map<Text, int>, rank: int)
    requires forall i :: 0 <= i < |names| ==> names[i] in books
  {
    forall i :: 0 <= i < |names| ==>
      QueueQty(o, collarBps, Facing(o, books[names[i]]), Below(rank)) <=
        (if names[i] in order then Get(planned, names[i]) else 0)
      && (names[i] in order ==>
           Get(planned, names[i]) <= QueueQty(o, collarBps, Facing(o, books[names[i]]), UpTo(rank)))
  }

  lemma {:induction false} PlanBeatsSplit(o: Order, books: map<Text, FlatBook>, collarBps: int, order: seq<Text>,
      planned: map<Text, int>, 
                       names: seq<Text>, alt: map<Text, seq<int>>, rank: int)
    requires Routable(o, books, collarBps) && Split(o, books, collarBps, alt)
    requires Texts.Distinct(order) && Texts.Distinct(names) && Known(names, o, books, alt)
    requires forall i :: 0 <= i < |names| ==> names[i] in books
    requires forall i :: 0 <= i < |order| ==> order[i] in names && order[i] in books && Get(planned, order[i]) > 0
    requires Within(o, books, collarBps, names, order, planned, rank)
    ensures var fills := FillsIn(Slices(order, planned, o, books));
      && FilledQty(fills) == OrderTotal(order, planned)
      && FillsCost(o.side, fills) - rank * OrderTotal(order, planned) <=
           SplitCost(names, o, books, alt) - rank * SplitQty(names, o, books, alt)
    decreases |order|
  {
    assert forall i :: 0 <= i < |names| ==> names[i] in books;
    hide FlatBook.Valid, FlatBook.Seen, SliceResult, Facing, QueueQty, AllocCost, AllocQty, Takable, Known;
    if order == [] {
      SplitPaysThreshold(o, books, collarBps, names, alt, rank);
    } else {
      var v := order[0];
      var k :| 0 <= k < |names| && names[k] == v;
      var names' := names[..k] + names[k + 1..];
      Removed(order, names, k);
      assert Known(names', o, books, alt) by { SplitAt(names, k, o, books, alt); }
      assert Within(o, books, collarBps, names', order[1..], planned, rank) by {
        WithinRest(o, books, collarBps, names, k, order, planned, rank);
      }
      PlanBeatsSplit(o, books, collarBps, order[1..], planned, names', alt, rank);
      OneMore(o, books, collarBps, order, planned, names, k, alt, rank);
    }
  }

  lemma {:induction false} WithinRest(o: Order, books: map<Text, FlatBook>, collarBps: int, names: seq<Text>, k: nat,
      order: seq<Text>, planned: map<Text, int>, rank: int)
    requires Texts.Distinct(order) && Texts.Distinct(names) && order != [] && k < |names| && names[k] == order[0]
    requires forall i :: 0 <= i < |order| ==> order[i] in names
    requires forall i :: 0 <= i < |names| ==> names[i] in books
    requires Within(o, books, collarBps, names, order, planned, rank)
    ensures var rest := names[..k] + names[k + 1..];
      (forall i :: 0 <= i < |rest| ==> rest[i] in books) && Within(o, books, collarBps, rest, order[1..], planned, rank)
  {
    hide QueueQty, Facing;
    Removed(order, names, k);
    var rest := names[..k] + names[k + 1..];
    assert forall i :: 0 <= i < |rest| ==> rest[i] == names[if i < k then i else i + 1];
  }

  /** Adding one venue's slice to a plan that already beats the split of the others. */
  lemma {:induction false} OneMore(o: Order, books: map<Text, FlatBook>, collarBps: int, order: seq<Text>,
      planned: map<Text, int>, 
                names: seq<Text>, k: nat, alt: map<Text, seq<int>>, rank: int)
    requires Routable(o, books, collarBps) && Split(o, books, collarBps, alt) && Known(names, o, books, alt)
    requires order != [] && k < |names| && names[k] == order[0] && Get(planned, order[0]) > 0
    requires forall i :: 0 <= i < |order| ==> order[i] in books
    requires forall i :: 0 <= i < |names| ==> names[i] in books
    requires Within(o, books, collarBps, names, order, planned, rank)
    requires Known(names[..k] + names[k + 1..], o, books, alt)
    requires var fills, rest := FillsIn(Slices(order[1..], planned, o, books)), names[..k] + names[k + 1..];
      && FilledQty(fills) == OrderTotal(order[1..], planned)
      && FillsCost(o.side, fills) - rank * OrderTotal(order[1..], planned) <=
           SplitCost(rest, o, books, alt) - rank * SplitQty(rest, o, books, alt)
    ensures var fills := FillsIn(Slices(order, planned, o, books));
      && FilledQty(fills) == OrderTotal(order, planned)
      && FillsCost(o.side, fills) - rank * OrderTotal(order, planned) <=
           SplitCost(names, o, books, alt) - rank * SplitQty(names, o, books, alt)
  {
    hide FlatBook.Valid, FlatBook.Seen, SliceResult, Facing, QueueQty, AllocCost, AllocQty, Takable, SplitCost,
      SplitQty;
    var v := order[0];
    assert |alt[v]| == |Facing(o, books[v])|;
    hide Known;
    SplitAt(names, k, o, books, alt);
    SliceCheapest(o, books[v], Get(planned, v), collarBps, rank, alt[v]);
    FillsCostSplit(o.side, SliceResult(o, books[v], Get(planned, v)).1.fills,
      FillsIn(Slices(order[1..], planned, o, books)));
    Distribute(rank, Get(planned, v), OrderTotal(order[1..], planned));
    Distribute(rank, AllocQty(alt[v]), SplitQty(names[..k] + names[k + 1..], o, books, alt));
  }

  lemma {:induction false} Distribute(a: int, b: int, c: int) ensures a * (b + c) == a * b + a * c {}

  lemma {:induction false} Removed(order: seq<Text>, names: seq<Text>, k: nat)
    requires Texts.Distinct(order) && Texts.Distinct(names) && order != [] && k < |names| && names[k] == order[0]
    requires forall i :: 0 <= i < |order| ==> order[i] in names
    ensures var rest := names[..k] + names[k + 1..];
      && Texts.Distinct(order[1..]) && Texts.Distinct(rest)
      && (forall i :: 0 <= i < |rest| ==> rest[i] in names && (rest[i] in order[1..] <==> rest[i] in order))
      && (forall i :: 0 <= i < |order[1..]| ==> order[1..][i] in rest && order[1..][i] in order)
  {
    var rest := names[..k] + names[k + 1..];
    assert forall i :: 0 <= i < |rest| ==> rest[i] == names[if i < k then i else i + 1];
    assert order == [order[0]] + order[1..];
    forall i | 0 <= i < |order[1..]| ensures order[1..][i] in rest {
      assert order[i + 1] in names;
      var j :| 0 <= j < |names| && names[j] == order[i + 1];
      assert j != k;
      assert rest[if j < k then j else j - 1] == names[j];
    }
  }

  lemma {:induction false} SplitPaysThreshold(o: Order, books: map<Text, FlatBook>, collarBps: int, names: seq<Text>,
      alt: map<Text, seq<int>>, rank: int)
    requires Routable(o, books, collarBps) && Split(o, books, collarBps, alt) && Known(names, o, books, alt)
    requires forall i :: 0 <= i < |names| ==> QueueQty(o, collarBps, Facing(o, books[names[i]]), Below(rank)) <= 0
    ensures SplitCost(names, o, books, alt) >= rank * SplitQty(names, o, books, alt)
  {
    hide FlatBook.Valid, FlatBook.Seen, Facing, AllocCost, AllocQty, Takable, QueueQty;
    if names != [] {
      var v := names[0];
      FacingReady(o, books[v]);
      QueueBounds(o, collarBps, Facing(o, books[v]), Below(rank));
      NothingBelow(o, collarBps, Facing(o, books[v]), rank, alt[v]);
      SplitPaysThreshold(o, books, collarBps, names[1..], alt, rank);
      Distribute(rank, AllocQty(alt[v]), SplitQty(names[1..], o, books, alt));
    }
  }

  /** The outcome of routing an order: its plan carried out. */
  ghost function Routed(o: Order, books: map<Text, FlatBook>, venues: seq<Venue>, collarBps: int): Executed
    requires Routable(o, books, collarBps)
  {
    RouteNamesBooks(o, books, venues, collarBps);
    Execute(books, o, Route(o, books, venues, collarBps))
  }

  lemma {:induction false} RoutedIs(o: Order, books: map<Text, FlatBook>, venues: seq<Venue>, collarBps: int)
      returns (st: Planning, rank: int)
    requires Routable(o, books, collarBps)
    ensures st == Plan(o, books, venues, collarBps, DEPTH) && Planful(o, books, collarBps, st, rank)
    ensures Texts.Distinct(st.order)
    ensures forall i :: 0 <= i < |st.order| ==> st.order[i] in books && Get(st.planned, st.order[i]) > 0
    ensures Routed(o, books, venues, collarBps).fills == FillsIn(Slices(st.order, st.planned, o, books))
    ensures Routed(o, books, venues, collarBps).books.Keys == books.Keys
    ensures forall v :: v in books ==>
      Routed(o, books, venues, collarBps).books[v] ==
        if v in st.order then SliceResult(o, books[v], Get(st.planned, v)).0 else books[v]
  {
    hide Planful, Plan, Execute, Submit, FlatBook.Valid;
    st := Plan(o, books, venues, collarBps, DEPTH);
    rank := PlanIsPlanful(o, books, venues, collarBps);
    OrderInBooks(o, books, collarBps, st, rank);
    ExecuteIsSlices(o, books, st.order, st.planned, books);
  }

  predicate FillsWhole(o: Order, b: FlatBook, qty: int)
  {
    var r := Submit(b, Slice(o, qty)).1;
    r.disposition == Complete && FilledQty(r.fills) == qty && r.remaining == 0
  }

  /** Every planned slice fills completely in its venue. */
  lemma {:induction false} EverySliceFills(o: Order, books: map<Text, FlatBook>, venues: seq<Venue>, collarBps: int)
    requires Routable(o, books, collarBps)
    ensures var plan := Route(o, books, venues, collarBps);
      forall i :: 0 <= i < |plan| ==>
        plan[i].venue in books && plan[i].qty > 0 && FillsWhole(o, books[plan[i].venue], plan[i].qty)
  {
    hide Submit, Facing, QueueQty, FlatBook.Valid, Plan;
    var st, rank := RoutedIs(o, books, venues, collarBps);
    StepsAt(st.order, st.planned);
    forall v | v in st.order ensures v in books && FillsWhole(o, books[v], Get(st.planned, v)) {
      TakableNothing(o, collarBps, Facing(o, books[v]), books[v]);
      SliceCheapest(o, books[v], Get(st.planned, v), collarBps, rank, Nothing(|Facing(o, books[v])|));
    }
  }

  lemma {:induction false} TakableNothing(o: Order, collarBps: int, q: seq<Order>, b: FlatBook)
    requires b.Valid() && q == Facing(o, b)
    ensures Takable(o, collarBps, q, Nothing(|q|))
  {
    FacingReady(o, b);
  }

  lemma {:induction false} StepsAt(order: seq<Text>, planned: map<Text, int>)
    ensures |StepsOf(order, planned)| == |order|
    ensures forall i :: 0 <= i < |order| ==> StepsOf(order, planned)[i] == Step(order[i], Get(planned, order[i]))
  {
    if order != [] { StepsAt(order[1..], planned); }
  }

  lemma {:induction false} SplitKnown(o: Order, books: map<Text, FlatBook>, collarBps: int, alt: map<Text, seq<int>>)
    requires Split(o, books, collarBps, alt)
    ensures Known(Texts.Listed(books.Keys), o, books, alt)
  {
    var names := Texts.Listed(books.Keys);
    assert forall i :: 0 <= i < |names| ==> names[i] in names;
  }

  ghost function TotalQty(o: Order, books: map<Text, FlatBook>, collarBps: int, alt: map<Text, seq<int>>): int
    requires Split(o, books, collarBps, alt)
  {
    SplitKnown(o, books, collarBps, alt);
    SplitQty(Texts.Listed(books.Keys), o, books, alt)
  }

  ghost function TotalCost(o: Order, books: map<Text, FlatBook>, collarBps: int, alt: map<Text, seq<int>>): int
    requires Split(o, books, collarBps, alt)
  {
    SplitKnown(o, books, collarBps, alt);
    SplitCost(Texts.Listed(books.Keys), o, books, alt)
  }

  /** No split of the routed quantity over the crossing liquidity of the venues has a better total price. */
  lemma {:induction false} RouteIsLeastCost(o: Order, books: map<Text, FlatBook>, venues: seq<Venue>, collarBps: int,
      alt: map<Text, seq<int>>)
    requires Routable(o, books, collarBps) && Split(o, books, collarBps, alt)
    requires TotalQty(o, books, collarBps, alt) == FilledQty(Routed(o, books, venues, collarBps).fills)
    ensures FillsCost(o.side, Routed(o, books, venues, collarBps).fills) <= TotalCost(o, books, collarBps, alt)
  {
    SplitKnown(o, books, collarBps, alt);
    hide Routable, Split, Known, Routed, Facing, QueueQty, Plan;
    var names := Texts.Listed(books.Keys);
    var st, rank := RoutedIs(o, books, venues, collarBps);
    ListedDistinct(books.Keys);
    assert forall i :: 0 <= i < |names| ==> names[i] in names;
    assert Within(o, books, collarBps, names, st.order, st.planned, rank) by {
      PlanWithin(o, books, collarBps, st, names, rank);
    }
    hide Planful, Texts.Listed;
    PlanBeatsSplit(o, books, collarBps, st.order, st.planned, names, alt, rank);
  }

  lemma {:induction false} PlanWithin(o: Order, books: map<Text, FlatBook>, collarBps: int, st: Planning,
      names: seq<Text>, rank: int)
    requires Planful(o, books, collarBps, st, rank) && forall i :: 0 <= i < |names| ==> names[i] in books
    ensures Within(o, books, collarBps, names, st.order, st.planned, rank)
  {
    hide QueueQty, Facing;
  }

  /** Whatever part of the order the plan leaves out, no venue has anything left that it could cross. */
  lemma {:induction false} UnroutedMeansExhausted(o: Order, books: map<Text, FlatBook>, venues: seq<Venue>,
      collarBps: int)
    requires Routable(o, books, collarBps)
    ensures var r := Routed(o, books, venues, collarBps);
      FilledQty(r.fills) < o.remaining ==>
        (forall v, i :: v in r.books && 0 <= i < |Facing(o, r.books[v])| ==>
          !Crosses(o, Facing(o, r.books[v])[i].limitPrice, collarBps))
  {
    hide Facing, QueueQty, Plan, Submit, Crosses, Split, FlatBook.Valid, Routed, PlanOver, SliceResult;
    var st, rank := RoutedIs(o, books, venues, collarBps);
    var r := Routed(o, books, venues, collarBps);
    SlicesTotal(o, books, collarBps, st, st.order, rank);
    if FilledQty(r.fills) < o.remaining {
      forall v | v in r.books
        ensures forall i :: 0 <= i < |Facing(o, r.books[v])| ==>
          !Crosses(o, Facing(o, r.books[v])[i].limitPrice, collarBps)
      {
        if v in st.order { SliceExhausts(o, books[v], Get(st.planned, v), collarBps); }
        else { NothingCrosses(o, books[v], collarBps); }
      }
    }
  }

  lemma {:induction false} SlicesTotal(o: Order, books: map<Text, FlatBook>, collarBps: int, st: Planning,
      order: seq<Text>, rank: int)
    requires Routable(o, books, collarBps) && Planful(o, books, collarBps, st, rank)
    requires forall i :: 0 <= i < |order| ==> order[i] in books && Get(st.planned, order[i]) > 0
    ensures FilledQty(FillsIn(Slices(order, st.planned, o, books))) == OrderTotal(order, st.planned)
    decreases |order|
  {
    hide Facing, QueueQty, FlatBook.Valid, SliceResult;
    if order != [] {
      var v := order[0];
      TakableNothing(o, collarBps, Facing(o, books[v]), books[v]);
      SliceCheapest(o, books[v], Get(st.planned, v), collarBps, rank, Nothing(|Facing(o, books[v])|));
      SlicesTotal(o, books, collarBps, st, order[1..], rank);
      FillsCostSplit(o.side, SliceResult(o, books[v], Get(st.planned, v)).1.fills,
        FillsIn(Slices(order[1..], st.planned, o, books)));
    }
  }

  lemma {:induction false} SliceExhausts(o: Order, b: FlatBook, qty: int, collarBps: int)
    requires b.Valid() && !b.Seen(o.id) && b.config.collarBps == collarBps
    requires qty > 0 && qty == QueueQty(o, collarBps, Facing(o, b), Any)
    ensures var q := Facing(o, SliceResult(o, b, qty).0);
      forall i :: 0 <= i < |q| ==> !Crosses(o, q[i].limitPrice, collarBps)
  {
    FacingReady(o, b);
    var p := SliceMatches(o, b, qty, collarBps);
    assert forall price :: Crosses(p, price, collarBps) == Crosses(o, price, collarBps);
    SameQueueQty(o, p, collarBps, Facing(o, b), Any);
    hide FlatBook.Valid, FlatBook.Seen, SliceResult, Facing, Ready, Crosses;
    VenueExhausted(b.config, p, Facing(o, b), b.bookSeq);
  }

  lemma {:induction false} NothingCrosses(o: Order, b: FlatBook, collarBps: int)
    requires b.Valid() && QueueQty(o, collarBps, Facing(o, b), Any) == 0
    ensures forall i :: 0 <= i < |Facing(o, b)| ==> !Crosses(o, Facing(o, b)[i].limitPrice, collarBps)
  {
    FacingReady(o, b);
    hide Facing, FlatBook.Valid, Crosses;
    var q := Facing(o, b);
    if q != [] {
      QueueBounds(o, collarBps, q[1..], Any);
      assert !Crosses(o, q[0].limitPrice, collarBps);
      forall i | 0 <= i < |q| ensures !Crosses(o, q[i].limitPrice, collarBps) {
        if i > 0 { CrossesByRank(o, collarBps, q[0].limitPrice, q[i].limitPrice); }
      }
    }
  }
}
