/** When an order the shard reports as rested is in a book at all (internal/matching/matching.go, onOrder): the
    remainder is
    submitted under the order's own id, and a book that has taken a slice of the order has already seen that id. */
module Resting {
  import opened Types
  import opened OrderBook
  import opened Router
  import opened Matching
  import opened Desk
  import opened DeskRuns
  import opened Dedup
  import Best = BestExecution
  import Recovery
  import Texts

  // ---- one book ---------------------------------------------------------------------------------------------

  /** A book that has not seen an order keeps exactly what it did not fill of it. */
  lemma {:induction false} RestsWhatIsLeft(b: FlatBook, o: Order)
    requires b.Valid() && Submittable(o) && o.remaining > 0 && !b.Seen(o.id) && o.typ == Limit && o.tif == GTC
    ensures RestOf(Submit(b, o).0, o.id) == o.remaining - FilledQty(Submit(b, o).1.fills)
  {
    hide Match, Insert, Crosses, AfterMatch, Rest, RestOf, FlatBook.Valid, FlatBook.Live;
    var a := Admit(b, o);
    var m := Match(b.config, a, b.Queue(o.side.Opposite()), b.bookSeq);
    AfterMatchTakes(b, a, o.id);
    RestAddsTo(AfterMatch(b, a, m), a.(remaining := m.left), o.id);
  }

  /** A submitted id is seen from then on. */
  lemma {:induction false} SeenOnceSubmitted(b: FlatBook, o: Order)
    requires b.dedup.limit > 0
    ensures Submit(b, o).0.Seen(o.id) && Submit(b, o).0.dedup.limit == b.dedup.limit
    ensures b.Seen(o.id) ==> Submit(b, o) == (b, SubmitResult([], Cancelled, 0, Duplicate, true))
  {
    hide Match, Insert, FlatBook.Live;
  }

  // ---- the routed slices ---------------------------------------------------------------------------------------

  ghost predicate Visits(steps: seq<Step>, v: Text) { exists i :: 0 <= i < |steps| && steps[i].venue == v }

  ghost predicate Roomy(m: VenueMap) { forall v :: v in m ==> m[v].dedup.limit > 0 }

  /** The venues with a slice have seen the order; the others are as they were. */
  lemma {:induction false} VisitedHaveSeen(m: VenueMap, o: Order, steps: seq<Step>)
    requires StepsAmong(steps, m.Keys) && Roomy(m)
    ensures Execute(m, o, steps).books.Keys == m.Keys
    ensures forall v :: v in m && (Visits(steps, v) || m[v].Seen(o.id)) ==> Execute(m, o, steps).books[v].Seen(o.id)
    ensures forall v :: v in m && !Visits(steps, v) ==> Execute(m, o, steps).books[v] == m[v]
    decreases |steps|
  {
    hide Submit, FlatBook.Seen;
    if steps != [] {
      var u, s := steps[0].venue, Slice(o, steps[0].qty);
      SeenOnceSubmitted(m[u], s);
      var next := m[u := Submit(m[u], s).0];
      assert next.Keys == m.Keys;
      VisitedHaveSeen(next, o, steps[1..]);
      forall v | v in m ensures Visits(steps, v) <==> v == u || Visits(steps[1..], v) { VisitsFirst(steps, v); }
    }
  }

  lemma {:induction false} VisitsFirst(steps: seq<Step>, v: Text)
    requires steps != []
    ensures Visits(steps, v) <==> v == steps[0].venue || Visits(steps[1..], v)
  {
    if Visits(steps[1..], v) {
      var i :| 0 <= i < |steps[1..]| && steps[1..][i].venue == v;
      assert steps[i + 1].venue == v;
    }
    if Visits(steps, v) {
      var i :| 0 <= i < |steps| && steps[i].venue == v;
      if i > 0 { assert steps[1..][i - 1].venue == v; }
    }
  }

  // ---- the remainder ---------------------------------------------------------------------------------------------

  ghost function PlanFor(cfg: ShardConfig, m: Inbound, books: VenueMap): seq<Step>
    requires m.OrderAccepted?
  {
    Route(OrderOf(m), books, cfg.venues, cfg.collarBps)
  }

  /** A slice of the order goes to the very venue its remainder would rest at. */
  ghost predicate RoutedToHost(cfg: ShardConfig, m: Inbound, books: VenueMap)
    requires m.OrderAccepted?
  {
    Visits(PlanFor(cfg, m, books), HostVenue(cfg, m.venue, books))
  }

  /** What rests of the order at each venue after it was placed. */
  ghost predicate RestsExactly(cfg: ShardConfig, m: Inbound, books: VenueMap, p: Placed)
    requires m.OrderAccepted?
  {
    forall v :: v in p.books ==>
      RestOf(p.books[v], m.order) ==
        if v == HostVenue(cfg, m.venue, books) && !RoutedToHost(cfg, m, books) then p.remaining else 0
  }

  ghost predicate Unseen(m: VenueMap, id: Uuid) { forall v :: v in m ==> !m[v].Seen(id) }

  /** What the routed slices leave at the venue of the remainder. */
  lemma {:induction false} HostAfterSlices(cfg: ShardConfig, m: Inbound, books: VenueMap)
    requires m.OrderAccepted? && Roomy(books) && Unseen(books, m.order)
    ensures StepsAmong(PlanFor(cfg, m, books), books.Keys)
    ensures var ex, host := Execute(books, OrderOf(m), PlanFor(cfg, m, books)), HostVenue(cfg, m.venue, books);
      && ex.books.Keys == books.Keys && HostVenue(cfg, m.venue, ex.books) == host
      && (HostBook(cfg, m.symbol, host, ex.books).Seen(m.order) <==> RoutedToHost(cfg, m, books))
      && HostBook(cfg, m.symbol, host, ex.books).dedup.limit > 0
  {
    RouteNamesBooks(OrderOf(m), books, cfg.venues, cfg.collarBps);
    hide Execute, Route, FlatBook.Live, Submit;
    var steps := PlanFor(cfg, m, books);
    VisitedHaveSeen(books, OrderOf(m), steps);
    var ex, host := Execute(books, OrderOf(m), steps), HostVenue(cfg, m.venue, books);
    if host !in books {
      NewUnseen(cfg, m.symbol, host, m.order);
      assert !Visits(steps, host);
    } else {
      LimitsKept(books, OrderOf(m), steps);
    }
  }

  lemma {:induction false} NewUnseen(cfg: ShardConfig, symbol: Text, v: Text, id: Uuid)
    ensures !NewBook(cfg, symbol, v).Seen(id) && NewBook(cfg, symbol, v).dedup.limit > 0
  {}

  lemma {:induction false} LimitsKept(m: VenueMap, o: Order, steps: seq<Step>)
    requires StepsAmong(steps, m.Keys) && Roomy(m)
    ensures Roomy(Execute(m, o, steps).books)
    decreases |steps|
  {
    hide Submit, FlatBook.Seen;
    if steps != [] {
      var u, s := steps[0].venue, Slice(o, steps[0].qty);
      SeenOnceSubmitted(m[u], s);
      assert m[u := Submit(m[u], s).0].Keys == m.Keys;
      LimitsKept(m[u := Submit(m[u], s).0], o, steps[1..]);
    }
  }

  /** The remainder at its venue: refused as a duplicate, or resting in full. */
  lemma {:induction false} RemainderRests(b: FlatBook, o: Order)
    requires b.Valid() && Submittable(o) && o.remaining > 0 && b.dedup.limit > 0 && o.typ == Limit && o.tif == GTC
    requires RestOf(b, o.id) == 0
    ensures var (b', r) := Submit(b, o);
      RestOf(b', o.id) == if b.Seen(o.id) then 0 else o.remaining - FilledQty(r.fills)
  {
    hide RestOf, FilledQty, Submit, FlatBook.Seen, FlatBook.Valid;
    SeenOnceSubmitted(b, o);
    if !b.Seen(o.id) { RestsWhatIsLeft(b, o); }
  }

  lemma {:induction false} HostIsReady(cfg: ShardConfig, facts: Facts, m: Inbound, books: VenueMap, ids: set<Uuid>)
    requires m.OrderAccepted? && VenuesOk(cfg, facts, m.symbol, books, ids) && Absent(books, m.order)
    ensures var b := HostBook(cfg, m.symbol, HostVenue(cfg, m.venue, books), books);
      b.Valid() && RestOf(b, m.order) == 0
  {
    var host := HostVenue(cfg, m.venue, books);
    if host in books {
      assert BookSound(cfg, m.symbol, host, books[host], ids);
    } else {
      EmptyNewBook(cfg, facts, m.symbol, host);
      assert NewBook(cfg, m.symbol, host).Valid();
    }
  }

  /** Placing an order new to every book: it rests, in full and at one venue, exactly when no slice was routed there. */
  lemma {:induction false} PlaceRests(cfg: ShardConfig, facts: Facts, m: Inbound, books: VenueMap, ids: set<Uuid>)
    requires m.OrderAccepted? && Proper(m) && m.order in ids && OrderTrue(facts, m.symbol, OrderOf(m))
    requires VenuesOk(cfg, facts, m.symbol, books, ids) && Absent(books, m.order) && Roomy(books)
    requires Unseen(books, m.order)
    requires Place(cfg, m, books).disposition == Rested
    ensures RestsExactly(cfg, m, books, Place(cfg, m, books))
  {
    hide OrderTrue, VenuesOk, FilledQty, Execute, Route, RestOf, Submit, HostBook, FlatBook.Seen, TradedOk, HostVenue,
      FlatBook.Valid, Unseen, RoutedToHost, Place, Roomy, RemainderOf;
    var steps, ex := PlaceRouted(cfg, facts, m, books, ids);
    assert steps == PlanFor(cfg, m, books);
    HostAfterSlices(cfg, m, books);
    HostIsReady(cfg, facts, m, ex.books, ids);
    StillToRest(cfg, m, ex);
    RemainderFits(m, ex);
    var host, rest := HostVenue(cfg, m.venue, books), RemainderOf(m, ex);
    var s := Submit(HostBook(cfg, m.symbol, host, ex.books), rest);
    RemainderIs(m, ex);
    RemainderRests(HostBook(cfg, m.symbol, host, ex.books), rest);
    HostPlacement(cfg, m, ex, host, s);
    LeftToRest(cfg, m, ex, host);
  }

  lemma {:induction false} RemainderIs(m: Inbound, ex: Executed)
    requires m.OrderAccepted?
    ensures var rest := RemainderOf(m, ex);
      rest.typ == m.typ && rest.tif == m.tif && rest.id == m.order && rest.remaining == m.qty - FilledQty(ex.fills)
  {
    hide FilledQty;
  }

  lemma {:induction false} StillToRest(cfg: ShardConfig, m: Inbound, ex: Executed)
    requires m.OrderAccepted? && PlaceRest(cfg, m, OrderOf(m), ex).disposition == Rested
    requires 0 <= FilledQty(ex.fills) <= m.qty
    ensures FilledQty(ex.fills) < m.qty && m.typ == Limit && m.tif == GTC
  {
    hide Submit, NewBook, FilledQty, HostBook;
  }

  lemma {:induction false} LeftToRest(cfg: ShardConfig, m: Inbound, ex: Executed, host: Text)
    requires m.OrderAccepted? && FilledQty(ex.fills) < m.qty && m.typ == Limit && m.tif == GTC
    requires host == HostVenue(cfg, m.venue, ex.books)
    ensures PlaceRest(cfg, m, OrderOf(m), ex).remaining ==
      m.qty - FilledQty(ex.fills) -
        FilledQty(Submit(HostBook(cfg, m.symbol, host, ex.books), RemainderOf(m, ex)).1.fills)
  {
    hide Submit, NewBook, FilledQty, HostBook;
  }

  // ---- at a reachable shard ----------------------------------------------------------------------------------------

  /** No book of the shard has seen an order that was never handed to it. */
  lemma {:induction false} NewIsUnseen(cfg: ShardConfig, facts: Facts, m: VenueMap, symbol: Text, ids: set<Uuid>,
      id: Uuid)
    requires VenuesOk(cfg, facts, symbol, VenueBooks(cfg, symbol, m), ids)
    requires id !in ids
    ensures Roomy(VenueBooks(cfg, symbol, m)) && Unseen(VenueBooks(cfg, symbol, m), id)
  {
    hide VenueBooks;
    var books := VenueBooks(cfg, symbol, m);
    forall v | v in books ensures books[v].dedup.limit > 0 && !books[v].Seen(id) {
      assert BookSound(cfg, symbol, v, books[v], ids);
      if books[v].Live(id) { LiveIsKnown(books[v], id); }
    }
  }

  /** The venues an order new to a reachable shard is placed on have not seen it. */
  lemma {:induction false} FreshIsUnseen(cfg: ShardConfig, facts: Facts, y: Story, m: Inbound)
    requires DeskRuns.Fresh(cfg, facts, y, m)
    ensures Roomy(BooksFor(cfg, y, m)) && Unseen(BooksFor(cfg, y, m), m.order)
  {
    hide VenueBooks, VenuesOk, StoryOk, ProperConfig;
    var before := At(y.shard.books, m.symbol);
    assert VenuesOk(cfg, facts, m.symbol, before, y.ids) by { AtFresh(cfg, facts, y, m); }
    VenueBooksOk(cfg, facts, m.symbol, before, y.ids);
    NewIsUnseen(cfg, facts, before, m.symbol, y.ids, m.order);
  }

  lemma {:induction false} AtFresh(cfg: ShardConfig, facts: Facts, y: Story, m: Inbound)
    requires DeskRuns.Fresh(cfg, facts, y, m)
    ensures VenuesOk(cfg, facts, m.symbol, At(y.shard.books, m.symbol), y.ids)
  {
    hide VenuesOk, Room, OutsOk, MarketOk;
    AtOk(cfg, facts, y, m.symbol);
  }

  /** An order reported as rested, at any reachable shard, is in a book exactly when its plan sent no slice to the venue
      its
      remainder goes to; it then rests there with all that is reported left, and nowhere else. */
  lemma {:induction false} RestedIsInABookIff(cfg: ShardConfig, facts: Facts, y: Story, m: Inbound)
    requires DeskRuns.Fresh(cfg, facts, y, m)
    requires Place(cfg, m, BooksFor(cfg, y, m)).disposition == Rested
    ensures var books := BooksFor(cfg, y, m);
      var p := Place(cfg, m, books);
      && RestsExactly(cfg, m, books, p) && p.remaining > 0
      && ((exists v :: v in p.books && RestOf(p.books[v], m.order) > 0) <==> !RoutedToHost(cfg, m, books))
  {
    FreshIsUnseen(cfg, facts, y, m);
    var books, ids := FreshPlaced(cfg, facts, y, m);
    hide VenuesOk, StoryOk, ProperConfig, Place, BooksFor, Absent, Room, SeqAt, RestOf, RoutedToHost, FilledQty,
      FlatBook.Seen, HostVenue;
    PlaceSound(cfg, m, books, ids);
    PlaceRests(cfg, facts, m, books, ids);
    HostIsThere(cfg, m, books);
    var p := Place(cfg, m, books);
    if !RoutedToHost(cfg, m, books) { assert RestOf(p.books[HostVenue(cfg, m.venue, books)], m.order) > 0; }
  }

  /** The venue of the remainder is among the books afterwards. */
  lemma {:induction false} HostIsThere(cfg: ShardConfig, m: Inbound, books: VenueMap)
    requires m.OrderAccepted? && Place(cfg, m, books).disposition == Rested && Roomy(books) && Unseen(books, m.order)
    ensures HostVenue(cfg, m.venue, books) in Place(cfg, m, books).books
  {
    HostAfterSlices(cfg, m, books);
    hide Execute, Route, Submit, FilledQty, HostBook, HostVenue, RoutedToHost;
    var ex := Execute(books, OrderOf(m), PlanFor(cfg, m, books));
    assert Place(cfg, m, books) == PlaceRest(cfg, m, OrderOf(m), ex);
    HostAmong(cfg, m, ex);
  }

  lemma {:induction false} HostAmong(cfg: ShardConfig, m: Inbound, ex: Executed)
    requires m.OrderAccepted? && PlaceRest(cfg, m, OrderOf(m), ex).disposition == Rested
    ensures HostVenue(cfg, m.venue, ex.books) in PlaceRest(cfg, m, OrderOf(m), ex).books
  {
    hide Submit, FilledQty, HostBook, HostVenue;
  }

  // ---- a shard with one venue
  // -----------------------------------------------------------------------------------------

  lemma {:induction false} NothingToMatch(b: FlatBook, o: Order)
    requires !b.Seen(o.id)
    requires forall i :: 0 <= i < |Best.Facing(o, b)| ==>
      !Crosses(o, Best.Facing(o, b)[i].limitPrice, b.config.collarBps)
    ensures Submit(b, o).1.fills == []
  {
    hide FlatBook.Live, Insert, Crosses;
    var a, q := Admit(b, o), Best.Facing(o, b);
    CrossesAlike(a, o, b.config.collarBps);
    assert q == [] || !Crosses(o, q[0].limitPrice, b.config.collarBps);
    assert Match(b.config, a, b.Queue(a.side.Opposite()), b.bookSeq).fills == [];
  }

  lemma {:induction false} CrossesAlike(a: Order, o: Order, collarBps: int)
    requires a.typ == o.typ && a.side == o.side && a.limitPrice == o.limitPrice && a.refPrice == o.refPrice
    ensures forall price :: Crosses(a, price, collarBps) == Crosses(o, price, collarBps)
  {}

  /** With a single venue, an order that trades a part as it comes in and is then reported as rested is in no book: the
      venue has taken its slice, and passes the remainder over as a duplicate. */
  lemma {:induction false} OneVenueLosesRemainders(cfg: ShardConfig, facts: Facts, y: Story, m: Inbound)
    requires DeskRuns.Fresh(cfg, facts, y, m)
    requires BooksFor(cfg, y, m).Keys == {HostVenue(cfg, m.venue, BooksFor(cfg, y, m))}
    requires Best.Visible(BooksFor(cfg, y, m), m.side, DEPTH)
    requires var p := Place(cfg, m, BooksFor(cfg, y, m)); p.disposition == Rested && p.fills != []
    ensures Absent(Place(cfg, m, BooksFor(cfg, y, m)).books, m.order)
  {
    var books := BooksFor(cfg, y, m);
    RestedIsInABookIff(cfg, facts, y, m);
    FreshIsRoutable(cfg, facts, y, m);
    hide VenuesOk, StoryOk, ProperConfig, Place, BooksFor, RestOf, RoutedToHost, DeskRuns.Fresh, Best.Routable;
    NoSliceNoFill(cfg, m, books);
  }

  lemma {:induction false} FreshIsRoutable(cfg: ShardConfig, facts: Facts, y: Story, m: Inbound)
    requires DeskRuns.Fresh(cfg, facts, y, m) && Best.Visible(BooksFor(cfg, y, m), m.side, DEPTH)
    ensures Best.Routable(OrderOf(m), BooksFor(cfg, y, m), cfg.collarBps) && m.order != NIL && m.qty > 0
  {
    FreshIsUnseen(cfg, facts, y, m);
    assert FactOk(m.order, facts[m.order]);
    hide StoryOk, ProperConfig, Place, BooksFor, FlatBook.Seen, Best.Visible, FactsOk, VenuesOk, VenuesSound;
    var books, ids := FreshPlaced(cfg, facts, y, m);
    BooksValid(cfg, m.symbol, books, ids);
  }

  lemma {:induction false} BooksValid(cfg: ShardConfig, symbol: Text, books: VenueMap, ids: set<Uuid>)
    requires VenuesSound(cfg, symbol, books, ids)
    ensures forall v :: v in books ==> books[v].Valid() && books[v].config.collarBps == cfg.collarBps
  {
    forall v | v in books
      ensures books[v].Valid() && books[v].config.collarBps == cfg.collarBps
    {
      assert BookSound(cfg, symbol, v, books[v], ids);
    }
  }

  /** At the only venue, no slice means that nothing crossed, so the remainder trades nothing there either. */
  lemma {:induction false} NoSliceNoFill(cfg: ShardConfig, m: Inbound, books: VenueMap)
    requires m.OrderAccepted? && Best.Routable(OrderOf(m), books, cfg.collarBps)
    requires books.Keys == {HostVenue(cfg, m.venue, books)} && Place(cfg, m, books).disposition == Rested
    ensures !RoutedToHost(cfg, m, books) ==> Place(cfg, m, books).fills == []
  {
    RouteNamesBooks(OrderOf(m), books, cfg.venues, cfg.collarBps);
    var o, host, plan := OrderOf(m), HostVenue(cfg, m.venue, books), PlanFor(cfg, m, books);
    OnlyVenue(plan, host);
    Best.UnroutedMeansExhausted(o, books, cfg.venues, cfg.collarBps);
    if plan == [] {
      assert Best.Routed(o, books, cfg.venues, cfg.collarBps) == Executed(books, []);
      hide Route, Crosses, Submit, FlatBook.Seen, FlatBook.Valid, Best.Visible, HostVenue;
      NothingToMatch(books[host], o);
      RestIsWhole(cfg, m, books, host);
    }
  }

  lemma {:induction false} OnlyVenue(plan: seq<Step>, host: Text)
    requires StepsAmong(plan, {host})
    ensures !Visits(plan, host) ==> plan == []
  {
    if plan != [] { assert plan[0].venue == host; }
  }

  lemma {:induction false} RestIsWhole(cfg: ShardConfig, m: Inbound, books: VenueMap, host: Text)
    requires m.OrderAccepted? && host in books && host == HostVenue(cfg, m.venue, books)
    requires Submit(books[host], OrderOf(m)).1.fills == []
    ensures PlaceRest(cfg, m, OrderOf(m), Executed(books, [])).fills == []
  {
    hide Submit, HostVenue;
    assert OrderOf(m).(qty := m.qty, remaining := m.qty) == OrderOf(m);
  }

  // ---- it happens
  // ------------------------------------------------------------------------------------------------------

  /** One unit offered at a price, and a good-till-cancelled bid for two at that price. */
  predicate Meet(sell: Inbound, buy: Inbound)
  {
    && sell.OrderAccepted? && sell.side == Sell && sell.typ == Limit && sell.tif == GTC && sell.qty == 1
    && buy.OrderAccepted? && buy.side == Buy && buy.typ == Limit && buy.tif == GTC && buy.qty == 2
    && buy.symbol == sell.symbol && buy.limitPrice == sell.limitPrice && buy.order != sell.order
  }

  predicate OneVenue(cfg: ShardConfig)
  {
    |cfg.venues| == 1 && cfg.venues[0].name == DEFAULT_VENUE && cfg.dedupWindow > 1
  }

  function Offered(cfg: ShardConfig, sell: Inbound): FlatBook
    requires sell.OrderAccepted?
  {
    var b := NewBook(cfg, sell.symbol, DEFAULT_VENUE);
    b.(asks := [OrderOf(sell).(seqNo := 1)], arrival := 1, dedup := Window(cfg.dedupWindow, [sell.order]))
  }

  function Traded(cfg: ShardConfig, sell: Inbound, buy: Inbound): FlatBook
    requires sell.OrderAccepted? && buy.OrderAccepted?
  {
    Offered(cfg, sell).(asks := [], bookSeq := 1, arrival := 2, dedup :=
      Window(cfg.dedupWindow, [sell.order, buy.order]))
  }

  lemma {:induction false} OneName(cfg: ShardConfig)
    requires OneVenue(cfg)
    ensures VenueNames(cfg.venues) == {DEFAULT_VENUE} && Texts.Listed({DEFAULT_VENUE}) == [DEFAULT_VENUE]
  {
    assert cfg.venues[1..] == [];
    var names := Texts.Listed({DEFAULT_VENUE});
    assert names[0] == DEFAULT_VENUE by { assert DEFAULT_VENUE in names; assert names[0] in names; }
    if |names| > 1 {
      assert names[1] in names;
      assert Texts.Less(names[0], names[1]);
      Texts.LessTotal(names[0], names[1]);
    }
  }

  lemma {:induction false} SellSubmits(cfg: ShardConfig, sell: Inbound, buy: Inbound)
    requires OneVenue(cfg) && Meet(sell, buy)
    ensures Submit(NewBook(cfg, sell.symbol, DEFAULT_VENUE), OrderOf(sell)) ==
      (Offered(cfg, sell), SubmitResult([], Rested, 1, NoReason, false))
  {
    var b, o := NewBook(cfg, sell.symbol, DEFAULT_VENUE), OrderOf(sell).(seqNo := 1);
    assert Admit(b, OrderOf(sell)) == o;
    assert b.dedup.Push(sell.order).recent == [sell.order];
    assert Insert(Sell, [], o) == [o];
  }

  lemma {:induction false} SliceTrades(cfg: ShardConfig, sell: Inbound, buy: Inbound)
    requires OneVenue(cfg) && Meet(sell, buy)
    ensures var (b, r) := Submit(Offered(cfg, sell), Slice(OrderOf(buy), 1));
      b == Traded(cfg, sell, buy) && |r.fills| == 1 && FilledQty(r.fills) == 1
  {
    var b, o := Offered(cfg, sell), Slice(OrderOf(buy), 1).(seqNo := 2);
    assert Admit(b, Slice(OrderOf(buy), 1)) == o;
    assert b.dedup.Push(buy.order).recent == [sell.order, buy.order];
    var q := [OrderOf(sell).(seqNo := 1)];
    assert q[1..] == [] && !HasId(b.bids, buy.order) && !HasId(b.asks, buy.order);
    var f := FillFor(b.config, o, q[0], 1, 1);
    assert Match(b.config, o, q, 0) == Matched(0, [], [f]);
    assert [f][1..] == [];
  }

  lemma {:induction false} SellPlaced(cfg: ShardConfig, sell: Inbound, buy: Inbound)
    requires OneVenue(cfg) && Meet(sell, buy)
    ensures Place(cfg, sell, map[DEFAULT_VENUE := NewBook(cfg, sell.symbol, DEFAULT_VENUE)]) ==
      Placed(map[DEFAULT_VENUE := Offered(cfg, sell)], [], Rested, 1, NoReason)
  {
    var books: VenueMap, o := map[DEFAULT_VENUE := NewBook(cfg, sell.symbol, DEFAULT_VENUE)], OrderOf(sell);
    OneName(cfg);
    ListedIn(books);
    Recovery.NothingOffered(Texts.Listed(books.Keys), books, o.side, cfg.venues, DEPTH);
    assert Offers(o, books, cfg.venues, DEPTH) == [];
    assert Route(o, books, cfg.venues, cfg.collarBps) == [];
    SellSubmits(cfg, sell, buy);
    hide NewBook, Submit, Route;
    assert Execute(books, o, []) == Executed(books, []);
    assert o.(qty := 1, remaining := 1) == o;
    assert books[DEFAULT_VENUE := Offered(cfg, sell)] == map[DEFAULT_VENUE := Offered(cfg, sell)];
  }

  lemma {:induction false} BuyRouted(cfg: ShardConfig, sell: Inbound, buy: Inbound)
    requires OneVenue(cfg) && Meet(sell, buy)
    ensures Route(OrderOf(buy), map[DEFAULT_VENUE := Offered(cfg, sell)], cfg.venues, cfg.collarBps) ==
      [Step(DEFAULT_VENUE, 1)]
  {
    var books: VenueMap, o, p := map[DEFAULT_VENUE := Offered(cfg, sell)], OrderOf(buy), sell.limitPrice;
    OneName(cfg);
    ListedIn(books);
    var q := [OrderOf(sell).(seqNo := 1)];
    var quote := Quote(DEFAULT_VENUE, p, 1, Latency(cfg.venues, DEFAULT_VENUE));
    assert q[1..] == [] && Grouped(q) == [DepthLevel(p, 1)];
    OneQuote(books, cfg.venues, quote);
    var st := Planning(1, map[DEFAULT_VENUE := 1], [DEFAULT_VENUE]);
    assert Consider(o, cfg.collarBps, Planning(2, map[], []), quote) == st;
    assert [quote][1..] == [] && PlanOver(o, cfg.collarBps, Planning(2, map[], []), [quote]) == st;
    assert [DEFAULT_VENUE][1..] == [] && StepsOf(st.order, st.planned) == [Step(DEFAULT_VENUE, 1)];
  }

  lemma {:induction false} OneQuote(books: VenueMap, venues: seq<Venue>, quote: Quote)
    requires books.Keys == {DEFAULT_VENUE} && Texts.Listed({DEFAULT_VENUE}) == [DEFAULT_VENUE]
    requires Grouped(books[DEFAULT_VENUE].asks) == [DepthLevel(quote.price, quote.qty)]
    requires quote == Quote(DEFAULT_VENUE, quote.price, quote.qty, Latency(venues, DEFAULT_VENUE))
    ensures OffersOver([DEFAULT_VENUE], books, Buy, venues, DEPTH) == [quote] && SortQuotes(Buy, [quote]) == [quote]
  {
    var levels := [DepthLevel(quote.price, quote.qty)];
    assert Depth(books[DEFAULT_VENUE].asks, DEPTH) == levels && levels[1..] == [];
    assert QuotesOf(DEFAULT_VENUE, quote.latency, levels) == [quote];
    assert [DEFAULT_VENUE][1..] == [] && [quote] + [] == [quote] && [quote][1..] == [];
  }

  lemma {:induction false} BuyPlaced(cfg: ShardConfig, sell: Inbound, buy: Inbound)
    requires OneVenue(cfg) && Meet(sell, buy)
    ensures var p := Place(cfg, buy, map[DEFAULT_VENUE := Offered(cfg, sell)]);
      && p.books == map[DEFAULT_VENUE := Traded(cfg, sell, buy)] && FilledQty(p.fills) == 1
      && p.disposition == Rested && p.remaining == 1 && p.reason == NoReason
  {
    var books: VenueMap, o := map[DEFAULT_VENUE := Offered(cfg, sell)], OrderOf(buy);
    var after, step := Traded(cfg, sell, buy), Step(DEFAULT_VENUE, 1);
    BuyRouted(cfg, sell, buy);
    SliceTrades(cfg, sell, buy);
    assert Submit(after, o.(qty := 1, remaining := 1)).0 == after
      && Submit(after, o.(qty := 1, remaining := 1)).1.fills == [] by {
      assert after.dedup.recent[1] == buy.order;
    }
    hide Submit, Route, Offered, Traded;
    var r := Submit(books[DEFAULT_VENUE], Slice(o, 1)).1;
    assert [step][1..] == [] && r.fills + [] == r.fills;
    assert books[DEFAULT_VENUE := after] == map[DEFAULT_VENUE := after];
    assert Execute(books, o, [step]) == Executed(map[DEFAULT_VENUE := after], r.fills);
    assert map[DEFAULT_VENUE := after][DEFAULT_VENUE := after] == map[DEFAULT_VENUE := after];
  }

  lemma {:induction false} FreshVenues(cfg: ShardConfig, symbol: Text)
    requires OneVenue(cfg)
    ensures VenueBooks(cfg, symbol, At(Matching.Fresh(cfg).books, symbol)) ==
      map[DEFAULT_VENUE := NewBook(cfg, symbol, DEFAULT_VENUE)]
  {
    OneName(cfg);
    hide NewBook;
  }

  lemma {:induction false} OnceOffered(cfg: ShardConfig, sell: Inbound, buy: Inbound)
    requires OneVenue(cfg) && Meet(sell, buy)
    ensures StateAfter(cfg, Matching.Fresh(cfg), [sell]) ==
      Shard(map[sell.symbol := map[DEFAULT_VENUE := Offered(cfg, sell)]], Window(cfg.dedupWindow, [sell.order]))
  {
    hide Place, NewBook, OutcomesOf, Handle, VenueBooks, Offered;
    FreshVenues(cfg, sell.symbol);
    SellPlaced(cfg, sell, buy);
    HandlePlaces(cfg, Matching.Fresh(cfg), sell, map[DEFAULT_VENUE := NewBook(cfg, sell.symbol, DEFAULT_VENUE)]);
    assert [sell][..0] == [] && [sell][0] == sell;
    assert StateAfter(cfg, Matching.Fresh(cfg), []) == Matching.Fresh(cfg);
    assert Window(cfg.dedupWindow, []).Push(sell.order) == Window(cfg.dedupWindow, [sell.order]);
  }

  lemma {:induction false} AllVenues(cfg: ShardConfig, symbol: Text, b: FlatBook)
    requires OneVenue(cfg)
    ensures var m: VenueMap := map[DEFAULT_VENUE := b]; VenueBooks(cfg, symbol, m) == m
  {
    OneName(cfg);
  }

  /** At the default single venue, after one unit is offered, a bid for two at its price trades one, is reported as
      resting
      with one left, and is in no book. */
  lemma {:induction false} RestedButNowhere(cfg: ShardConfig, sell: Inbound, buy: Inbound)
    requires OneVenue(cfg) && Meet(sell, buy)
    ensures var (st, outs) := Handle(cfg, StateAfter(cfg, Matching.Fresh(cfg), [sell]), buy);
      && outs != [] && outs[|outs| - 1] == Verdict(buy.account, buy.order, buy.symbol, Rested, 1, NoReason)
      && forall s, v :: s in st.books && v in st.books[s] ==> !st.books[s][v].Live(buy.order)
  {
    var one: VenueMap := map[DEFAULT_VENUE := Offered(cfg, sell)];
    OnceOffered(cfg, sell, buy);
    AllVenues(cfg, buy.symbol, Offered(cfg, sell));
    BuyPlaced(cfg, sell, buy);
    assert !Traded(cfg, sell, buy).Live(buy.order);
    var st := Shard(map[sell.symbol := one], Window(cfg.dedupWindow, [sell.order]));
    HandlePlaces(cfg, st, buy, one);
    hide Place, Offered, Traded, VenueBooks, StateAfter, HalvesOf, FlatBook.Live, Handle;
  }

  lemma {:induction false} HandlePlaces(cfg: ShardConfig, st: Shard, m: Inbound, books: VenueMap)
    requires m.OrderAccepted? && !st.seen.Has(m.order) && VenueBooks(cfg, m.symbol, At(st.books, m.symbol)) == books
    ensures var p := Place(cfg, m, books);
      Handle(cfg, st, m) == (Shard(st.books[m.symbol := p.books], st.seen.Push(m.order)), OutcomesOf(m, p))
  {
    hide Place, VenueBooks, OutcomesOf;
  }
}
