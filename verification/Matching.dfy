/** The matching engine's decisions on one inbound partition: internal/matching/matching.go on book values. */
module Matching {
  import opened Types
  import opened Dedup
  import opened OrderBook
  import opened Router
  import Texts
  import Best = BestExecution
  import Books = BookRuns

  datatype ShardConfig = ShardConfig(shard: int, collarBps: int, dedupWindow: nat, venues: seq<Venue>)

  type VenueMap = map<Text, FlatBook>
  /** `partitionState`: the books by symbol and venue, and the shard's own suppression window. */
  datatype Shard = Shard(books: map<Text, VenueMap>, seen: Window)

  datatype Inbound =
    | OrderAccepted(order: Uuid, account: Uuid, symbol: Text, side: Side, typ: OrderType, tif: Tif,
                    qty: int, limitPrice: int, refPrice: int, venue: Text)
    | CancelRequested(order: Uuid, account: Uuid, symbol: Text)

  datatype Outcome =
    | FillHalf(eventId: EventId, account: Uuid, order: Uuid, symbol: Text, role: Role, price: int, qty: int,
      buying: bool,
               takerOrder: Uuid, makerOrder: Uuid)
    | Verdict(account: Uuid, order: Uuid, symbol: Text, disposition: Disposition, remaining: int, reason: Reason)
    | CancelOutcome(account: Uuid, order: Uuid, symbol: Text, cancelled: bool, remaining: int, reason: Reason)

  /** "PRIMARY". */
  const DEFAULT_VENUE: Text := [80, 82, 73, 77, 65, 82, 89]

  function NewBook(cfg: ShardConfig, symbol: Text, venue: Text): FlatBook
  {
    EmptyBook(BookConfig(symbol, if venue == [] then DEFAULT_VENUE else venue, cfg.shard, cfg.collarBps),
      cfg.dedupWindow)
  }

  function VenueNames(venues: seq<Venue>): set<Text>
  {
    if venues == [] then {} else {venues[0].name} + VenueNames(venues[1..])
  }

  function PrimaryVenue(cfg: ShardConfig): Text
  {
    if cfg.venues != [] then cfg.venues[0].name else DEFAULT_VENUE
  }

  function At(books: map<Text, VenueMap>, symbol: Text): VenueMap { if symbol in books then books[symbol] else map[] }

  /** `venueBooks`: every configured venue has a book from now on. */
  function VenueBooks(cfg: ShardConfig, symbol: Text, m: VenueMap): (r: VenueMap)
    ensures r.Keys == m.Keys + VenueNames(cfg.venues)
    ensures forall v :: v in r ==> r[v] == if v in m then m[v] else NewBook(cfg, symbol, v)
  {
    map v | v in m.Keys + VenueNames(cfg.venues) :: if v in m then m[v] else NewBook(cfg, symbol, v)
  }

  function OrderOf(m: Inbound): Order
    requires m.OrderAccepted?
  {
    Order(m.order, m.account, m.side, m.typ, m.tif, m.qty, m.qty, m.limitPrice, m.refPrice, 0)
  }

  predicate AnyFacing(o: Order, books: VenueMap) { exists v :: v in books && books[v].Queue(o.side.Opposite()) != [] }

  /** `cancelReason` over all venues. */
  function ShardCancelReason(o: Order, books: VenueMap): Reason
  {
    if o.typ != Market then IocRemainder else if AnyFacing(o, books) then CollarBreach else BookExhausted
  }

  function HalfOf(f: Fill, symbol: Text, role: Role): Outcome
  {
    var takerBuying := f.takerSide == Buy;
    if role == Taker then
      FillHalf(FillEvent(f.id, Taker), f.takerAccount, f.takerOrder, symbol, Taker, f.price, f.qty, takerBuying,
        f.takerOrder, f.makerOrder)
    else
      FillHalf(FillEvent(f.id, Maker), f.makerAccount, f.makerOrder, symbol, Maker, f.price, f.qty, !takerBuying,
        f.takerOrder, f.makerOrder)
  }

  function HalvesOf(fills: seq<Fill>, symbol: Text): seq<Outcome>
  {
    if fills == [] then []
      else [HalfOf(fills[0], symbol, Taker), HalfOf(fills[0], symbol, Maker)] + HalvesOf(fills[1..], symbol)
  }

  /** Where an order ended up: the books, everything it traded, and what the shard says about the rest of it. */
  datatype Placed = Placed(books: VenueMap, fills: seq<Fill>, disposition: Disposition, remaining: int, reason: Reason)

  /** The venue a remainder rests at. */
  function HostVenue(cfg: ShardConfig, venue: Text, books: VenueMap): Text
  {
    if venue in books then venue else PrimaryVenue(cfg)
  }

  function HostBook(cfg: ShardConfig, symbol: Text, venue: Text, books: VenueMap): FlatBook
  {
    if venue in books then books[venue] else NewBook(cfg, symbol, venue)
  }

  /** What is done with the part the routed slices did not fill. */
  function PlaceRest(cfg: ShardConfig, m: Inbound, o: Order, ex: Executed): Placed
    requires m.OrderAccepted?
  {
    var remaining := o.qty - FilledQty(ex.fills);
    if remaining == 0 then Placed(ex.books, ex.fills, Complete, 0, NoReason)
    else if o.typ == Limit && o.tif == GTC then
      var host := HostVenue(cfg, m.venue, ex.books);
      var (b, r) := Submit(HostBook(cfg, m.symbol, host, ex.books), o.(qty := remaining, remaining := remaining));
      var left := remaining - FilledQty(r.fills);
      Placed(ex.books[host := b], ex.fills + r.fills, if left > 0 then Rested else Complete, left, NoReason)
    else Placed(ex.books, ex.fills, Cancelled, remaining, ShardCancelReason(o, ex.books))
  }

  ghost function Place(cfg: ShardConfig, m: Inbound, books: VenueMap): Placed
    requires m.OrderAccepted?
  {
    RouteNamesBooks(OrderOf(m), books, cfg.venues, cfg.collarBps);
    PlaceRest(cfg, m, OrderOf(m), Execute(books, OrderOf(m), Route(OrderOf(m), books, cfg.venues, cfg.collarBps)))
  }

  function OutcomesOf(m: Inbound, p: Placed): seq<Outcome>
    requires m.OrderAccepted?
  {
    HalvesOf(p.fills, m.symbol) + [Verdict(m.account, m.order, m.symbol, p.disposition, p.remaining, p.reason)]
  }

  /** The first venue, by name, where the order rests gives it up. */
  function CancelFirst(names: seq<Text>, books: VenueMap, id: Uuid): (VenueMap, Option<int>)
    requires forall i :: 0 <= i < |names| ==> names[i] in books
  {
    if names == [] then (books, None)
    else
      var (b, q) := Cancel(books[names[0]], id);
      if q.Some? then (books[names[0] := b], q) else CancelFirst(names[1..], books, id)
  }

  ghost function CancelIn(books: VenueMap, id: Uuid): (VenueMap, Option<int>)
  {
    ListedIn(books);
    CancelFirst(Texts.Listed(books.Keys), books, id)
  }

  lemma {:induction false} ListedIn(books: VenueMap)
    ensures forall i :: 0 <= i < |Texts.Listed(books.Keys)| ==> Texts.Listed(books.Keys)[i] in books
  {
    var names := Texts.Listed(books.Keys);
    assert forall i :: 0 <= i < |names| ==> names[i] in names;
  }

  function VerdictOn(m: Inbound, q: Option<int>): Outcome
  {
    CancelOutcome(m.account, m.order, m.symbol, q.Some?, if q.Some? then q.value else 0, if q.Some? then ClientCancel
      else AlreadyTerminal)
  }

  /** `handle`: one inbound record against the shard. */
  ghost function Handle(cfg: ShardConfig, st: Shard, m: Inbound): (Shard, seq<Outcome>)
  {
    if m.OrderAccepted? then
      if st.seen.Has(m.order) then (st, [])
      else
        var p := Place(cfg, m, VenueBooks(cfg, m.symbol, At(st.books, m.symbol)));
        (Shard(st.books[m.symbol := p.books], st.seen.Push(m.order)), OutcomesOf(m, p))
    else
      var (books, q) := CancelIn(VenueBooks(cfg, m.symbol, At(st.books, m.symbol)), m.order);
      (st.(books := st.books[m.symbol := books]), [VerdictOn(m, q)])
  }

  ghost function StateAfter(cfg: ShardConfig, st: Shard, log: seq<Inbound>): Shard
    decreases |log|
  {
    if log == [] then st else Handle(cfg, StateAfter(cfg, st, log[..|log| - 1]), log[|log| - 1]).0
  }

  function Fresh(cfg: ShardConfig): Shard { Shard(map[], Window(cfg.dedupWindow, [])) }

  /** The shard's state when it has handled everything before an offset without ever crashing, and what it then says. */
  ghost function Reference(cfg: ShardConfig, log: seq<Inbound>, k: nat): Shard
    requires k <= |log|
  {
    StateAfter(cfg, Fresh(cfg), log[..k])
  }

  ghost function Said(cfg: ShardConfig, log: seq<Inbound>, k: nat): seq<Outcome>
    requires k < |log|
  {
    Handle(cfg, Reference(cfg, log, k), log[k]).1
  }

  // ---- streams of outcomes ---------------------------------------------------------------------------

  /** An outcome after which its order can trade no more. */
  predicate Final(m: Outcome) { m.CancelOutcome? || (m.Verdict? && m.disposition != Rested) }

  /** No execution follows an order's final word, and executions are of something. */
  ghost predicate Conclusive(stream: seq<Outcome>)
  {
    (forall i, j :: 0 <= i < j < |stream| && Final(stream[i]) && stream[j].FillHalf? ==>
      stream[i].order != stream[j].order)
    && forall i :: 0 <= i < |stream| && stream[i].FillHalf? ==> stream[i].qty > 0
  }

  // ---- every book of a shard stays sound ----------------------------------------------------------

  /** What a well-formed inbound message carries: a real id and a nonnegative size. */
  predicate Proper(m: Inbound) { m.OrderAccepted? ==> m.order != NIL && m.qty >= 0 }

  ghost predicate BookSound(cfg: ShardConfig, symbol: Text, venue: Text, b: FlatBook, ids: set<Uuid>)
  {
    && b.Valid() && Books.KnownIds(b) <= ids
    && b.config == NewBook(cfg, symbol, venue).config && b.dedup.limit == NewBook(cfg, symbol, venue).dedup.limit
  }

  ghost predicate VenuesSound(cfg: ShardConfig, symbol: Text, books: VenueMap, ids: set<Uuid>)
  {
    forall v :: v in books ==> BookSound(cfg, symbol, v, books[v], ids)
  }

  ghost predicate Sound(cfg: ShardConfig, st: Shard, ids: set<Uuid>)
  {
    && (forall s :: s in st.books ==> VenuesSound(cfg, s, st.books[s], ids))
    && st.seen.limit == cfg.dedupWindow && st.seen.Valid() && forall id :: id in st.seen.recent ==> id in ids
  }

  lemma {:induction false} SubmitKnows(b: FlatBook, o: Order, ids: set<Uuid>)
    requires b.Valid() && Submittable(o) && Books.KnownIds(b) <= ids && o.id in ids
    ensures Books.KnownIds(Submit(b, o).0) <= ids
    ensures Submit(b, o).0.config == b.config && Submit(b, o).0.dedup.limit == b.dedup.limit
  {
    hide Match, Insert, Crosses, FlatBook.Valid;
    if !b.Seen(o.id) {
      var a := Admit(b, o);
      var m := Match(b.config, a, b.Queue(o.side.Opposite()), b.bookSeq);
      var after := AfterMatch(b, a, m);
      AfterMatchKeeps(b, a);
      forall id | after.Live(id) ensures id in ids { LiveIsKnown(b, id); }
      KnownFrom(after, ids);
      hide AfterMatch, FlatBook.Live;
      if m.left != 0 && o.typ == Limit && o.tif == GTC {
        RestKnows(after, a.(remaining := m.left), ids);
      }
    }
  }

  lemma {:induction false} LiveIsKnown(b: FlatBook, id: Uuid)
    requires b.Live(id)
    ensures id in Books.KnownIds(b)
  {}

  lemma {:induction false} KnownFrom(b: FlatBook, ids: set<Uuid>)
    requires (forall id :: b.Live(id) ==> id in ids) && forall id :: id in b.dedup.recent ==> id in ids
    ensures Books.KnownIds(b) <= ids
  {
    forall i | 0 <= i < |b.bids| ensures b.bids[i].id in ids { assert b.Live(b.bids[i].id); }
    forall i | 0 <= i < |b.asks| ensures b.asks[i].id in ids { assert b.Live(b.asks[i].id); }
  }

  lemma {:induction false} RestKnows(b: FlatBook, o: Order, ids: set<Uuid>)
    requires Books.KnownIds(b) <= ids && o.id in ids
    ensures Books.KnownIds(Rest(b, o)) <= ids
  {
    var q := b.Queue(o.side);
    var p := Position(o.side, q, o.limitPrice);
    var r := Insert(o.side, q, o);
    forall i | 0 <= i < |r| ensures r[i].id in ids {
      assert r[i] == if i < p then q[i] else if i == p then o else q[i - 1];
    }
  }

  lemma {:induction false} CancelKnows(b: FlatBook, id: Uuid, ids: set<Uuid>)
    requires Books.KnownIds(b) <= ids
    ensures Books.KnownIds(Cancel(b, id).0) <= ids
    ensures Cancel(b, id).0.config == b.config && Cancel(b, id).0.dedup == b.dedup
  {
    var c := Cancel(b, id).0;
    forall i | 0 <= i < |c.bids| ensures c.bids[i].id in ids {}
    forall i | 0 <= i < |c.asks| ensures c.asks[i].id in ids {}
  }

  lemma {:induction false} SubmitSound(cfg: ShardConfig, symbol: Text, v: Text, b: FlatBook, o: Order, ids: set<Uuid>)
    requires BookSound(cfg, symbol, v, b, ids) && Submittable(o) && o.id in ids
    ensures BookSound(cfg, symbol, v, Submit(b, o).0, ids)
  {
    hide Submit, FlatBook.Valid, Books.KnownIds;
    SubmitKeeps(b, o);
    SubmitKnows(b, o, ids);
  }

  lemma {:induction false} NewBookSound(cfg: ShardConfig, symbol: Text, v: Text, ids: set<Uuid>)
    ensures BookSound(cfg, symbol, v, NewBook(cfg, symbol, v), ids)
  {}

  lemma {:induction false} VenueBooksSound(cfg: ShardConfig, symbol: Text, m: VenueMap, ids: set<Uuid>)
    requires VenuesSound(cfg, symbol, m, ids)
    ensures VenuesSound(cfg, symbol, VenueBooks(cfg, symbol, m), ids)
  {
    hide BookSound;
    forall v | v in VenueBooks(cfg, symbol, m) ensures BookSound(cfg, symbol, v, VenueBooks(cfg, symbol, m)[v], ids) {
      NewBookSound(cfg, symbol, v, ids);
    }
  }

  ghost predicate StepsPositive(steps: seq<Step>) { forall i :: 0 <= i < |steps| ==> steps[i].qty > 0 }

  function StepsTotal(steps: seq<Step>): int { if steps == [] then 0 else steps[0].qty + StepsTotal(steps[1..]) }

  /** Routed slices keep every book sound and together fill no more than was planned. */
  lemma {:induction false} ExecuteSound(cfg: ShardConfig, symbol: Text, books: VenueMap, o: Order, steps: seq<Step>,
      ids: set<Uuid>)
    requires VenuesSound(cfg, symbol, books, ids) && StepsAmong(steps, books.Keys) && StepsPositive(steps)
    requires o.id != NIL && o.id in ids
    ensures var ex := Execute(books, o, steps);
      && VenuesSound(cfg, symbol, ex.books, ids) && ex.books.Keys == books.Keys
      && 0 <= FilledQty(ex.fills) <= StepsTotal(steps)
    decreases |steps|
  {
    hide BookSound, Submit;
    if steps != [] {
      var v := steps[0].venue;
      var (b, r) := Submit(books[v], Slice(o, steps[0].qty));
      assert books[v].Valid() by { SoundValid(cfg, symbol, v, books[v], ids); }
      SubmitSound(cfg, symbol, v, books[v], Slice(o, steps[0].qty), ids);
      SubmitBounded(books[v], Slice(o, steps[0].qty));
      var next := books[v := b];
      assert next.Keys == books.Keys;
      ExecuteSound(cfg, symbol, next, o, steps[1..], ids);
      FilledSplit(r.fills, Execute(next, o, steps[1..]).fills);
    }
  }

  lemma {:induction false} SoundValid(cfg: ShardConfig, symbol: Text, v: Text, b: FlatBook, ids: set<Uuid>)
    requires BookSound(cfg, symbol, v, b, ids)
    ensures b.Valid() && b.config.collarBps == cfg.collarBps
  {}

  lemma {:induction false} StepsSum(order: seq<Text>, planned: map<Text, int>)
    requires forall i :: 0 <= i < |order| ==> Get(planned, order[i]) > 0
    ensures StepsPositive(StepsOf(order, planned))
    ensures StepsTotal(StepsOf(order, planned)) == Best.OrderTotal(order, planned)
  {
    if order != [] { StepsSum(order[1..], planned); }
  }

  /** A plan asks for no more than the order, and for something at every venue it names. */
  lemma {:induction false} PlanWithinOrder(o: Order, books: VenueMap, venues: seq<Venue>, collarBps: int)
    requires o.remaining >= 0
    ensures StepsPositive(Route(o, books, venues, collarBps))
    ensures StepsTotal(Route(o, books, venues, collarBps)) <= o.remaining
  {
    hide Offers, PlanOver, Best.LeftAfter, Best.TakenFor, Best.OrderTotal;
    if o.remaining > 0 {
      var s, start := Offers(o, books, venues, DEPTH), Planning(o.remaining, map[], []);
      assert Best.Tidy(start) && Best.OrderTotal(start.order, start.planned) == 0 by { EmptyTidy(o.remaining); }
      Best.PlanIsTaken(o, collarBps, start, s);
      Best.LeftNonneg(o, collarBps, o.remaining, s);
      var st := Plan(o, books, venues, collarBps, DEPTH);
      assert forall i :: 0 <= i < |st.order| ==> st.order[i] in st.order;
      StepsSum(st.order, st.planned);
    }
  }

  lemma {:induction false} EmptyTidy(n: int)
    ensures Best.Tidy(Planning(n, map[], [])) && Best.OrderTotal([], map[]) == 0
  {}

  /** Placing an order keeps every book sound, and what it traded plus what is reported left is its size. */
  lemma {:induction false} PlaceSound(cfg: ShardConfig, m: Inbound, books: VenueMap, ids: set<Uuid>)
    requires m.OrderAccepted? && Proper(m) && m.order in ids && VenuesSound(cfg, m.symbol, books, ids)
    ensures var p := Place(cfg, m, books); PlacedSound(cfg, m, p, ids)
  {
    hide BookSound, Submit, Execute, Route, PlaceRest, PlacedSound, FilledQty;
    var o := OrderOf(m);
    RouteNamesBooks(o, books, cfg.venues, cfg.collarBps);
    PlanWithinOrder(o, books, cfg.venues, cfg.collarBps);
    ExecuteSound(cfg, m.symbol, books, o, Route(o, books, cfg.venues, cfg.collarBps), ids);
    RestSound(cfg, m, Execute(books, o, Route(o, books, cfg.venues, cfg.collarBps)), ids);
  }

  ghost predicate PlacedSound(cfg: ShardConfig, m: Inbound, p: Placed, ids: set<Uuid>)
    requires m.OrderAccepted?
  {
    && VenuesSound(cfg, m.symbol, p.books, ids)
    && FilledQty(p.fills) >= 0 && p.remaining >= 0 && FilledQty(p.fills) + p.remaining == m.qty
    && (p.disposition == Complete <==> p.remaining == 0)
  }

  lemma {:induction false} RestSound(cfg: ShardConfig, m: Inbound, ex: Executed, ids: set<Uuid>)
    requires m.OrderAccepted? && Proper(m) && m.order in ids && VenuesSound(cfg, m.symbol, ex.books, ids)
    requires 0 <= FilledQty(ex.fills) <= m.qty
    ensures PlacedSound(cfg, m, PlaceRest(cfg, m, OrderOf(m), ex), ids)
  {
    hide BookSound, Submit, NewBook, FilledQty;
    var o, remaining := OrderOf(m), m.qty - FilledQty(ex.fills);
    if remaining != 0 && o.typ == Limit && o.tif == GTC {
      var host := HostVenue(cfg, m.venue, ex.books);
      var b, rest := HostBook(cfg, m.symbol, host, ex.books), o.(qty := remaining, remaining := remaining);
      NewBookSound(cfg, m.symbol, host, ids);
      SubmitSound(cfg, m.symbol, host, b, rest, ids);
      SoundValid(cfg, m.symbol, host, b, ids);
      SubmitBounded(b, rest);
      FilledSplit(ex.fills, Submit(b, rest).1.fills);
      hide HostBook;
      assert VenuesSound(cfg, m.symbol, ex.books[host := Submit(b, rest).0], ids);
    }
  }

  lemma {:induction false} CancelBookSound(cfg: ShardConfig, symbol: Text, v: Text, b: FlatBook, id: Uuid,
      ids: set<Uuid>)
    requires BookSound(cfg, symbol, v, b, ids)
    ensures BookSound(cfg, symbol, v, Cancel(b, id).0, ids)
  {
    hide Cancel, FlatBook.Valid, Books.KnownIds;
    CancelKeeps(b, id);
    CancelKnows(b, id, ids);
  }

  lemma {:induction false} CancelSound(cfg: ShardConfig, symbol: Text, names: seq<Text>, books: VenueMap, id: Uuid,
      ids: set<Uuid>)
    requires VenuesSound(cfg, symbol, books, ids) && forall i :: 0 <= i < |names| ==> names[i] in books
    ensures VenuesSound(cfg, symbol, CancelFirst(names, books, id).0, ids)
    ensures CancelFirst(names, books, id).0.Keys == books.Keys
    decreases |names|
  {
    hide Cancel, BookSound;
    if names != [] {
      var v := names[0];
      assert BookSound(cfg, symbol, v, Cancel(books[v], id).0, ids) by {
        CancelBookSound(cfg, symbol, v, books[v], id, ids);
      }
      var b := Cancel(books[v], id).0;
      assert books[v := b].Keys == books.Keys && VenuesSound(cfg, symbol, books[v := b], ids);
      CancelSound(cfg, symbol, names[1..], books, id, ids);
    }
  }

  /** Handling any well-formed record keeps the shard sound. */
  lemma {:induction false} HandleSound(cfg: ShardConfig, st: Shard, m: Inbound, ids: set<Uuid>)
    requires Sound(cfg, st, ids) && Proper(m) && (m.OrderAccepted? ==> m.order in ids)
    ensures Sound(cfg, Handle(cfg, st, m).0, ids)
  {
    hide Place, CancelFirst, BookSound, VenueBooks;
    var before := At(st.books, m.symbol);
    assert VenuesSound(cfg, m.symbol, before, ids);
    var books := VenueBooks(cfg, m.symbol, before);
    VenueBooksSound(cfg, m.symbol, before, ids);
    if m.OrderAccepted? {
      PlaceSound(cfg, m, books, ids);
      PushValid(st.seen, m.order);
    } else {
      ListedIn(books);
      CancelSound(cfg, m.symbol, Texts.Listed(books.Keys), books, m.order, ids);
    }
  }

  function IdsIn(log: seq<Inbound>): set<Uuid>
  {
    set i | 0 <= i < |log| && log[i].OrderAccepted? :: log[i].order
  }

  ghost predicate AllProper(log: seq<Inbound>) { forall i :: 0 <= i < |log| ==> Proper(log[i]) }

  lemma {:induction false} SoundGrows(cfg: ShardConfig, st: Shard, ids: set<Uuid>, more: set<Uuid>)
    requires Sound(cfg, st, ids) && ids <= more
    ensures Sound(cfg, st, more)
  {
    hide FlatBook.Valid, Books.KnownIds;
  }

  /** A shard that never crashed is sound after any log, and knows only ids the log brought. */
  lemma {:induction false} ReferenceSound(cfg: ShardConfig, log: seq<Inbound>)
    requires AllProper(log)
    ensures Sound(cfg, StateAfter(cfg, Fresh(cfg), log), IdsIn(log))
    decreases |log|
  {
    hide Sound, Handle;
    if log == [] {
      assert IdsIn(log) == {};
      FreshSound(cfg);
    } else {
      var n := |log| - 1;
      ReferenceSound(cfg, log[..n]);
      assert log[..n] + [log[n]] == log;
      assert IdsIn(log[..n]) <= IdsIn(log) by {
        forall i | 0 <= i < n && log[..n][i].OrderAccepted?
          ensures log[..n][i].order in IdsIn(log)
        {
          assert log[..n][i] == log[i];
        }
      }
      SoundGrows(cfg, StateAfter(cfg, Fresh(cfg), log[..n]), IdsIn(log[..n]), IdsIn(log));
      HandleSound(cfg, StateAfter(cfg, Fresh(cfg), log[..n]), log[n], IdsIn(log));
    }
  }

  lemma {:induction false} FreshSound(cfg: ShardConfig)
    ensures Sound(cfg, Fresh(cfg), {})
  {}
}
