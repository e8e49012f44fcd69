/** Splitting an order over venues: internal/matching/router.go. */
module Router {
  import opened Types
  import opened OrderBook
  import Texts

  datatype Venue = Venue(name: Text, latencyMicro: int)
  datatype Quote = Quote(venue: Text, price: int, qty: int, latency: int)
  datatype Step = Step(venue: Text, qty: int)

  /** The depth asked of each side, 1 << 20 levels. */
  const DEPTH: nat := 0x10_0000

  function Latency(venues: seq<Venue>, name: Text): int
  {
    if venues == [] then 0 else if venues[0].name == name then venues[0].latencyMicro else Latency(venues[1..], name)
  }

  function QuotesOf(venue: Text, latency: int, levels: seq<DepthLevel>): seq<Quote>
  {
    if levels == [] then []
    else [Quote(venue, levels[0].price, levels[0].qty, latency)] + QuotesOf(venue, latency, levels[1..])
  }

  /** What every venue offers, venue by venue. */
  function OffersOver(names: seq<Text>, books: map<Text, FlatBook>, side: Side, venues: seq<Venue>,
    depth: nat): seq<Quote>
    requires forall i :: 0 <= i < |names| ==> names[i] in books
  {
    if names == [] then []
    else QuotesOf(names[0], Latency(venues, names[0]), Depth(books[names[0]].Queue(side.Opposite()), depth))
         + OffersOver(names[1..], books, side, venues, depth)
  }

  /** A price as the taker ranks it: lower is better. */
  function Rank(side: Side, price: int): int { if side == Buy then price else -price }

  predicate QuoteBefore(side: Side, a: Quote, b: Quote)
  {
    if a.price != b.price then Rank(side, a.price) < Rank(side, b.price)
    else if a.latency != b.latency then a.latency < b.latency
    else Texts.Less(a.venue, b.venue)
  }

  function InsertQuote(side: Side, s: seq<Quote>, q: Quote): seq<Quote>
  {
    if s == [] || !QuoteBefore(side, s[0], q) then [q] + s else [s[0]] + InsertQuote(side, s[1..], q)
  }

  /** sort.SliceStable by price, latency and venue name. */
  function SortQuotes(side: Side, s: seq<Quote>): seq<Quote>
  {
    if s == [] then [] else InsertQuote(side, SortQuotes(side, s[1..]), s[0])
  }

  datatype Planning = Planning(remaining: int, planned: map<Text, int>, order: seq<Text>)

  function Get(m: map<Text, int>, v: Text): int { if v in m then m[v] else 0 }

  /** One turn of the accumulation loop. */
  function Consider(o: Order, collarBps: int, st: Planning, offer: Quote): Planning
  {
    var take := Min(offer.qty, st.remaining);
    if st.remaining <= 0 || !Crosses(o, offer.price, collarBps) || take <= 0 then st
    else Planning(st.remaining - take,
                  st.planned[offer.venue := Get(st.planned, offer.venue) + take],
                  if offer.venue in st.planned then st.order else st.order + [offer.venue])
  }

  function PlanOver(o: Order, collarBps: int, st: Planning, offers: seq<Quote>): Planning
    decreases |offers|
  {
    if offers == [] then st else PlanOver(o, collarBps, Consider(o, collarBps, st, offers[0]), offers[1..])
  }

  function StepsOf(order: seq<Text>, planned: map<Text, int>): seq<Step>
  {
    if order == [] then [] else [Step(order[0], Get(planned, order[0]))] + StepsOf(order[1..], planned)
  }

  ghost function Offers(o: Order, books: map<Text, FlatBook>, venues: seq<Venue>, depth: nat): seq<Quote>
  {
    SortQuotes(o.side, OffersOver(Texts.Listed(books.Keys), books, o.side, venues, depth))
  }

  ghost function Plan(o: Order, books: map<Text, FlatBook>, venues: seq<Venue>, collarBps: int, depth: nat): Planning
  {
    PlanOver(o, collarBps, Planning(o.remaining, map[], []), Offers(o, books, venues, depth))
  }

  /** `route`: the ordered plan, one step per venue. */
  ghost function Route(o: Order, books: map<Text, FlatBook>, venues: seq<Venue>, collarBps: int): seq<Step>
  {
    if o.remaining <= 0 then []
    else
      var st := Plan(o, books, venues, collarBps, DEPTH);
      StepsOf(st.order, st.planned)
  }

  method SortedNames(books: map<Text, FlatBook>) returns (names: seq<Text>)
    ensures names == Texts.Listed(books.Keys)
  {
    names := [];
    var left := books.Keys;
    while left != {}
      invariant left <= books.Keys && Texts.Distinct(names)
      invariant forall x :: x in names <==> x in books.Keys && x !in left
      decreases |left|
    {
      var name :| name in left;
      names := names + [name];
      left := left - {name};
    }
    Texts.SortIsListed(names, books.Keys);
    names := Texts.Sort(names);
  }

  method VenueOffers(name: Text, latency: int, levels: seq<DepthLevel>) returns (offers: seq<Quote>)
    ensures offers == QuotesOf(name, latency, levels)
  {
    offers := [];
    var k := 0;
    while k < |levels|
      invariant 0 <= k <= |levels| && offers + QuotesOf(name, latency, levels[k..]) == QuotesOf(name, latency, levels)
    {
      assert levels[k..][1..] == levels[k + 1..];
      offers := offers + [Quote(name, levels[k].price, levels[k].qty, latency)];
      k := k + 1;
    }
  }

  method CollectOffers(names: seq<Text>, books: map<Text, FlatBook>, side: Side, venues: seq<Venue>)
      returns (offers: seq<Quote>)
    requires forall i :: 0 <= i < |names| ==> names[i] in books
    ensures offers == OffersOver(names, books, side, venues, DEPTH)
  {
    hide QuotesOf, Depth, Latency;
    offers := [];
    var i := 0;
    while i < |names|
      invariant 0 <= i <= |names|
      invariant offers + OffersOver(names[i..], books, side, venues, DEPTH) ==
        OffersOver(names, books, side, venues, DEPTH)
    {
      assert names[i..][0] == names[i] && names[i..][1..] == names[i + 1..];
      var quotes := VenueOffers(names[i], Latency(venues, names[i]),
        Depth(books[names[i]].Queue(side.Opposite()), DEPTH));
      ghost var rest := OffersOver(names[i + 1..], books, side, venues, DEPTH);
      assert offers + (quotes + rest) == offers + quotes + rest;
      offers := offers + quotes;
      i := i + 1;
    }
  }

  /** The loops of `route`. */
  method ComputeRoute(o: Order, books: map<Text, FlatBook>, venues: seq<Venue>, collarBps: int)
      returns (plan: seq<Step>)
    ensures plan == Route(o, books, venues, collarBps)
  {
    if o.remaining <= 0 { return []; }
    var names := SortedNames(books);
    assert forall i :: 0 <= i < |names| ==> names[i] in names;
    var offers := CollectOffers(names, books, o.side, venues);
    offers := SortQuotes(o.side, offers);
    var st := Planning(o.remaining, map[], []);
    var i := 0;
    while i < |offers| && st.remaining > 0
      invariant 0 <= i <= |offers|
      invariant PlanOver(o, collarBps, st, offers[i..]) == Plan(o, books, venues, collarBps, DEPTH)
    {
      assert offers[i..][1..] == offers[i + 1..];
      st := Consider(o, collarBps, st, offers[i]);
      i := i + 1;
    }
    DonePlanning(o, collarBps, st, offers[i..]);
    plan := Emit(st);
  }

  method Emit(st: Planning) returns (plan: seq<Step>)
    ensures plan == StepsOf(st.order, st.planned)
  {
    plan := [];
    var i := 0;
    while i < |st.order|
      invariant 0 <= i <= |st.order| && plan + StepsOf(st.order[i..], st.planned) == StepsOf(st.order, st.planned)
    {
      assert st.order[i..][1..] == st.order[i + 1..];
      plan := plan + [Step(st.order[i], Get(st.planned, st.order[i]))];
      i := i + 1;
    }
  }

  lemma {:induction false} DonePlanning(o: Order, collarBps: int, st: Planning, offers: seq<Quote>)
    requires offers == [] || st.remaining <= 0
    ensures PlanOver(o, collarBps, st, offers) == st
    decreases |offers|
  {
    if offers != [] { DonePlanning(o, collarBps, st, offers[1..]); }
  }

  // ---- executing a plan ---------------------------------------------------------------------------

  /** A routed slice: the order at the planned size, immediate-or-cancel. */
  function Slice(o: Order, qty: int): Order { o.(qty := qty, remaining := qty, tif := IOC) }

  datatype Executed = Executed(books: map<Text, FlatBook>, fills: seq<Fill>)

  ghost predicate StepsAmong(steps: seq<Step>, all: set<Text>)
  {
    forall i :: 0 <= i < |steps| ==> steps[i].venue in all
  }

  ghost function Execute(books: map<Text, FlatBook>, o: Order, steps: seq<Step>): Executed
    requires StepsAmong(steps, books.Keys)
    decreases |steps|
  {
    if steps == [] then Executed(books, [])
    else
      var (b, r) := Submit(books[steps[0].venue], Slice(o, steps[0].qty));
      var rest := Execute(books[steps[0].venue := b], o, steps[1..]);
      Executed(rest.books, r.fills + rest.fills)
  }

  // ---- a plan names only venues it was given --------------------------------------------------------

  ghost predicate From(s: seq<Quote>, venues: set<Text>) { forall q :: q in s ==> q.venue in venues }

  lemma {:induction false} QuotesFrom(venue: Text, latency: int, levels: seq<DepthLevel>, all: set<Text>)
    requires venue in all
    ensures From(QuotesOf(venue, latency, levels), all)
  {
    if levels != [] { QuotesFrom(venue, latency, levels[1..], all); }
  }

  lemma {:induction false} OffersFrom(names: seq<Text>, books: map<Text, FlatBook>, side: Side, venues: seq<Venue>,
      depth: nat)
    requires forall i :: 0 <= i < |names| ==> names[i] in books
    ensures From(OffersOver(names, books, side, venues, depth), books.Keys)
  {
    hide Depth, QuotesOf, Latency;
    if names != [] {
      QuotesFrom(names[0], Latency(venues, names[0]), Depth(books[names[0]].Queue(side.Opposite()), depth), books.Keys);
      OffersFrom(names[1..], books, side, venues, depth);
    }
  }

  lemma {:induction false} InsertFrom(side: Side, s: seq<Quote>, q: Quote, all: set<Text>)
    requires From(s, all) && q.venue in all
    ensures From(InsertQuote(side, s, q), all)
  {
    hide QuoteBefore;
    if !(s == [] || !QuoteBefore(side, s[0], q)) { InsertFrom(side, s[1..], q, all); }
  }

  lemma {:induction false} SortFrom(side: Side, s: seq<Quote>, all: set<Text>)
    requires From(s, all)
    ensures From(SortQuotes(side, s), all)
  {
    if s != [] {
      SortFrom(side, s[1..], all);
      InsertFrom(side, SortQuotes(side, s[1..]), s[0], all);
    }
  }

  ghost predicate Among(order: seq<Text>, all: set<Text>) { forall i :: 0 <= i < |order| ==> order[i] in all }

  lemma {:induction false} PlanFrom(o: Order, collarBps: int, st: Planning, offers: seq<Quote>, all: set<Text>)
    requires From(offers, all) && Among(st.order, all)
    ensures Among(PlanOver(o, collarBps, st, offers).order, all)
    decreases |offers|
  {
    hide Crosses;
    if offers != [] {
      assert offers[0] in offers;
      PlanFrom(o, collarBps, Consider(o, collarBps, st, offers[0]), offers[1..], all);
    }
  }

  lemma {:induction false} StepsFrom(order: seq<Text>, planned: map<Text, int>, all: set<Text>)
    requires Among(order, all)
    ensures StepsAmong(StepsOf(order, planned), all)
  {
    if order != [] { StepsFrom(order[1..], planned, all); }
  }

  lemma {:induction false} RouteNamesBooks(o: Order, books: map<Text, FlatBook>, venues: seq<Venue>, collarBps: int)
    ensures StepsAmong(Route(o, books, venues, collarBps), books.Keys)
  {
    var names := Texts.Listed(books.Keys);
    assert forall i :: 0 <= i < |names| ==> names[i] in names;
    hide OffersOver, SortQuotes, PlanOver, StepsOf;
    OffersFrom(names, books, o.side, venues, DEPTH);
    SortFrom(o.side, OffersOver(names, books, o.side, venues, DEPTH), books.Keys);
    var st := Plan(o, books, venues, collarBps, DEPTH);
    PlanFrom(o, collarBps, Planning(o.remaining, map[], []), Offers(o, books, venues, DEPTH), books.Keys);
    StepsFrom(st.order, st.planned, books.Keys);
  }
}
