/** One record at a shard that holds and has said what it should: room for every order, one resting place, fill
    identities
    used once, nothing after an order's final word. A new order and a cancel keep all of it. */
module DeskRuns {
  import opened Types
  import opened OrderBook
  import opened Matching
  import opened Desk
  import Conservation
  import Books = BookRuns
  import Texts

  /** What has been handed to the shard, what it holds and what it has said; the fills it made, by identity. */
  datatype Story = Story(ids: set<Uuid>, shard: Shard, outs: seq<Matching.Outcome>, market: map<FillId, Fill>)

  /** Quantity settled for an order by the halves in a stream. */
  function FilledOf(outs: seq<Matching.Outcome>, id: Uuid): int
  {
    if outs == [] then 0
      else (if outs[0].FillHalf? && outs[0].order == id then outs[0].qty else 0) + FilledOf(outs[1..], id)
  }

  ghost predicate Finished(outs: seq<Matching.Outcome>, id: Uuid)
  {
    exists i :: 0 <= i < |outs| && Final(outs[i]) && outs[i].order == id
  }

  // ---- the invariant -----------------------------------------------------------------------------------

  /** What rests has a fact, has not been given its final word, and fits in the order beside what has traded. */
  ghost predicate Room(facts: Facts, m: VenueMap, outs: seq<Matching.Outcome>)
  {
    forall v, id :: v in m && RestOf(m[v], id) > 0 ==>
      id in facts && FilledOf(outs, id) + RestOf(m[v], id) <= facts[id].qty && !Finished(outs, id)
  }

  ghost predicate OutTrue(facts: Facts, ids: set<Uuid>, m: Matching.Outcome)
  {
    && m.order in ids && m.order in facts && facts[m.order].account == m.account && facts[m.order].symbol == m.symbol
    && (m.FillHalf? ==> m.qty > 0 && m.price > 0 && (m.buying <==> facts[m.order].side == Buy))
  }

  ghost predicate Numbered(cfg: ShardConfig, books: map<Text, VenueMap>, f: FillId)
  {
    f.shard == cfg.shard && f.bookSeq <= SeqAt(At(books, f.symbol), f.venue)
  }

  /** Executions of a stream are told apart by their events. */
  ghost predicate HalvesApart(outs: seq<Matching.Outcome>)
  {
    forall i, j :: 0 <= i < j < |outs| && outs[i].FillHalf? && outs[j].FillHalf? ==> outs[i].eventId != outs[j].eventId
  }

  ghost predicate MarketOk(cfg: ShardConfig, y: Story)
  {
    && (forall f :: f in y.market ==> Numbered(cfg, y.shard.books, f))
    && (forall i :: 0 <= i < |y.outs| ==> Conservation.OfMarket(y.outs[i], y.market))
    && HalvesApart(y.outs)
  }

  ghost predicate BooksOk(cfg: ShardConfig, facts: Facts, y: Story)
  {
    forall s :: s in y.shard.books ==>
      VenuesOk(cfg, facts, s, y.shard.books[s], y.ids) && Room(facts, y.shard.books[s], y.outs)
  }

  ghost predicate OutsOk(facts: Facts, y: Story)
  {
    && (forall i :: 0 <= i < |y.outs| ==> OutTrue(facts, y.ids, y.outs[i]))
    && Conclusive(y.outs)
    && forall id :: id in facts ==> FilledOf(y.outs, id) <= facts[id].qty
  }

  ghost predicate StoryOk(cfg: ShardConfig, facts: Facts, y: Story)
  {
    FactsOk(facts) && y.ids <= facts.Keys && BooksOk(cfg, facts, y) && OutsOk(facts, y) && MarketOk(cfg, y)
  }

  // ---- streams ---------------------------------------------------------------------------------------------

  lemma {:induction false} FilledJoin(a: seq<Matching.Outcome>, b: seq<Matching.Outcome>, id: Uuid)
    ensures FilledOf(a + b, id) == FilledOf(a, id) + FilledOf(b, id)
  {
    if a == [] { assert a + b == b; } else {
      assert (a + b)[1..] == a[1..] + b;
      FilledJoin(a[1..], b, id);
    }
  }

  lemma {:induction false} FilledNone(outs: seq<Matching.Outcome>, id: Uuid)
    requires forall i :: 0 <= i < |outs| ==> outs[i].order != id
    ensures FilledOf(outs, id) == 0 && !Finished(outs, id)
  {
    if outs != [] {
      assert forall i :: 0 <= i < |outs[1..]| ==> outs[1..][i] == outs[i + 1];
      FilledNone(outs[1..], id);
    }
  }

  lemma {:induction false} HalvesFilled(facts: Facts, symbol: Text, o: Order, fills: seq<Fill>, id: Uuid)
    requires FillsTrue(facts, symbol, o, fills)
    ensures FilledOf(HalvesOf(fills, symbol), id) == (if id == o.id then FilledQty(fills) else 0) + MakerQty(fills, id)
  {
    if fills != [] {
      var pair := [HalfOf(fills[0], symbol, Taker), HalfOf(fills[0], symbol, Maker)];
      assert FillTrue(facts, symbol, o, fills[0]);
      forall i | 0 <= i < |fills[1..]|
        ensures FillTrue(facts, symbol, o, fills[1..][i])
      {
        assert FillTrue(facts, symbol, o, fills[i + 1]);
      }
      HalvesFilled(facts, symbol, o, fills[1..], id);
      FilledJoin(pair, HalvesOf(fills[1..], symbol), id);
      assert pair[1..][1..] == [];
    }
  }

  lemma {:induction false} HalvesAre(fills: seq<Fill>, symbol: Text)
    ensures |HalvesOf(fills, symbol)| == 2 * |fills|
    ensures forall i :: 0 <= i < |fills| ==>
      HalvesOf(fills, symbol)[2 * i] == HalfOf(fills[i], symbol, Taker)
        && HalvesOf(fills, symbol)[2 * i + 1] == HalfOf(fills[i], symbol, Maker)
  {
    hide HalfOf;
    if fills != [] {
      HalvesAre(fills[1..], symbol);
      forall i | 0 < i < |fills|
        ensures HalvesOf(fills, symbol)[2 * i] == HalfOf(fills[i], symbol, Taker)
        ensures HalvesOf(fills, symbol)[2 * i + 1] == HalfOf(fills[i], symbol, Maker)
      {
        assert fills[1..][i - 1] == fills[i];
        assert HalvesOf(fills, symbol)[2 * i] == HalvesOf(fills[1..], symbol)[2 * (i - 1)];
        assert HalvesOf(fills, symbol)[2 * i + 1] == HalvesOf(fills[1..], symbol)[2 * (i - 1) + 1];
      }
    }
  }

  /** The half at an index: whose fill it is and on which side. */
  lemma {:induction false} HalfAt(fills: seq<Fill>, symbol: Text, j: nat) returns (i: nat, role: Role)
    requires j < |HalvesOf(fills, symbol)|
    ensures i < |fills| && i == j / 2 && role == (if j % 2 == 0 then Taker else Maker)
    ensures HalvesOf(fills, symbol)[j] == HalfOf(fills[i], symbol, role)
  {
    HalvesAre(fills, symbol);
    i, role := j / 2, if j % 2 == 0 then Taker else Maker;
    assert j == 2 * i || j == 2 * i + 1;
  }

  lemma {:induction false} TakesSomething(facts: Facts, symbol: Text, o: Order, fills: seq<Fill>, i: nat)
    requires FillsTrue(facts, symbol, o, fills) && i < |fills|
    ensures MakerQty(fills, fills[i].makerOrder) > 0
  {
    assert FillTrue(facts, symbol, o, fills[0]);
    forall k | 0 <= k < |fills[1..]|
      ensures FillTrue(facts, symbol, o, fills[1..][k])
    {
      assert FillTrue(facts, symbol, o, fills[k + 1]);
    }
    TakesNonneg(facts, symbol, o, fills[1..], fills[i].makerOrder);
    if i > 0 { TakesSomething(facts, symbol, o, fills[1..], i - 1); }
  }

  lemma {:induction false} TakesNonneg(facts: Facts, symbol: Text, o: Order, fills: seq<Fill>, id: Uuid)
    requires FillsTrue(facts, symbol, o, fills)
    ensures MakerQty(fills, id) >= 0
  {
    if fills != [] {
      assert FillTrue(facts, symbol, o, fills[0]);
      forall k | 0 <= k < |fills[1..]|
        ensures FillTrue(facts, symbol, o, fills[1..][k])
      {
        assert FillTrue(facts, symbol, o, fills[k + 1]);
      }
      TakesNonneg(facts, symbol, o, fills[1..], id);
    }
  }

  // ---- accepting an order --------------------------------------------------------------------------------

  lemma {:induction false} FactTrue(facts: Facts, m: Inbound)
    requires m.OrderAccepted? && m.order in facts && facts[m.order] == m
    ensures OrderTrue(facts, m.symbol, OrderOf(m))
  {}

  lemma {:induction false} KnowMore(cfg: ShardConfig, facts: Facts, symbol: Text, m: VenueMap, ids: set<Uuid>,
      more: set<Uuid>)
    requires VenuesOk(cfg, facts, symbol, m, ids) && ids <= more
    ensures VenuesOk(cfg, facts, symbol, m, more)
  {
    hide RestOf, FlatBook.Valid, Books.KnownIds, BookTrue;
    forall v | v in m ensures BookSound(cfg, symbol, v, m[v], more) { assert BookSound(cfg, symbol, v, m[v], ids); }
  }

  /** The venues an order is placed on: the symbol's books with the configured ones created, where it rests nowhere. */
  lemma {:induction false} Ready(cfg: ShardConfig, facts: Facts, y: Story, symbol: Text, id: Uuid)
    requires StoryOk(cfg, facts, y) && ProperConfig(cfg)
    ensures var books := VenueBooks(cfg, symbol, At(y.shard.books, symbol));
      && VenuesOk(cfg, facts, symbol, books, y.ids + {id}) && Room(facts, books, y.outs)
      && (forall u :: SeqAt(books, u) == SeqAt(At(y.shard.books, symbol), u))
      && (id !in y.ids ==> Absent(books, id))
  {
    hide VenuesOk, RestOf, VenueBooks, FilledOf, Finished, OutsOk, MarketOk, SeqAt;
    var before := At(y.shard.books, symbol);
    assert VenuesOk(cfg, facts, symbol, before, y.ids) && Room(facts, before, y.outs) by {
      AtOk(cfg, facts, y, symbol);
    }
    VenueBooksOk(cfg, facts, symbol, before, y.ids);
    var books := VenueBooks(cfg, symbol, before);
    if id !in y.ids {
      forall v | v in books
        ensures RestOf(books[v], id) == 0
      {
        UnknownRestsNowhere(cfg, facts, symbol, books, y.ids, v, id);
      }
    }
    KnowMore(cfg, facts, symbol, books, y.ids, y.ids + {id});
  }

  lemma {:induction false} AtOk(cfg: ShardConfig, facts: Facts, y: Story, symbol: Text)
    requires BooksOk(cfg, facts, y)
    ensures VenuesOk(cfg, facts, symbol, At(y.shard.books, symbol), y.ids)
    ensures Room(facts, At(y.shard.books, symbol), y.outs)
  {
    hide RestOf, BookSound, BookTrue;
  }

  lemma {:induction false} UnknownRestsNowhere(cfg: ShardConfig, facts: Facts, symbol: Text, m: VenueMap,
      ids: set<Uuid>, v: Text, id: Uuid)
    requires VenuesOk(cfg, facts, symbol, m, ids) && v in m && id !in ids
    ensures RestOf(m[v], id) == 0
  {
    hide RestOf;
    assert BookSound(cfg, symbol, v, m[v], ids);
    RestIsLive(m[v], id);
    if m[v].Live(id) { LiveIsKnown(m[v], id); }
  }

  lemma {:induction false} RestingIsKnown(cfg: ShardConfig, facts: Facts, symbol: Text, m: VenueMap, ids: set<Uuid>,
      v: Text, id: Uuid)
    requires VenuesOk(cfg, facts, symbol, m, ids) && v in m && RestOf(m[v], id) > 0
    ensures id in ids
  {
    hide RestOf;
    assert BookSound(cfg, symbol, v, m[v], ids);
    RestIsLive(m[v], id);
    LiveIsKnown(m[v], id);
  }

  /** How much of an order may still trade. */
  function RoomFor(facts: Facts, outs: seq<Matching.Outcome>, id: Uuid): int
    requires id in facts
  {
    facts[id].qty - FilledOf(outs, id)
  }

  /** After a placement: every other order still has room for what was taken from it and what is left of it. */
  lemma {:induction false} OthersKeepRoom(cfg: ShardConfig, facts: Facts, y: Story, m: Inbound, books: VenueMap,
      ids: set<Uuid>, id: Uuid)
    requires m.OrderAccepted? && Proper(m) && m.order in ids && ProperConfig(cfg)
    requires OrderTrue(facts, m.symbol, OrderOf(m))
    requires VenuesOk(cfg, facts, m.symbol, books, ids) && Absent(books, m.order) && Room(facts, books, y.outs)
    requires FactsOk(facts)
    requires id != m.order && id in facts && FilledOf(y.outs, id) <= facts[id].qty
    ensures var p := Place(cfg, m, books);
      && 0 <= MakerQty(p.fills, id) <= RoomFor(facts, y.outs, id)
      && (forall v :: v in p.books ==> RestOf(p.books[v], id) <= RoomFor(facts, y.outs, id) - MakerQty(p.fills, id))
      && ((forall v :: v in books ==> RestOf(books[v], id) <= 0) ==>
           MakerQty(p.fills, id) == 0 && forall v :: v in p.books ==> RestOf(p.books[v], id) <= 0)
  {
    hide VenuesOk, RestOf, Place, FilledOf, Finished, MakerQty, OrderTrue, Absent, ProperConfig;
    var bound := RoomFor(facts, y.outs, id);
    assert AtMost(books, id, bound) by {
      forall v | v in books
        ensures RestOf(books[v], id) <= bound
      {
        if RestOf(books[v], id) > 0 { assert FilledOf(y.outs, id) + RestOf(books[v], id) <= facts[id].qty; }
      }
    }
    PlaceBounds(cfg, facts, m, books, ids, id, bound);
    if forall v :: v in books ==> RestOf(books[v], id) <= 0 {
      PlaceBounds(cfg, facts, m, books, ids, id, 0);
    }
  }

  /** An order taken from was resting: it is known, not finished, and not the newcomer. */
  lemma {:induction false} MakerWasResting(cfg: ShardConfig, facts: Facts, y: Story, m: Inbound, books: VenueMap,
      ids: set<Uuid>, id: Uuid)
    requires m.OrderAccepted? && Proper(m) && m.order in ids && ProperConfig(cfg)
    requires OrderTrue(facts, m.symbol, OrderOf(m))
    requires VenuesOk(cfg, facts, m.symbol, books, ids) && Absent(books, m.order) && Room(facts, books, y.outs)
    requires FactsOk(facts)
    requires forall x :: x in facts ==> FilledOf(y.outs, x) <= facts[x].qty
    requires var p := Place(cfg, m, books);
      MakerQty(p.fills, id) > 0 || exists v :: v in p.books && RestOf(p.books[v], id) > 0
    requires id in facts && id != m.order
    ensures id in ids && !Finished(y.outs, id)
  {
    hide VenuesOk, RestOf, Place, FilledOf, Finished, MakerQty, OrderTrue, Absent, ProperConfig;
    OthersKeepRoom(cfg, facts, y, m, books, ids, id);
    var v :| v in books && RestOf(books[v], id) > 0;
    RestingIsKnown(cfg, facts, m.symbol, books, ids, v, id);
  }

  /** Everything known about the placement of an order new to the shard. */
  ghost predicate Fresh(cfg: ShardConfig, facts: Facts, y: Story, m: Inbound)
  {
    && m.OrderAccepted? && m.order in facts && facts[m.order] == m && m.order !in y.ids && ProperConfig(cfg)
    && StoryOk(cfg, facts, y)
  }

  ghost function BooksFor(cfg: ShardConfig, y: Story, m: Inbound): VenueMap
  {
    VenueBooks(cfg, m.symbol, At(y.shard.books, m.symbol))
  }

  lemma {:induction false} FreshPlaced(cfg: ShardConfig, facts: Facts, y: Story, m: Inbound)
      returns (books: VenueMap, ids: set<Uuid>)
    requires Fresh(cfg, facts, y, m)
    ensures books == BooksFor(cfg, y, m) && ids == y.ids + {m.order}
    ensures Proper(m) && OrderTrue(facts, m.symbol, OrderOf(m)) && VenuesOk(cfg, facts, m.symbol, books, ids)
    ensures Absent(books, m.order)
    ensures Room(facts, books, y.outs) && forall u :: SeqAt(books, u) == SeqAt(At(y.shard.books, m.symbol), u)
    ensures PlacedOk(cfg, facts, m, books, Place(cfg, m, books), ids)
    ensures VenuesSound(cfg, m.symbol, books, ids)
  {
    books, ids := BooksFor(cfg, y, m), y.ids + {m.order};
    assert FactOk(m.order, facts[m.order]);
    FactTrue(facts, m);
    Ready(cfg, facts, y, m.symbol, m.order);
    hide VenuesOk, RestOf, Place, OrderTrue, Absent, ProperConfig, PlacedOk, Room, StoryOk, VenueBooks, SeqAt;
    PlaceTrades(cfg, facts, m, books, ids);
    OkSound(cfg, facts, m.symbol, books, ids);
  }

  // ---- what is said about a new order ----------------------------------------------------------------------

  lemma {:induction false} FillParties(facts: Facts, symbol: Text, o: Order, fills: seq<Fill>, i: nat)
    requires FillsTrue(facts, symbol, o, fills) && MakerQty(fills, o.id) == 0 && i < |fills|
    ensures FillTrue(facts, symbol, o, fills[i]) && fills[i].makerOrder != o.id
    ensures MakerQty(fills, fills[i].makerOrder) > 0
  {
    TakesSomething(facts, symbol, o, fills, i);
  }

  /** One half names an accepted order of the symbol, its account and side, at a positive price. */
  lemma {:induction false} HalfTrue(cfg: ShardConfig, facts: Facts, y: Story, m: Inbound, j: nat)
    requires Fresh(cfg, facts, y, m)
    requires j < |HalvesOf(Place(cfg, m, BooksFor(cfg, y, m)).fills, m.symbol)|
    ensures var half := HalvesOf(Place(cfg, m, BooksFor(cfg, y, m)).fills, m.symbol)[j];
      && half.FillHalf? && OutTrue(facts, y.ids + {m.order}, half) && facts[half.order].symbol == m.symbol
      && (half.order == m.order || !Finished(y.outs, half.order))
  {
    var books, ids := FreshPlaced(cfg, facts, y, m);
    var p := Place(cfg, m, books);
    hide VenuesOk, RestOf, Place, Absent, ProperConfig, Room, VenueBooks, Minted, Finished, FilledOf, HalvesOf,
      MakerQty,
      BooksOk, MarketOk, Conclusive;
    var i, role := HalfAt(p.fills, m.symbol, j);
    FillParties(facts, m.symbol, OrderOf(m), p.fills, i);
    var maker := p.fills[i].makerOrder;
    assert FactOk(maker, facts[maker]);
    MakerWasResting(cfg, facts, y, m, books, ids, maker);
  }

  ghost function NewsOf(cfg: ShardConfig, y: Story, m: Inbound): seq<Matching.Outcome>
    requires m.OrderAccepted?
  {
    OutcomesOf(m, Place(cfg, m, BooksFor(cfg, y, m)))
  }

  /** All that is said concerns accepted orders of the symbol; the only final word is the last, on the new order. */
  lemma {:induction false} NewsTrue(cfg: ShardConfig, facts: Facts, y: Story, m: Inbound, k: nat)
    requires Fresh(cfg, facts, y, m) && k < |NewsOf(cfg, y, m)|
    ensures var n := NewsOf(cfg, y, m)[k];
      && OutTrue(facts, y.ids + {m.order}, n) && facts[n.order].symbol == m.symbol
      && (n.FillHalf? ==> n.order == m.order || !Finished(y.outs, n.order))
      && (n.FillHalf? || (k == |NewsOf(cfg, y, m)| - 1 && n.order == m.order && n.Verdict?
                          && n.disposition == Place(cfg, m, BooksFor(cfg, y, m)).disposition))
  {
    var halves := HalvesOf(Place(cfg, m, BooksFor(cfg, y, m)).fills, m.symbol);
    hide Place, HalvesOf, VenueBooks, Finished, StoryOk, ProperConfig;
    if k < |halves| { HalfTrue(cfg, facts, y, m, k); }
    assert y.ids + {m.order} >= {m.order};
  }

  lemma {:induction false} NewcomerUnheard(facts: Facts, y: Story, id: Uuid)
    requires OutsOk(facts, y) && id !in y.ids
    ensures FilledOf(y.outs, id) == 0 && !Finished(y.outs, id)
  {
    forall i | 0 <= i < |y.outs| ensures y.outs[i].order != id { assert OutTrue(facts, y.ids, y.outs[i]); }
    FilledNone(y.outs, id);
  }

  /** What the news adds to an order's fills. */
  lemma {:induction false} NewsFill(cfg: ShardConfig, facts: Facts, y: Story, m: Inbound, id: Uuid)
    requires Fresh(cfg, facts, y, m)
    ensures var p := Place(cfg, m, BooksFor(cfg, y, m));
      && FilledOf(NewsOf(cfg, y, m), id) == (if id == m.order then FilledQty(p.fills) else MakerQty(p.fills, id))
      && FilledQty(p.fills) + p.remaining == m.qty && p.remaining >= 0
      && (p.disposition == Complete <==> p.remaining == 0)
  {
    var books, ids := FreshPlaced(cfg, facts, y, m);
    PlaceSound(cfg, m, books, ids);
    var p := Place(cfg, m, books);
    hide VenuesOk, VenuesSound, RestOf, Place, Absent, ProperConfig, Room, VenueBooks, Minted, Finished, FilledOf,
      HalvesOf, MakerQty, StoryOk, FillsTrue, FilledQty;
    HalvesFilled(facts, m.symbol, OrderOf(m), p.fills, id);
    FilledJoin(HalvesOf(p.fills, m.symbol),
      [Verdict(m.account, m.order, m.symbol, p.disposition, p.remaining, p.reason)], id);
    VerdictFills(m, p, id);
  }

  lemma {:induction false} VerdictFills(m: Inbound, p: Placed, id: Uuid)
    requires m.OrderAccepted?
    ensures FilledOf([Verdict(m.account, m.order, m.symbol, p.disposition, p.remaining, p.reason)], id) == 0
  {}

  // ---- the venues of the symbol after it -----------------------------------------------------------------

  lemma {:induction false} FinishedJoin(a: seq<Matching.Outcome>, b: seq<Matching.Outcome>, id: Uuid)
    ensures Finished(a + b, id) <==> Finished(a, id) || Finished(b, id)
  {
    if Finished(a, id) { var i :| 0 <= i < |a| && Final(a[i]) && a[i].order == id; assert (a + b)[i] == a[i]; }
    if Finished(b, id) { var i :| 0 <= i < |b| && Final(b[i]) && b[i].order == id; assert (a + b)[|a| + i] == b[i]; }
  }

  lemma {:induction false} NewsFinishes(cfg: ShardConfig, facts: Facts, y: Story, m: Inbound, id: Uuid)
    requires Fresh(cfg, facts, y, m)
    ensures Finished(NewsOf(cfg, y, m), id) ==>
      id == m.order && Place(cfg, m, BooksFor(cfg, y, m)).disposition != Rested
  {
    var news := NewsOf(cfg, y, m);
    hide NewsOf, Place, BooksFor, Fresh;
    if Finished(news, id) {
      var k :| 0 <= k < |news| && Final(news[k]) && news[k].order == id;
      NewsTrue(cfg, facts, y, m, k);
    }
  }

  /** One order's share of the room after the placement. */
  ghost predicate RoomAt(facts: Facts, rests: int, outs: seq<Matching.Outcome>, id: Uuid)
  {
    id in facts && FilledOf(outs, id) + rests <= facts[id].qty && !Finished(outs, id)
  }

  lemma {:induction false} NewcomerRoom(cfg: ShardConfig, facts: Facts, y: Story, m: Inbound, v: Text)
    requires Fresh(cfg, facts, y, m) && v in Place(cfg, m, BooksFor(cfg, y, m)).books
    requires RestOf(Place(cfg, m, BooksFor(cfg, y, m)).books[v], m.order) > 0
    ensures RoomAt(facts, RestOf(Place(cfg, m, BooksFor(cfg, y, m)).books[v], m.order), y.outs + NewsOf(cfg, y, m),
      m.order)
  {
    var books, ids := FreshPlaced(cfg, facts, y, m);
    var p, news := Place(cfg, m, books), NewsOf(cfg, y, m);
    assert RestsWithin(p.books, m.order, if p.disposition == Rested then p.remaining else 0);
    NewcomerUnheard(facts, y, m.order);
    hide VenuesSound, RestOf, Place, Absent, ProperConfig, Room, VenueBooks, Minted, Finished, FilledOf, MakerQty,
      FillsTrue, NewsOf, BooksFor, MarketOk,
      BooksOk, VenuesOk, OutsOk, FilledQty, TradedOk;
    FilledJoin(y.outs, news, m.order);
    FinishedJoin(y.outs, news, m.order);
    NewsFill(cfg, facts, y, m, m.order);
    NewsFinishes(cfg, facts, y, m, m.order);
  }

  lemma {:induction false} OthersRoom(cfg: ShardConfig, facts: Facts, y: Story, m: Inbound, v: Text, id: Uuid)
    requires Fresh(cfg, facts, y, m) && v in Place(cfg, m, BooksFor(cfg, y, m)).books && id != m.order
    requires RestOf(Place(cfg, m, BooksFor(cfg, y, m)).books[v], id) > 0
    ensures RoomAt(facts, RestOf(Place(cfg, m, BooksFor(cfg, y, m)).books[v], id), y.outs + NewsOf(cfg, y, m), id)
  {
    var books, ids := FreshPlaced(cfg, facts, y, m);
    var p, news := Place(cfg, m, books), NewsOf(cfg, y, m);
    assert VenuesOk(cfg, facts, m.symbol, p.books, ids);
    hide VenuesSound, RestOf, Place, Absent, ProperConfig, Room, VenueBooks, Minted, Finished, FilledOf, MakerQty,
      FillsTrue, NewsOf, BooksFor, MarketOk,
      BooksOk, VenuesOk, FilledQty, TradedOk, PlacedOk;
    RestsOnFact(cfg, facts, m.symbol, p.books, ids, v, id);
    FilledJoin(y.outs, news, id);
    FinishedJoin(y.outs, news, id);
    NewsFill(cfg, facts, y, m, id);
    NewsFinishes(cfg, facts, y, m, id);
    OthersKeepRoom(cfg, facts, y, m, books, ids, id);
    MakerWasResting(cfg, facts, y, m, books, ids, id);
  }

  /** At the venues it traded on, every order has room for what still rests. */
  lemma {:induction false} RoomHere(cfg: ShardConfig, facts: Facts, y: Story, m: Inbound)
    requires Fresh(cfg, facts, y, m)
    ensures Room(facts, Place(cfg, m, BooksFor(cfg, y, m)).books, y.outs + NewsOf(cfg, y, m))
  {
    assert m.OrderAccepted?;
    hide RestOf, Place, Finished, FilledOf, NewsOf, BooksFor, Fresh;
    var p, outs := Place(cfg, m, BooksFor(cfg, y, m)), y.outs + NewsOf(cfg, y, m);
    forall v, id | v in p.books && RestOf(p.books[v], id) > 0 ensures RoomAt(facts, RestOf(p.books[v], id), outs, id) {
      if id == m.order { NewcomerRoom(cfg, facts, y, m, v); } else { OthersRoom(cfg, facts, y, m, v, id); }
    }
  }

  /** What rests was accepted, for this symbol. */
  lemma {:induction false} RestsOnFact(cfg: ShardConfig, facts: Facts, symbol: Text, m: VenueMap, ids: set<Uuid>,
      v: Text, id: Uuid)
    requires VenuesOk(cfg, facts, symbol, m, ids) && v in m && RestOf(m[v], id) > 0
    ensures id in facts && facts[id].symbol == symbol
  {
    assert BookTrue(facts, symbol, m[v]);
    RestSumFact(facts, symbol, m[v].bids, id);
    RestSumFact(facts, symbol, m[v].asks, id);
  }

  lemma {:induction false} RestSumFact(facts: Facts, symbol: Text, q: seq<Order>, id: Uuid)
    requires QueueTrue(facts, symbol, q)
    ensures RestSum(q, id) != 0 ==> id in facts && facts[id].symbol == symbol
  {
    if q != [] {
      assert OrderTrue(facts, symbol, q[0]);
      forall i | 0 <= i < |q[1..]|
        ensures OrderTrue(facts, symbol, q[1..][i])
      {
        assert OrderTrue(facts, symbol, q[i + 1]);
      }
      RestSumFact(facts, symbol, q[1..], id);
    }
  }

  /** Venues of other symbols have nothing to do with the news. */
  lemma {:induction false} RoomElsewhere(cfg: ShardConfig, facts: Facts, m: VenueMap, symbol: Text, ids: set<Uuid>,
      outs: seq<Matching.Outcome>, news: seq<Matching.Outcome>)
    requires VenuesOk(cfg, facts, symbol, m, ids) && Room(facts, m, outs)
    requires forall k :: 0 <= k < |news| ==> news[k].order in facts && facts[news[k].order].symbol != symbol
    ensures Room(facts, m, outs + news)
  {
    hide VenuesOk, RestOf, FilledOf, Finished;
    forall v, id | v in m && RestOf(m[v], id) > 0
      ensures id in facts && FilledOf(outs + news, id) + RestOf(m[v], id) <= facts[id].qty && !Finished(outs + news, id)
    {
      RestsOnFact(cfg, facts, symbol, m, ids, v, id);
      FilledJoin(outs, news, id);
      FinishedJoin(outs, news, id);
      FilledNone(news, id);
    }
  }

  // ---- the invariant after a new order ------------------------------------------------------------------------

  /** A list of executions by identity. */
  function MarketOf(fills: seq<Fill>): map<FillId, Fill>
  {
    if fills == [] then map[] else MarketOf(fills[..|fills| - 1])[fills[|fills| - 1].id := fills[|fills| - 1]]
  }

  lemma {:induction false} MarketHas(fills: seq<Fill>)
    requires forall i, j :: 0 <= i < j < |fills| ==> fills[i].id != fills[j].id
    ensures forall i :: 0 <= i < |fills| ==> fills[i].id in MarketOf(fills) && MarketOf(fills)[fills[i].id] == fills[i]
    ensures forall f :: f in MarketOf(fills) ==> exists i :: 0 <= i < |fills| && fills[i].id == f
  {
    if fills != [] {
      var n := |fills| - 1;
      MarketHas(fills[..n]);
      forall i | 0 <= i < n
        ensures fills[i].id in MarketOf(fills) && MarketOf(fills)[fills[i].id] == fills[i]
      {
        assert fills[..n][i] == fills[i];
      }
      forall f | f in MarketOf(fills) ensures exists i :: 0 <= i < |fills| && fills[i].id == f {
        if f != fills[n].id { var i :| 0 <= i < n && fills[..n][i].id == f; assert fills[i].id == f; }
      }
    }
  }

  ghost function Accepted(cfg: ShardConfig, y: Story, m: Inbound): Story
    requires m.OrderAccepted?
  {
    var p := Place(cfg, m, BooksFor(cfg, y, m));
    Story(y.ids + {m.order}, Shard(y.shard.books[m.symbol := p.books], y.shard.seen.Push(m.order)), y.outs +
      NewsOf(cfg, y, m), y.market + MarketOf(p.fills))
  }

  lemma {:induction false} AcceptBooks(cfg: ShardConfig, facts: Facts, y: Story, m: Inbound)
    requires Fresh(cfg, facts, y, m)
    ensures BooksOk(cfg, facts, Accepted(cfg, y, m))
  {
    var books, ids := FreshPlaced(cfg, facts, y, m);
    var p, news, y' := Place(cfg, m, books), NewsOf(cfg, y, m), Accepted(cfg, y, m);
    RoomHere(cfg, facts, y, m);
    assert VenuesOk(cfg, facts, m.symbol, p.books, ids);
    forall k | 0 <= k < |news|
      ensures news[k].order in facts && facts[news[k].order].symbol == m.symbol
    {
      NewsTrue(cfg, facts, y, m, k);
    }
    hide VenuesOk, Room, NewsOf, Place, OutsOk, MarketOk, BooksFor, PlacedOk;
    forall s | s in y'.shard.books
      ensures VenuesOk(cfg, facts, s, y'.shard.books[s], ids) && Room(facts, y'.shard.books[s], y'.outs)
    {
      if s != m.symbol {
        assert VenuesOk(cfg, facts, s, y.shard.books[s], y.ids) && Room(facts, y.shard.books[s], y.outs);
        RoomElsewhere(cfg, facts, y.shard.books[s], s, y.ids, y.outs, news);
        KnowMore(cfg, facts, s, y.shard.books[s], y.ids, ids);
      }
    }
  }

  lemma {:induction false} OutKnown(facts: Facts, ids: set<Uuid>, more: set<Uuid>, m: Matching.Outcome)
    requires OutTrue(facts, ids, m) && ids <= more
    ensures OutTrue(facts, more, m)
  {}

  lemma {:induction false} AcceptOuts(cfg: ShardConfig, facts: Facts, y: Story, m: Inbound)
    requires Fresh(cfg, facts, y, m)
    ensures OutsOk(facts, Accepted(cfg, y, m))
  {
    var news, y' := NewsOf(cfg, y, m), Accepted(cfg, y, m);
    assert OutsOk(facts, y) && m.OrderAccepted?;
    hide NewsOf, Fresh, OutTrue, Finished, FilledOf, Place;
    forall i | 0 <= i < |y'.outs| ensures OutTrue(facts, y'.ids, y'.outs[i]) {
      if i < |y.outs| { OutKnown(facts, y.ids, y'.ids, y.outs[i]); } else { NewsTrue(cfg, facts, y, m, i - |y.outs|); }
    }
    assert Conclusive(y'.outs) by { AcceptConclusive(cfg, facts, y, m); }
    forall id | id in facts ensures FilledOf(y'.outs, id) <= facts[id].qty { AcceptFills(cfg, facts, y, m, id); }
  }

  lemma {:induction false} AcceptFills(cfg: ShardConfig, facts: Facts, y: Story, m: Inbound, id: Uuid)
    requires Fresh(cfg, facts, y, m) && id in facts
    ensures FilledOf(y.outs + NewsOf(cfg, y, m), id) <= facts[id].qty
  {
    var books, ids := FreshPlaced(cfg, facts, y, m);
    hide VenuesOk, VenuesSound, RestOf, Place, Absent, ProperConfig, Room, VenueBooks, Finished, FilledOf, MakerQty,
      NewsOf, MarketOk, BooksOk, FilledQty, PlacedOk;
    FilledJoin(y.outs, NewsOf(cfg, y, m), id);
    NewsFill(cfg, facts, y, m, id);
    if id == m.order { NewcomerUnheard(facts, y, id); } else { OthersKeepRoom(cfg, facts, y, m, books, ids, id); }
  }

  lemma {:induction false} AcceptConclusive(cfg: ShardConfig, facts: Facts, y: Story, m: Inbound)
    requires Fresh(cfg, facts, y, m)
    ensures Conclusive(y.outs + NewsOf(cfg, y, m))
  {
    var news := NewsOf(cfg, y, m);
    assert OutsOk(facts, y) && m.order !in y.ids;
    hide NewsOf, Fresh, FilledOf, Place, BooksFor, Finished;
    forall k | 0 <= k < |news| ensures
      && (news[k].FillHalf? ==> news[k].qty > 0 && (news[k].order == m.order || !Finished(y.outs, news[k].order)))
      && (Final(news[k]) ==> k == |news| - 1)
    {
      NewsTrue(cfg, facts, y, m, k);
    }
    forall i | 0 <= i < |y.outs| ensures y.outs[i].order != m.order { assert OutTrue(facts, y.ids, y.outs[i]); }
    ConclusiveJoin(y.outs, news, m.order);
  }

  /** News about an order unheard of and orders not finished, with its only final word at the end. */
  lemma {:induction false} ConclusiveJoin(outs: seq<Matching.Outcome>, news: seq<Matching.Outcome>, newcomer: Uuid)
    requires Conclusive(outs) && forall i :: 0 <= i < |outs| ==> outs[i].order != newcomer
    requires forall k :: 0 <= k < |news| ==>
      && (news[k].FillHalf? ==> news[k].qty > 0 && (news[k].order == newcomer || !Finished(outs, news[k].order)))
      && (Final(news[k]) ==> k == |news| - 1)
    ensures Conclusive(outs + news)
  {
    var n, all := |outs|, outs + news;
    forall i | n <= i < |all| && Final(all[i]) ensures i == |all| - 1 { assert all[i] == news[i - n]; }
    forall i, j | 0 <= i < j < |all| && Final(all[i]) && all[j].FillHalf? ensures all[i].order != all[j].order {
      assert i < n;
      if j >= n {
        assert all[j] == news[j - n] && all[i] == outs[i];
        assert !Finished(outs, news[j - n].order) || news[j - n].order == newcomer;
      }
    }
    hide Finished;
    forall j | 0 <= j < |all| && all[j].FillHalf? ensures all[j].qty > 0 { if j >= n { assert all[j] == news[j - n]; } }
  }

  lemma {:induction false} MintedFrom(cfg: ShardConfig, before: VenueMap, books: VenueMap, after: VenueMap,
      fills: seq<Fill>, symbol: Text)
    requires Minted(cfg.shard, symbol, books, after, fills) && forall u :: SeqAt(books, u) == SeqAt(before, u)
    ensures Minted(cfg.shard, symbol, before, after, fills)
  {}

  lemma {:induction false} StillNumbered(cfg: ShardConfig, y: Story, symbol: Text, p: Placed, f: FillId)
    requires forall g :: g in y.market ==> Numbered(cfg, y.shard.books, g)
    requires Minted(cfg.shard, symbol, At(y.shard.books, symbol), p.books, p.fills)
    requires f in y.market + MarketOf(p.fills)
    requires forall g :: g in MarketOf(p.fills) ==> exists i :: 0 <= i < |p.fills| && p.fills[i].id == g
    ensures Numbered(cfg, y.shard.books[symbol := p.books], f)
  {
    hide SeqAt, MarketOf;
    if f in MarketOf(p.fills) { var i :| 0 <= i < |p.fills| && p.fills[i].id == f; }
  }

  /** No earlier fill shares an identity with a new one. */
  lemma {:induction false} NewIdentity(cfg: ShardConfig, facts: Facts, y: Story, m: Inbound, i: nat)
    requires Fresh(cfg, facts, y, m) && i < |Place(cfg, m, BooksFor(cfg, y, m)).fills|
    ensures Place(cfg, m, BooksFor(cfg, y, m)).fills[i].id !in y.market
  {
    var books, ids := FreshPlaced(cfg, facts, y, m);
    var p := Place(cfg, m, books);
    assert Minted(cfg.shard, m.symbol, books, p.books, p.fills) && MarketOk(cfg, y);
    hide VenuesOk, VenuesSound, RestOf, Place, Absent, ProperConfig, Room, VenueBooks, BooksOk, OutsOk, FillsTrue,
      MakerQty, BooksFor, SeqAt, StoryOk;
    forall g | g in y.market ensures g != p.fills[i].id { assert Numbered(cfg, y.shard.books, g); }
  }

  lemma {:induction false} OldInMarket(n: Matching.Outcome, old_: map<FillId, Fill>, new_: map<FillId, Fill>)
    requires Conservation.OfMarket(n, old_) && forall g :: g in old_ ==> g !in new_
    ensures Conservation.OfMarket(n, old_ + new_)
  {}

  /** The market after a placement: the old fills, and the new ones under identities of their own. */
  lemma {:induction false} NewMarket(cfg: ShardConfig, facts: Facts, y: Story, m: Inbound)
    requires Fresh(cfg, facts, y, m)
    ensures var fills := Place(cfg, m, BooksFor(cfg, y, m)).fills;
      && (forall g :: g in y.market ==> g !in MarketOf(fills))
      && (forall i :: 0 <= i < |fills| ==> fills[i].id in MarketOf(fills) && MarketOf(fills)[fills[i].id] == fills[i])
      && (forall i, j :: 0 <= i < j < |fills| ==> fills[i].id != fills[j].id)
      && (forall f :: f in y.market + MarketOf(fills) ==> Numbered(cfg, Accepted(cfg, y, m).shard.books, f))
  {
    var books, ids := FreshPlaced(cfg, facts, y, m);
    var p := Place(cfg, m, books);
    assert Minted(cfg.shard, m.symbol, books, p.books, p.fills) && MarketOk(cfg, y);
    hide VenuesOk, VenuesSound, RestOf, Place, Absent, ProperConfig, Room, VenueBooks, BooksOk, OutsOk, FillsTrue,
      MakerQty, SeqAt, StoryOk, MarketOf, PlacedOk,
      Numbered, BooksFor, TradedOk;
    MintedFrom(cfg, At(y.shard.books, m.symbol), books, p.books, p.fills, m.symbol);
    MarketHas(p.fills);
    forall i | 0 <= i < |p.fills| ensures p.fills[i].id !in y.market { NewIdentity(cfg, facts, y, m, i); }
    forall f | f in y.market + MarketOf(p.fills)
      ensures Numbered(cfg, y.shard.books[m.symbol := p.books], f)
    {
      StillNumbered(cfg, y, m.symbol, p, f);
    }
  }

  /** A half of the news is a half of one of the new fills. */
  lemma {:induction false} NewHalf(cfg: ShardConfig, facts: Facts, y: Story, m: Inbound, k: nat)
      returns (i: nat, role: Role)
    requires Fresh(cfg, facts, y, m) && k < |NewsOf(cfg, y, m)| && NewsOf(cfg, y, m)[k].FillHalf?
    ensures var fills := Place(cfg, m, BooksFor(cfg, y, m)).fills;
      && i < |fills| && i == k / 2 && role == (if k % 2 == 0 then Taker else Maker)
      && fills[i].id.symbol == m.symbol != []
      && NewsOf(cfg, y, m)[k] == HalfOf(fills[i], m.symbol, role)
  {
    var books, ids := FreshPlaced(cfg, facts, y, m);
    var fills := Place(cfg, m, books).fills;
    assert FactOk(m.order, facts[m.order]) && FillsTrue(facts, m.symbol, OrderOf(m), fills);
    hide VenuesOk, VenuesSound, RestOf, Place, Absent, ProperConfig, Room, VenueBooks, StoryOk, PlacedOk, HalvesOf,
      BooksFor, TradedOk, HalfOf;
    i, role := HalfAt(fills, m.symbol, k);
    assert FillTrue(facts, m.symbol, OrderOf(m), fills[i]);
  }

  lemma {:induction false} NewInMarket(cfg: ShardConfig, facts: Facts, y: Story, m: Inbound, k: nat)
    requires Fresh(cfg, facts, y, m) && k < |NewsOf(cfg, y, m)|
    ensures Conservation.OfMarket(NewsOf(cfg, y, m)[k], Accepted(cfg, y, m).market)
  {
    NewMarket(cfg, facts, y, m);
    assert m.OrderAccepted?;
    hide Place, BooksFor, StoryOk, MarketOf, NewsOf, Fresh, Numbered;
    if NewsOf(cfg, y, m)[k].FillHalf? { var i, role := NewHalf(cfg, facts, y, m, k); }
  }

  lemma {:induction false} OldAgainstNew(cfg: ShardConfig, facts: Facts, y: Story, m: Inbound, i: nat, k: nat)
    requires Fresh(cfg, facts, y, m) && k < |NewsOf(cfg, y, m)| && NewsOf(cfg, y, m)[k].FillHalf? && i < |y.outs|
    requires y.outs[i].FillHalf?
    ensures y.outs[i].eventId != NewsOf(cfg, y, m)[k].eventId
  {
    assert MarketOk(cfg, y) && m.OrderAccepted?;
    assert Conservation.OfMarket(y.outs[i], y.market);
    hide Place, BooksFor, StoryOk, MarketOf, NewsOf, Fresh, Numbered, MarketOk;
    var j, role := NewHalf(cfg, facts, y, m, k);
    NewIdentity(cfg, facts, y, m, j);
  }

  lemma {:induction false} NewApart(cfg: ShardConfig, facts: Facts, y: Story, m: Inbound, i: nat, k: nat)
    requires Fresh(cfg, facts, y, m) && i < k < |NewsOf(cfg, y, m)| && NewsOf(cfg, y, m)[i].FillHalf?
    requires NewsOf(cfg, y, m)[k].FillHalf?
    ensures NewsOf(cfg, y, m)[i].eventId != NewsOf(cfg, y, m)[k].eventId
  {
    NewMarket(cfg, facts, y, m);
    assert m.OrderAccepted?;
    hide Place, BooksFor, StoryOk, MarketOf, NewsOf, Fresh, Numbered;
    var a, ra := NewHalf(cfg, facts, y, m, i);
    var b, rb := NewHalf(cfg, facts, y, m, k);
  }

  lemma {:induction false} AcceptInMarket(cfg: ShardConfig, facts: Facts, y: Story, m: Inbound, i: nat)
    requires Fresh(cfg, facts, y, m) && i < |y.outs + NewsOf(cfg, y, m)|
    ensures Conservation.OfMarket((y.outs + NewsOf(cfg, y, m))[i], Accepted(cfg, y, m).market)
  {
    assert MarketOk(cfg, y) && m.OrderAccepted?;
    assert Accepted(cfg, y, m).market == y.market + MarketOf(Place(cfg, m, BooksFor(cfg, y, m)).fills);
    if i < |y.outs| { NewMarket(cfg, facts, y, m); }
    hide Place, BooksFor, StoryOk, MarketOf, NewsOf, Fresh, Numbered, Accepted, Conservation.OfMarket;
    if i < |y.outs| {
      assert Conservation.OfMarket(y.outs[i], y.market);
      OldInMarket(y.outs[i], y.market, MarketOf(Place(cfg, m, BooksFor(cfg, y, m)).fills));
    } else {
      NewInMarket(cfg, facts, y, m, i - |y.outs|);
    }
  }

  lemma {:induction false} ApartJoin(a: seq<Matching.Outcome>, b: seq<Matching.Outcome>)
    requires HalvesApart(a) && HalvesApart(b)
    requires forall i, k :: 0 <= i < |a| && 0 <= k < |b| && a[i].FillHalf? && b[k].FillHalf? ==>
      a[i].eventId != b[k].eventId
    ensures HalvesApart(a + b)
  {
    var all := a + b;
    forall i, j | 0 <= i < j < |all| && all[i].FillHalf? && all[j].FillHalf? ensures all[i].eventId != all[j].eventId {
      if j >= |a| {
        if i < |a| {
          assert a[i].eventId != b[j - |a|].eventId;
        } else {
          assert b[i - |a|].eventId != b[j - |a|].eventId;
        }
      }
    }
  }

  lemma {:induction false} AcceptApart(cfg: ShardConfig, facts: Facts, y: Story, m: Inbound)
    requires Fresh(cfg, facts, y, m)
    ensures HalvesApart(y.outs + NewsOf(cfg, y, m))
  {
    assert HalvesApart(y.outs) && m.OrderAccepted?;
    var news := NewsOf(cfg, y, m);
    hide Place, BooksFor, StoryOk, MarketOf, NewsOf, Fresh, HalvesApart;
    forall i, k | 0 <= i < |y.outs| && 0 <= k < |news| && y.outs[i].FillHalf? && news[k].FillHalf?
      ensures y.outs[i].eventId != news[k].eventId
    {
      OldAgainstNew(cfg, facts, y, m, i, k);
    }
    assert HalvesApart(news) by { NewsApart(cfg, facts, y, m); }
    ApartJoin(y.outs, news);
  }

  lemma {:induction false} NewsApart(cfg: ShardConfig, facts: Facts, y: Story, m: Inbound)
    requires Fresh(cfg, facts, y, m)
    ensures HalvesApart(NewsOf(cfg, y, m))
  {
    assert m.OrderAccepted?;
    var news := NewsOf(cfg, y, m);
    hide Place, BooksFor, StoryOk, MarketOf, NewsOf, Fresh;
    forall i, j | 0 <= i < j < |news| && news[i].FillHalf? && news[j].FillHalf?
      ensures news[i].eventId != news[j].eventId
    {
      NewApart(cfg, facts, y, m, i, j);
    }
  }

  lemma {:induction false} AcceptMarket(cfg: ShardConfig, facts: Facts, y: Story, m: Inbound)
    requires Fresh(cfg, facts, y, m)
    ensures MarketOk(cfg, Accepted(cfg, y, m))
  {
    NewMarket(cfg, facts, y, m);
    var y' := Accepted(cfg, y, m);
    assert y'.outs == y.outs + NewsOf(cfg, y, m) && m.OrderAccepted?;
    assert forall f :: f in y'.market ==> Numbered(cfg, y'.shard.books, f);
    hide Place, BooksFor, StoryOk, MarketOf, NewsOf, Fresh, Numbered, Accepted, Conservation.OfMarket;
    forall i | 0 <= i < |y'.outs|
      ensures Conservation.OfMarket(y'.outs[i], y'.market)
    {
      AcceptInMarket(cfg, facts, y, m, i);
    }
    AcceptApart(cfg, facts, y, m);
  }

  /** A new order keeps the whole story. */
  lemma {:induction false} AcceptKeeps(cfg: ShardConfig, facts: Facts, y: Story, m: Inbound)
    requires Fresh(cfg, facts, y, m) && !y.shard.seen.Has(m.order)
    ensures StoryOk(cfg, facts, Accepted(cfg, y, m))
    ensures Handle(cfg, y.shard, m) == (Accepted(cfg, y, m).shard, NewsOf(cfg, y, m))
  {
    AcceptBooks(cfg, facts, y, m);
    AcceptOuts(cfg, facts, y, m);
    AcceptMarket(cfg, facts, y, m);
    hide Place, BooksOk, OutsOk, MarketOk, VenueBooks, FactsOk, MarketOf, OutcomesOf;
  }

  // ---- cancelling, and suppressed repeats ----------------------------------------------------------------------

  ghost function Withdrawn(cfg: ShardConfig, y: Story, m: Inbound): Story
  {
    var c := CancelIn(BooksFor(cfg, y, m), m.order);
    y.(shard := y.shard.(books := y.shard.books[m.symbol := c.0]), outs := y.outs + [VerdictOn(m, c.1)])
  }

  /** A cancel of an order that was handed over before it, about the order as it was accepted. */
  ghost predicate Cancellable(cfg: ShardConfig, facts: Facts, y: Story, m: Inbound)
  {
    && m.CancelRequested? && m.order in y.ids && m.order in facts && facts[m.order].account == m.account
    && facts[m.order].symbol == m.symbol
    && ProperConfig(cfg) && StoryOk(cfg, facts, y)
  }

  lemma {:induction false} CancelledVenues(cfg: ShardConfig, facts: Facts, y: Story, m: Inbound)
    requires Cancellable(cfg, facts, y, m)
    ensures var after := CancelIn(BooksFor(cfg, y, m), m.order).0;
      && VenuesOk(cfg, facts, m.symbol, after, y.ids) && Room(facts, after, y.outs) && Absent(after, m.order)
      && (forall u :: SeqAt(after, u) == SeqAt(At(y.shard.books, m.symbol), u))
  {
    Ready(cfg, facts, y, m.symbol, m.order);
    assert y.ids + {m.order} == y.ids;
    hide VenuesOk, RestOf, VenueBooks, FilledOf, Finished, StoryOk, CancelFirst, SeqAt, Room, Absent;
    var books := BooksFor(cfg, y, m);
    ListedIn(books);
    var names := Texts.Listed(books.Keys);
    CancelEverywhere(cfg, facts, m.symbol, names, books, m.order, y.ids);
    var after := CancelIn(books, m.order).0;
    assert Absent(after, m.order) by { AbsentAtAll(names, after, m.order); }
    RoomShrinks(facts, books, after, y.outs);
  }

  lemma {:induction false} AbsentAtAll(names: seq<Text>, m: VenueMap, id: Uuid)
    requires (forall v :: v in m ==> v in names)
    requires forall i :: 0 <= i < |names| && names[i] in m ==> RestOf(m[names[i]], id) == 0
    ensures Absent(m, id)
  {
    hide RestOf;
  }

  lemma {:induction false} RoomShrinks(facts: Facts, m: VenueMap, m': VenueMap, outs: seq<Matching.Outcome>)
    requires Room(facts, m, outs) && m'.Keys == m.Keys
    requires forall u, other :: u in m ==> 0 <= RestOf(m'[u], other) <= RestOf(m[u], other)
    ensures Room(facts, m', outs)
  {
    hide RestOf, FilledOf, Finished;
  }

  lemma {:induction false} WithdrawBooks(cfg: ShardConfig, facts: Facts, y: Story, m: Inbound)
    requires Cancellable(cfg, facts, y, m)
    ensures BooksOk(cfg, facts, Withdrawn(cfg, y, m))
  {
    CancelledVenues(cfg, facts, y, m);
    var y' := Withdrawn(cfg, y, m);
    var after, verdict := CancelIn(BooksFor(cfg, y, m), m.order).0, y'.outs[|y.outs|];
    assert y'.outs == y.outs + [verdict] && verdict.order == m.order;
    hide VenuesOk, CancelIn, OutsOk, MarketOk, BooksFor, Withdrawn, Absent;
    forall s | s in y'.shard.books
      ensures VenuesOk(cfg, facts, s, y'.shard.books[s], y'.ids) && Room(facts, y'.shard.books[s], y'.outs)
    {
      if s == m.symbol {
        assert Room(facts, after, y'.outs) by { RoomAfterVerdict(facts, after, y.outs, verdict); }
      } else {
        assert VenuesOk(cfg, facts, s, y.shard.books[s], y.ids) && Room(facts, y.shard.books[s], y.outs);
        RoomElsewhere(cfg, facts, y.shard.books[s], s, y.ids, y.outs, [verdict]);
      }
    }
  }

  lemma {:induction false} RoomAfterVerdict(facts: Facts, m: VenueMap, outs: seq<Matching.Outcome>,
      verdict: Matching.Outcome)
    requires Room(facts, m, outs) && !verdict.FillHalf? && Absent(m, verdict.order)
    ensures Room(facts, m, outs + [verdict])
  {
    hide RestOf, FilledOf, Finished;
    forall v, id | v in m && RestOf(m[v], id) > 0
      ensures id in facts && FilledOf(outs + [verdict], id) + RestOf(m[v], id) <= facts[id].qty
      ensures !Finished(outs + [verdict], id)
    {
      FilledJoin(outs, [verdict], id);
      FinishedJoin(outs, [verdict], id);
      FilledNone([verdict], id);
    }
  }

  lemma {:induction false} WithdrawOuts(cfg: ShardConfig, facts: Facts, y: Story, m: Inbound)
    requires Cancellable(cfg, facts, y, m)
    ensures OutsOk(facts, Withdrawn(cfg, y, m))
  {
    var y' := Withdrawn(cfg, y, m);
    var verdict := y'.outs[|y.outs|];
    assert y'.outs == y.outs + [verdict] && verdict.CancelOutcome? && OutTrue(facts, y.ids, verdict);
    assert OutsOk(facts, y);
    hide CancelIn, MarketOk, BooksFor, Withdrawn, BooksOk, OutTrue, FilledOf;
    forall i | 0 <= i < |y'.outs|
      ensures OutTrue(facts, y'.ids, y'.outs[i])
    {
      if i < |y.outs| { assert OutTrue(facts, y.ids, y.outs[i]); }
    }
    assert Conclusive(y'.outs) by {
      forall i, j | 0 <= i < j < |y'.outs| && Final(y'.outs[i]) && y'.outs[j].FillHalf?
        ensures y'.outs[i].order != y'.outs[j].order
      {
        assert y'.outs[i] == y.outs[i] && y'.outs[j] == y.outs[j];
      }
    }
    forall id | id in facts ensures FilledOf(y'.outs, id) <= facts[id].qty {
      FilledJoin(y.outs, [verdict], id);
      OneFilled(verdict, id);
    }
  }

  lemma {:induction false} OneFilled(m: Matching.Outcome, id: Uuid)
    ensures FilledOf([m], id) == if m.FillHalf? && m.order == id then m.qty else 0
  {}

  lemma {:induction false} WithdrawMarket(cfg: ShardConfig, facts: Facts, y: Story, m: Inbound)
    requires Cancellable(cfg, facts, y, m)
    ensures MarketOk(cfg, Withdrawn(cfg, y, m))
  {
    CancelledVenues(cfg, facts, y, m);
    var y' := Withdrawn(cfg, y, m);
    var after, verdict := CancelIn(BooksFor(cfg, y, m), m.order).0, y'.outs[|y.outs|];
    assert y'.outs == y.outs + [verdict] && verdict.CancelOutcome? && MarketOk(cfg, y);
    assert y'.shard.books == y.shard.books[m.symbol := after] && y'.market == y.market;
    hide CancelIn, BooksFor, Withdrawn, BooksOk, OutsOk, SeqAt, VenuesOk, Room, Absent, Conservation.OfMarket;
    forall f | f in y'.market ensures Numbered(cfg, y'.shard.books, f) { assert Numbered(cfg, y.shard.books, f); }
    assert Conservation.OfMarket(verdict, y.market) by { NoHalf(verdict, y.market); }
  }

  lemma {:induction false} NoHalf(m: Matching.Outcome, market: map<FillId, Fill>)
    requires !m.FillHalf?
    ensures Conservation.OfMarket(m, market)
  {}

  /** A cancel keeps the whole story. */
  lemma {:induction false} WithdrawKeeps(cfg: ShardConfig, facts: Facts, y: Story, m: Inbound)
    requires Cancellable(cfg, facts, y, m)
    ensures StoryOk(cfg, facts, Withdrawn(cfg, y, m))
    ensures var c := CancelIn(BooksFor(cfg, y, m), m.order);
      Handle(cfg, y.shard, m) == (Withdrawn(cfg, y, m).shard, [VerdictOn(m, c.1)])
  {
    WithdrawBooks(cfg, facts, y, m);
    WithdrawOuts(cfg, facts, y, m);
    WithdrawMarket(cfg, facts, y, m);
    hide BooksOk, OutsOk, MarketOk, VenueBooks, FactsOk, CancelIn;
  }
}
