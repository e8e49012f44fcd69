/** What the matching engine guarantees about every order it has been handed: where it rests, how much of it has traded,
    and what it has been told about it. */
module Desk {
  import opened Types
  import opened OrderBook
  import opened Router
  import opened Matching
  import Books = BookRuns

  type Accepted = m: Inbound | m.OrderAccepted? witness OrderAccepted(NIL, NIL, [], Buy, Market, IOC, 0, 0, 0, [])

  /** The accepted message of every order, as the core recorded it. */
  type Facts = map<Uuid, Accepted>

  predicate FactOk(o: Uuid, m: Accepted)
  {
    m.order == o && o != NIL && m.symbol != [] && m.qty > 0 && (m.typ == Limit ==> m.limitPrice > 0)
  }

  ghost predicate FactsOk(facts: Facts) { forall o :: o in facts ==> FactOk(o, facts[o]) }

  // ---- quantities ------------------------------------------------------------------------------------

  /** What rests under an id. */
  function RestSum(q: seq<Order>, id: Uuid): int
  {
    if q == [] then 0 else (if q[0].id == id then q[0].remaining else 0) + RestSum(q[1..], id)
  }

  function RestOf(b: FlatBook, id: Uuid): int { RestSum(b.bids, id) + RestSum(b.asks, id) }

  /** What a list of executions took from a resting order. */
  function MakerQty(fills: seq<Fill>, id: Uuid): int
  {
    if fills == [] then 0 else (if fills[0].makerOrder == id then fills[0].qty else 0) + MakerQty(fills[1..], id)
  }

  lemma {:induction false} RestSplit(p: seq<Order>, q: seq<Order>, id: Uuid)
    ensures RestSum(p + q, id) == RestSum(p, id) + RestSum(q, id)
  {
    if p == [] { assert p + q == q; } else {
      assert (p + q)[1..] == p[1..] + q;
      RestSplit(p[1..], q, id);
    }
  }

  lemma {:induction false} MakerSplit(f: seq<Fill>, g: seq<Fill>, id: Uuid)
    ensures MakerQty(f + g, id) == MakerQty(f, id) + MakerQty(g, id)
  {
    if f == [] { assert f + g == g; } else {
      assert (f + g)[1..] == f[1..] + g;
      MakerSplit(f[1..], g, id);
    }
  }

  lemma {:induction false} RestNonneg(q: seq<Order>, id: Uuid)
    requires forall i :: 0 <= i < |q| ==> q[i].remaining > 0
    ensures RestSum(q, id) >= 0 && (RestSum(q, id) > 0 <==> HasId(q, id))
  {
    if q != [] {
      RestNonneg(q[1..], id);
      assert HasId(q, id) <==> q[0].id == id || HasId(q[1..], id) by {
        if HasId(q[1..], id) { var i :| 0 <= i < |q[1..]| && q[1..][i].id == id; assert q[i + 1].id == id; }
        if HasId(q, id) { var i :| 0 <= i < |q| && q[i].id == id; if i > 0 { assert q[1..][i - 1].id == id; } }
      }
    }
  }

  lemma {:induction false} RestIsLive(b: FlatBook, id: Uuid)
    requires b.Valid()
    ensures RestOf(b, id) >= 0 && (RestOf(b, id) > 0 <==> b.Live(id))
    ensures RestSum(b.bids, id) >= 0 && RestSum(b.asks, id) >= 0
  {
    assert forall i :: 0 <= i < |b.bids| ==> Resting(Buy, b.bids[i], b.arrival);
    assert forall i :: 0 <= i < |b.asks| ==> Resting(Sell, b.asks[i], b.arrival);
    RestNonneg(b.bids, id);
    RestNonneg(b.asks, id);
  }

  /** Executions take from the resting orders exactly what those lose. */
  lemma {:induction false} MatchTakes(config: BookConfig, o: Order, q: seq<Order>, bookSeq: nat, id: Uuid)
    ensures var m := Match(config, o, q, bookSeq); MakerQty(m.fills, id) + RestSum(m.queue, id) == RestSum(q, id)
    decreases |q|
  {
    hide Crosses;
    if !(o.remaining <= 0 || q == [] || !Crosses(o, q[0].limitPrice, config.collarBps)) {
      var take := Min(o.remaining, q[0].remaining);
      var m := Match(config, o, q, bookSeq);
      if q[0].remaining == take {
        var o' := o.(remaining := o.remaining - take);
        MatchTakes(config, o', q[1..], bookSeq + 1, id);
        assert m.fills[1..] == Match(config, o', q[1..], bookSeq + 1).fills;
      } else {
        assert m.fills[1..] == [] && m.queue[1..] == q[1..];
      }
    }
  }

  lemma {:induction false} InsertRests(side: Side, q: seq<Order>, o: Order, id: Uuid)
    ensures RestSum(Insert(side, q, o), id) == RestSum(q, id) + if o.id == id then o.remaining else 0
  {
    var p := Position(side, q, o.limitPrice);
    RestSplit(q[..p], [o] + q[p..], id);
    RestSplit([o], q[p..], id);
    RestSplit(q[..p], q[p..], id);
    assert q[..p] + q[p..] == q && q[..p] + ([o] + q[p..]) == Insert(side, q, o) && [o][1..] == [];
  }

  /** A submit: resting orders lose what the executions took, and the newcomer rests for no more than it did not fill.
      */
  lemma {:induction false} SubmitTakes(b: FlatBook, o: Order, id: Uuid)
    requires b.Valid() && Submittable(o) && o.remaining > 0 && !b.Live(o.id)
    ensures var (b', r) := Submit(b, o);
      && (id != o.id ==> MakerQty(r.fills, id) + RestOf(b', id) == RestOf(b, id))
      && (id == o.id ==> MakerQty(r.fills, id) == 0)
      && (id == o.id ==>
            0 <= RestOf(b', id) <= if o.typ == Limit && o.tif == GTC then o.remaining - FilledQty(r.fills) else 0)
  {
    hide Match, Insert, Crosses, AfterMatch, Rest, RestOf, FlatBook.Valid, FlatBook.Live;
    RestIsLive(b, id);
    if !b.Seen(o.id) {
      var a := Admit(b, o);
      var m := Match(b.config, a, b.Queue(o.side.Opposite()), b.bookSeq);
      var after := AfterMatch(b, a, m);
      AfterMatchTakes(b, a, id);
      if m.left != 0 && o.typ == Limit && o.tif == GTC { RestAddsTo(after, a.(remaining := m.left), id); }
    }
  }

  lemma {:induction false} RestAddsTo(b: FlatBook, o: Order, id: Uuid)
    ensures RestOf(Rest(b, o), id) == RestOf(b, id) + if o.id == id then o.remaining else 0
  {
    InsertRests(o.side, b.Queue(o.side), o, id);
    hide Insert;
  }

  lemma {:induction false} AfterMatchTakes(b: FlatBook, o: Order, id: Uuid)
    requires b.Valid() && o.id != NIL && o.remaining >= 0 && !b.Live(o.id)
    ensures var m := Match(b.config, o, b.Queue(o.side.Opposite()), b.bookSeq);
      && MakerQty(m.fills, id) + RestOf(AfterMatch(b, o, m), id) == RestOf(b, id) && MakerQty(m.fills, id) >= 0
      && (id == o.id ==> MakerQty(m.fills, id) == 0 && RestOf(AfterMatch(b, o, m), id) == 0)
      && m.left >= 0 && m.left + FilledQty(m.fills) == o.remaining
  {
    hide Match, Crosses, FlatBook.Live;
    var opp := b.Queue(o.side.Opposite());
    var m := Match(b.config, o, opp, b.bookSeq);
    assert forall i :: 0 <= i < |opp| ==> Resting(o.side.Opposite(), opp[i], b.arrival);
    MatchTakes(b.config, o, opp, b.bookSeq, id);
    MatchAccounts(b.config, o, opp, b.bookSeq);
    MatchIsGreedy(b.config, o, opp, b.bookSeq);
    MakerNonneg(b.config, o, opp, b.bookSeq, m.fills, id);
    AfterMatchKeeps(b, o);
    RestIsLive(b, id);
    RestIsLive(AfterMatch(b, o, m), id);
    hide FlatBook.Valid;
  }

  lemma {:induction false} MakerNonneg(config: BookConfig, o: Order, q: seq<Order>, bookSeq: nat, fills: seq<Fill>,
      id: Uuid)
    requires TookInOrder(config, o, q, bookSeq, fills)
    ensures MakerQty(fills, id) >= 0
  {
    hide Crosses;
    if fills != [] {
      assert Took(config, o, q[0], bookSeq + 1, fills[0]);
      forall i | 0 <= i < |fills[1..]| ensures Took(config, o, q[1..][i], bookSeq + 1 + 1 + i, fills[1..][i]) {
        assert Took(config, o, q[i + 1], bookSeq + 1 + (i + 1), fills[i + 1]);
      }
      MakerNonneg(config, o, q[1..], bookSeq + 1, fills[1..], id);
    }
  }

  // ---- resting orders are what was accepted ------------------------------------------------------------

  predicate OrderTrue(facts: Facts, symbol: Text, x: Order)
  {
    && x.id in facts
    && var m := facts[x.id];
    m.symbol == symbol && m.account == x.account && m.side == x.side && m.limitPrice == x.limitPrice && m.typ == x.typ
  }

  ghost predicate QueueTrue(facts: Facts, symbol: Text, q: seq<Order>)
  {
    forall i :: 0 <= i < |q| ==> OrderTrue(facts, symbol, q[i])
  }

  ghost predicate BookTrue(facts: Facts, symbol: Text, b: FlatBook)
  {
    QueueTrue(facts, symbol, b.bids) && QueueTrue(facts, symbol, b.asks)
  }

  lemma {:induction false} ShavedTrue(facts: Facts, symbol: Text, q: seq<Order>, q': seq<Order>)
    requires QueueTrue(facts, symbol, q) && Shaved(q, q')
    ensures QueueTrue(facts, symbol, q')
  {
    forall j | 0 <= j < |q'| ensures OrderTrue(facts, symbol, q'[j]) {
      ShavedAt(q, q', j);
      assert OrderTrue(facts, symbol, q[|q| - |q'| + j]);
    }
  }

  lemma {:induction false} InsertTrue(facts: Facts, symbol: Text, side: Side, q: seq<Order>, o: Order)
    requires QueueTrue(facts, symbol, q) && OrderTrue(facts, symbol, o)
    ensures QueueTrue(facts, symbol, Insert(side, q, o))
  {
    var p, r := Position(side, q, o.limitPrice), Insert(side, q, o);
    forall i | 0 <= i < |r| ensures OrderTrue(facts, symbol, r[i]) {
      assert r[i] == if i < p then q[i] else if i == p then o else q[i - 1];
    }
  }

  lemma {:induction false} SubmitTrue(facts: Facts, symbol: Text, b: FlatBook, o: Order)
    requires b.Valid() && Submittable(o) && BookTrue(facts, symbol, b) && OrderTrue(facts, symbol, o)
    ensures BookTrue(facts, symbol, Submit(b, o).0)
  {
    hide Match, Crosses, OrderTrue, AfterMatch, Rest, BookTrue, FlatBook.Valid, FlatBook.Seen;
    if !b.Seen(o.id) {
      var a := Admit(b, o);
      var m := Match(b.config, a, b.Queue(o.side.Opposite()), b.bookSeq);
      AfterMatchTrue(facts, symbol, b, a);
      RestingTrue(facts, symbol, o, a.(remaining := m.left));
      RestTrue(facts, symbol, AfterMatch(b, a, m), a.(remaining := m.left));
    }
  }

  lemma {:induction false} AfterMatchTrue(facts: Facts, symbol: Text, b: FlatBook, o: Order)
    requires b.Valid() && o.remaining >= 0 && BookTrue(facts, symbol, b)
    ensures BookTrue(facts, symbol, AfterMatch(b, o, Match(b.config, o, b.Queue(o.side.Opposite()), b.bookSeq)))
  {
    hide Match, Crosses, OrderTrue;
    var opp := b.Queue(o.side.Opposite());
    assert forall i :: 0 <= i < |opp| ==> Resting(o.side.Opposite(), opp[i], b.arrival);
    MatchShaves(b.config, o, opp, b.bookSeq);
    hide FlatBook.Valid, Shaved;
    ShavedTrue(facts, symbol, opp, Match(b.config, o, opp, b.bookSeq).queue);
    hide QueueTrue;
  }

  lemma {:induction false} RestTrue(facts: Facts, symbol: Text, b: FlatBook, o: Order)
    requires BookTrue(facts, symbol, b) && OrderTrue(facts, symbol, o)
    ensures BookTrue(facts, symbol, Rest(b, o))
  {
    InsertTrue(facts, symbol, o.side, b.Queue(o.side), o);
    hide Insert, QueueTrue;
  }

  lemma {:induction false} RestingTrue(facts: Facts, symbol: Text, o: Order, o': Order)
    requires OrderTrue(facts, symbol, o) && o' == o.(seqNo := o'.seqNo, remaining := o'.remaining)
    ensures OrderTrue(facts, symbol, o')
  {}

  // ---- executions are between accepted orders --------------------------------------------------------------

  /** One execution of an order o of a symbol at a venue. */
  ghost predicate FillTrue(facts: Facts, symbol: Text, o: Order, f: Fill)
  {
    && f.qty > 0 && f.takerOrder == o.id && f.takerAccount == o.account && f.takerSide == o.side
    && f.id.symbol == symbol
    && f.makerOrder in facts
    && var m := facts[f.makerOrder];
    m.symbol == symbol && m.account == f.makerAccount && m.side == o.side.Opposite() && m.typ == Limit
    && m.limitPrice == f.price
  }

  ghost predicate FillsTrue(facts: Facts, symbol: Text, o: Order, fills: seq<Fill>)
  {
    forall i :: 0 <= i < |fills| ==> FillTrue(facts, symbol, o, fills[i])
  }

  lemma {:induction false} SubmitFillsTrue(facts: Facts, symbol: Text, b: FlatBook, o: Order)
    requires b.Valid() && Submittable(o) && BookTrue(facts, symbol, b) && b.config.symbol == symbol
    ensures FillsTrue(facts, symbol, o, Submit(b, o).1.fills)
  {
    hide Match, Insert, Crosses;
    if !b.Seen(o.id) {
      var a := Admit(b, o);
      var opp := b.Queue(o.side.Opposite());
      assert forall i :: 0 <= i < |opp| ==> Resting(o.side.Opposite(), opp[i], b.arrival);
      MatchIsGreedy(b.config, a, opp, b.bookSeq);
      var fills := Match(b.config, a, opp, b.bookSeq).fills;
      forall i | 0 <= i < |fills| ensures FillTrue(facts, symbol, o, fills[i]) {
        assert Took(b.config, a, opp[i], b.bookSeq + 1 + i, fills[i]) && OrderTrue(facts, symbol, opp[i]);
      }
    }
  }

  // ---- fill identities ---------------------------------------------------------------------------------

  function SeqAt(m: VenueMap, v: Text): nat { if v in m then m[v].bookSeq else 0 }

  /** Fresh identities: numbered above what each venue's book had, up to what it has, and all different. */
  ghost predicate Minted(shard: int, symbol: Text, before: VenueMap, after: VenueMap, fills: seq<Fill>)
  {
    && (forall i :: 0 <= i < |fills| ==>
          fills[i].id.shard == shard && fills[i].id.symbol == symbol
          && SeqAt(before, fills[i].id.venue) < fills[i].id.bookSeq <= SeqAt(after, fills[i].id.venue))
    && (forall i, j :: 0 <= i < j < |fills| ==> fills[i].id != fills[j].id)
    && forall v :: SeqAt(before, v) <= SeqAt(after, v)
  }

  lemma {:induction false} MintedJoin(shard: int, symbol: Text, x: VenueMap, y: VenueMap, z: VenueMap, f: seq<Fill>,
      g: seq<Fill>)
    requires Minted(shard, symbol, x, y, f) && Minted(shard, symbol, y, z, g)
    ensures Minted(shard, symbol, x, z, f + g)
  {}

  /** The book under a venue's name is that venue's. */
  ghost predicate NamedBooks(cfg: ShardConfig, symbol: Text, m: VenueMap)
  {
    forall v :: v in m ==> v != [] && m[v].config == NewBook(cfg, symbol, v).config
  }

  lemma {:induction false} SubmitMints(cfg: ShardConfig, symbol: Text, m: VenueMap, v: Text, o: Order)
    requires v in m && m[v].Valid() && Submittable(o) && NamedBooks(cfg, symbol, m)
    ensures var (b', r) := Submit(m[v], o);
      Minted(cfg.shard, symbol, m, m[v := b'], r.fills) && NamedBooks(cfg, symbol, m[v := b'])
  {
    hide Submit;
    Books.ApplyNumbers(m[v], Books.SubmitOp(o));
    var (b', r) := Submit(m[v], o);
    assert Books.FillsOf(Books.Apply(m[v], Books.SubmitOp(o)).1) == r.fills;
    assert m[v].config == BookConfig(symbol, v, cfg.shard, cfg.collarBps);
  }

  // ---- one symbol's venues ----------------------------------------------------------------------------------

  /** An order rests at one venue only. */
  ghost predicate OnePlace(m: VenueMap)
  {
    forall v, u, id :: v in m && u in m && RestOf(m[v], id) > 0 && RestOf(m[u], id) > 0 ==> v == u
  }

  ghost predicate Absent(m: VenueMap, id: Uuid) { forall v :: v in m ==> RestOf(m[v], id) == 0 }

  ghost predicate BooksTrue(facts: Facts, symbol: Text, m: VenueMap)
  {
    forall v :: v in m ==> BookTrue(facts, symbol, m[v])
  }

  ghost predicate VenuesOk(cfg: ShardConfig, facts: Facts, symbol: Text, m: VenueMap, ids: set<Uuid>)
  {
    VenuesSound(cfg, symbol, m, ids) && BooksTrue(facts, symbol, m) && OnePlace(m) && NamedBooks(cfg, symbol, m)
  }

  /** What a submit does to the venues as a whole. */
  lemma {:induction false} SubmitAt(cfg: ShardConfig, facts: Facts, symbol: Text, m: VenueMap, v: Text, o: Order,
      ids: set<Uuid>)
    requires VenuesOk(cfg, facts, symbol, m, ids) && v in m && Absent(m, o.id)
    requires Submittable(o) && o.remaining > 0 && o.id in ids && OrderTrue(facts, symbol, o)
    ensures var (b', r) := Submit(m[v], o);
      && VenuesOk(cfg, facts, symbol, m[v := b'], ids)
      && FillsTrue(facts, symbol, o, r.fills) && Minted(cfg.shard, symbol, m, m[v := b'], r.fills)
      && MakerQty(r.fills, o.id) == 0
      && (forall u :: u in m && u != v ==> RestOf(m[v := b'][u], o.id) == 0)
      && 0 <= RestOf(b', o.id) <= if o.typ == Limit && o.tif == GTC then o.remaining - FilledQty(r.fills) else 0
  {
    hide Submit, RestOf, FillsTrue, Minted, FlatBook.Valid, FlatBook.Live, BookTrue, OrderTrue;
    var b := m[v];
    assert b.Valid() && b.config.symbol == symbol && !b.Live(o.id) by {
      assert BookSound(cfg, symbol, v, b, ids);
      RestIsLive(b, o.id);
    }
    SubmitTakes(b, o, o.id);
    SubmitTrue(facts, symbol, b, o);
    SubmitFillsTrue(facts, symbol, b, o);
    SubmitMints(cfg, symbol, m, v, o);
    SubmitSound(cfg, symbol, v, b, o, ids);
    hide BookSound, Submittable;
    OneStays(cfg, symbol, m, v, o, ids);
  }

  /** Nothing but the newcomer comes to rest, so places stay single. */
  lemma {:induction false} OneStays(cfg: ShardConfig, symbol: Text, m: VenueMap, v: Text, o: Order, ids: set<Uuid>)
    requires VenuesSound(cfg, symbol, m, ids) && OnePlace(m) && v in m && Absent(m, o.id) && Submittable(o)
    requires o.remaining > 0
    ensures OnePlace(m[v := Submit(m[v], o).0])
  {
    hide Submit, RestOf, BookSound, FlatBook.Valid, FlatBook.Live, Submittable, MakerQty;
    var m' := m[v := Submit(m[v], o).0];
    forall id | id != o.id
      ensures RestOf(m'[v], id) > 0 ==> RestOf(m[v], id) > 0
    {
      RestsLess(cfg, symbol, m, v, o, ids, id);
    }
    forall w, u, id | w in m' && u in m' && RestOf(m'[w], id) > 0 && RestOf(m'[u], id) > 0 ensures w == u {
      if id != o.id {
        assert RestOf(m[w], id) > 0 && RestOf(m[u], id) > 0;
      }
    }
  }

  lemma {:induction false} RestsLess(cfg: ShardConfig, symbol: Text, m: VenueMap, v: Text, o: Order, ids: set<Uuid>,
      id: Uuid)
    requires VenuesSound(cfg, symbol, m, ids) && v in m && Absent(m, o.id) && Submittable(o) && o.remaining > 0
    requires id != o.id
    ensures var (b', r) := Submit(m[v], o);
      MakerQty(r.fills, id) + RestOf(b', id) == RestOf(m[v], id) && MakerQty(r.fills, id) >= 0
  {
    hide RestOf;
    assert m[v].Valid() by { assert BookSound(cfg, symbol, v, m[v], ids); }
    RestIsLive(m[v], o.id);
    SubmitTakes(m[v], o, id);
    SubmitMakerNonneg(m[v], o, id);
  }

  lemma {:induction false} SubmitMakerNonneg(b: FlatBook, o: Order, id: Uuid)
    requires b.Valid() && Submittable(o)
    ensures MakerQty(Submit(b, o).1.fills, id) >= 0
  {
    hide Match, Insert, Crosses;
    if !b.Seen(o.id) {
      var a, opp := Admit(b, o), b.Queue(o.side.Opposite());
      assert forall i :: 0 <= i < |opp| ==> Resting(o.side.Opposite(), opp[i], b.arrival);
      MatchIsGreedy(b.config, a, opp, b.bookSeq);
      MakerNonneg(b.config, a, opp, b.bookSeq, Match(b.config, a, opp, b.bookSeq).fills, id);
    }
  }

  ghost predicate AtMost(m: VenueMap, id: Uuid, bound: int) { forall v :: v in m ==> RestOf(m[v], id) <= bound }

  /** If nowhere more than a bound rests under an id, then what a submit takes from it and what still rests stay within
      the bound together. */
  lemma {:induction false} SubmitBounds(cfg: ShardConfig, symbol: Text, m: VenueMap, v: Text, o: Order, ids: set<Uuid>,
      id: Uuid, bound: nat)
    requires VenuesSound(cfg, symbol, m, ids) && OnePlace(m) && v in m && Absent(m, o.id) && Submittable(o)
    requires o.remaining > 0
    requires id != o.id && AtMost(m, id, bound)
    ensures var (b', r) := Submit(m[v], o);
      0 <= MakerQty(r.fills, id) <= bound && AtMost(m[v := b'], id, bound - MakerQty(r.fills, id))
  {
    hide Submit, RestOf, BookSound, FlatBook.Valid, FlatBook.Live, Submittable, MakerQty;
    RestsLess(cfg, symbol, m, v, o, ids, id);
    var (b', r) := Submit(m[v], o);
    var m' := m[v := b'];
    assert 0 <= RestOf(b', id) by { AfterValid(cfg, symbol, m, v, o, ids, id); }
    forall u | u in m' ensures RestOf(m'[u], id) <= bound - MakerQty(r.fills, id) {
      if u != v && MakerQty(r.fills, id) > 0 {
        assert RestOf(m[v], id) > 0;
        assert RestOf(m[u], id) <= 0;
      }
    }
  }

  lemma {:induction false} AfterValid(cfg: ShardConfig, symbol: Text, m: VenueMap, v: Text, o: Order, ids: set<Uuid>,
      id: Uuid)
    requires VenuesSound(cfg, symbol, m, ids) && v in m && Submittable(o)
    ensures RestOf(Submit(m[v], o).0, id) >= 0
  {
    hide Submit;
    assert m[v].Valid() by { assert BookSound(cfg, symbol, v, m[v], ids); }
    SubmitKeeps(m[v], o);
    RestIsLive(Submit(m[v], o).0, id);
  }

  lemma {:induction false} FillsTrueJoin(facts: Facts, symbol: Text, o: Order, f: seq<Fill>, g: seq<Fill>)
    requires FillsTrue(facts, symbol, o, f) && FillsTrue(facts, symbol, o, g)
    ensures FillsTrue(facts, symbol, o, f + g)
  {
    hide FillTrue;
  }

  lemma {:induction false} SameFillsTrue(facts: Facts, symbol: Text, o: Order, o': Order, fills: seq<Fill>)
    requires FillsTrue(facts, symbol, o', fills) && o.id == o'.id && o.account == o'.account && o.side == o'.side
    ensures FillsTrue(facts, symbol, o, fills)
  {
    forall i | 0 <= i < |fills|
      ensures FillTrue(facts, symbol, o, fills[i])
    {
      assert FillTrue(facts, symbol, o', fills[i]);
    }
  }

  /** The venues after some trading by o, and what it traded. */
  ghost predicate TradedOk(cfg: ShardConfig, facts: Facts, symbol: Text, before: VenueMap, after: VenueMap, o: Order,
      fills: seq<Fill>, ids: set<Uuid>)
  {
    && VenuesOk(cfg, facts, symbol, after, ids) && before.Keys <= after.Keys
    && FillsTrue(facts, symbol, o, fills) && Minted(cfg.shard, symbol, before, after, fills)
    && MakerQty(fills, o.id) == 0
  }

  lemma {:induction false} ExecuteTrades(cfg: ShardConfig, facts: Facts, symbol: Text, m: VenueMap, o: Order,
      steps: seq<Step>, ids: set<Uuid>)
    requires VenuesOk(cfg, facts, symbol, m, ids) && StepsAmong(steps, m.Keys) && StepsPositive(steps)
    requires Absent(m, o.id)
    requires o.id != NIL && o.id in ids && OrderTrue(facts, symbol, o)
    ensures var ex := Execute(m, o, steps);
      TradedOk(cfg, facts, symbol, m, ex.books, o, ex.fills, ids) && Absent(ex.books, o.id) && ex.books.Keys == m.Keys
    decreases |steps|
  {
    hide Submit, VenuesOk, Absent, FillsTrue, Minted, OrderTrue, MakerQty, RestOf, StepsAmong;
    if steps == [] {
      NoTrades(cfg, facts, symbol, m, o, ids);
    } else {
      var v, slice := steps[0].venue, Slice(o, steps[0].qty);
      assert v in m && StepsAmong(steps[1..], m.Keys) by { StepIn(steps, m.Keys); }
      assert OrderTrue(facts, symbol, slice) by { SliceTrue(facts, symbol, o, steps[0].qty); }
      var (b', r) := Submit(m[v], slice);
      SubmitAt(cfg, facts, symbol, m, v, slice, ids);
      SameFillsTrue(facts, symbol, o, slice, r.fills);
      var next := m[v := b'];
      assert next.Keys == m.Keys;
      assert Absent(next, o.id) by { SliceLeavesNothing(m, v, b', slice); }
      ExecuteTrades(cfg, facts, symbol, next, o, steps[1..], ids);
      var rest := Execute(next, o, steps[1..]);
      FillsTrueJoin(facts, symbol, o, r.fills, rest.fills);
      MintedJoin(cfg.shard, symbol, m, next, rest.books, r.fills, rest.fills);
      MakerSplit(r.fills, rest.fills, o.id);
    }
  }

  lemma {:induction false} StepIn(steps: seq<Step>, keys: set<Text>)
    requires StepsAmong(steps, keys) && steps != []
    ensures steps[0].venue in keys && StepsAmong(steps[1..], keys)
  {}

  lemma {:induction false} SliceTrue(facts: Facts, symbol: Text, o: Order, qty: int)
    requires OrderTrue(facts, symbol, o)
    ensures OrderTrue(facts, symbol, Slice(o, qty))
  {}

  lemma {:induction false} SliceLeavesNothing(m: VenueMap, v: Text, b': FlatBook, slice: Order)
    requires v in m && slice.tif == IOC && RestOf(b', slice.id) == 0
    requires forall u :: u in m && u != v ==> RestOf(m[v := b'][u], slice.id) == 0
    ensures Absent(m[v := b'], slice.id)
  {
    hide RestOf;
  }

  lemma {:induction false} NoTrades(cfg: ShardConfig, facts: Facts, symbol: Text, m: VenueMap, o: Order, ids: set<Uuid>)
    requires VenuesOk(cfg, facts, symbol, m, ids)
    ensures TradedOk(cfg, facts, symbol, m, m, o, [], ids)
  {
    hide VenuesOk;
  }

  lemma {:induction false} ExecuteBounds(cfg: ShardConfig, facts: Facts, symbol: Text, m: VenueMap, o: Order,
      steps: seq<Step>, ids: set<Uuid>, id: Uuid, bound: nat)
    requires VenuesOk(cfg, facts, symbol, m, ids) && StepsAmong(steps, m.Keys) && StepsPositive(steps)
    requires Absent(m, o.id)
    requires o.id != NIL && o.id in ids && OrderTrue(facts, symbol, o) && id != o.id && AtMost(m, id, bound)
    ensures var ex := Execute(m, o, steps);
      0 <= MakerQty(ex.fills, id) <= bound && AtMost(ex.books, id, bound - MakerQty(ex.fills, id))
    decreases |steps|
  {
    hide Submit, Absent, FillsTrue, Minted, OrderTrue, RestOf, StepsAmong, AtMost, VenuesSound, BooksTrue, OnePlace,
      NamedBooks;
    if steps != [] {
      var v, slice := steps[0].venue, Slice(o, steps[0].qty);
      assert v in m && StepsAmong(steps[1..], m.Keys) by { StepIn(steps, m.Keys); }
      assert OrderTrue(facts, symbol, slice) by { SliceTrue(facts, symbol, o, steps[0].qty); }
      var (b', r) := Submit(m[v], slice);
      SubmitAt(cfg, facts, symbol, m, v, slice, ids);
      SubmitBounds(cfg, symbol, m, v, slice, ids, id, bound);
      var next := m[v := b'];
      assert next.Keys == m.Keys;
      assert Absent(next, o.id) by { SliceLeavesNothing(m, v, b', slice); }
      ExecuteBounds(cfg, facts, symbol, next, o, steps[1..], ids, id, bound - MakerQty(r.fills, id));
      MakerSplit(r.fills, Execute(next, o, steps[1..]).fills, id);
    }
  }

  // ---- one accepted order -----------------------------------------------------------------------------------

  predicate ProperConfig(cfg: ShardConfig) { forall i :: 0 <= i < |cfg.venues| ==> cfg.venues[i].name != [] }

  lemma {:induction false} NamesProper(venues: seq<Venue>)
    requires forall i :: 0 <= i < |venues| ==> venues[i].name != []
    ensures [] !in VenueNames(venues)
  {
    if venues != [] { NamesProper(venues[1..]); }
  }

  /** A venue's book in a larger set of venues: the one it had, or an empty one under its own name. */
  ghost predicate VenueReady(cfg: ShardConfig, facts: Facts, symbol: Text, m: VenueMap, v: Text, b: FlatBook)
  {
    && v != [] && b.config == NewBook(cfg, symbol, v).config && BookTrue(facts, symbol, b)
    && (forall id :: RestOf(b, id) == if v in m then RestOf(m[v], id) else 0) && b.bookSeq == SeqAt(m, v)
  }

  ghost predicate AllReady(cfg: ShardConfig, facts: Facts, symbol: Text, m: VenueMap, m': VenueMap)
  {
    m.Keys <= m'.Keys && forall v :: v in m' ==> VenueReady(cfg, facts, symbol, m, v, m'[v])
  }

  /** Creating empty books changes nothing that rests or was minted. */
  lemma {:induction false} MoreVenuesOk(cfg: ShardConfig, facts: Facts, symbol: Text, m: VenueMap, m': VenueMap,
      ids: set<Uuid>)
    requires VenuesOk(cfg, facts, symbol, m, ids) && VenuesSound(cfg, symbol, m', ids)
    requires AllReady(cfg, facts, symbol, m, m')
    ensures VenuesOk(cfg, facts, symbol, m', ids) && (forall u :: SeqAt(m', u) == SeqAt(m, u))
    ensures forall v, id :: v in m' ==> RestOf(m'[v], id) == if v in m then RestOf(m[v], id) else 0
  {
    hide RestOf, BookSound, BookTrue, NewBook, VenuesSound;
    forall v, id | v in m' ensures RestOf(m'[v], id) == if v in m then RestOf(m[v], id) else 0 {
      assert VenueReady(cfg, facts, symbol, m, v, m'[v]);
    }
    OneAmongMore(m, m');
    hide OnePlace;
  }

  lemma {:induction false} ReadyAt(cfg: ShardConfig, facts: Facts, symbol: Text, m: VenueMap, v: Text, b: FlatBook,
      ids: set<Uuid>)
    requires VenuesOk(cfg, facts, symbol, m, ids) && v != [] && b == if v in m then m[v] else NewBook(cfg, symbol, v)
    ensures VenueReady(cfg, facts, symbol, m, v, b)
  {
    EmptyNewBook(cfg, facts, symbol, v);
    hide RestOf, BookSound, BookTrue, NewBook, OnePlace;
    if v in m { assert BookTrue(facts, symbol, m[v]); }
  }

  lemma {:induction false} NewBookOk(cfg: ShardConfig, facts: Facts, symbol: Text, m: VenueMap, v: Text, ids: set<Uuid>)
    requires VenuesOk(cfg, facts, symbol, m, ids) && v !in m && v != []
    ensures var m' := m[v := NewBook(cfg, symbol, v)];
      VenuesOk(cfg, facts, symbol, m', ids) && (forall u :: SeqAt(m', u) == SeqAt(m, u))
      && (forall id :: RestOf(m'[v], id) == 0)
  {
    hide VenuesOk, RestOf, NewBook, BookSound, VenueReady;
    var m' := m[v := NewBook(cfg, symbol, v)];
    NewBookSound(cfg, symbol, v, ids);
    assert VenuesSound(cfg, symbol, m', ids) by { OkSound(cfg, facts, symbol, m, ids); }
    forall u | u in m' ensures VenueReady(cfg, facts, symbol, m, u, m'[u]) {
      OkNames(cfg, facts, symbol, m, ids);
      ReadyAt(cfg, facts, symbol, m, u, m'[u], ids);
    }
    MoreVenuesOk(cfg, facts, symbol, m, m', ids);
  }

  lemma {:induction false} OkSound(cfg: ShardConfig, facts: Facts, symbol: Text, m: VenueMap, ids: set<Uuid>)
    requires VenuesOk(cfg, facts, symbol, m, ids)
    ensures VenuesSound(cfg, symbol, m, ids)
  {}

  lemma {:induction false} OkNames(cfg: ShardConfig, facts: Facts, symbol: Text, m: VenueMap, ids: set<Uuid>)
    requires VenuesOk(cfg, facts, symbol, m, ids)
    ensures forall u :: u in m ==> u != []
  {}

  /** Creating the configured venues' books on first use. */
  lemma {:induction false} VenueBooksOk(cfg: ShardConfig, facts: Facts, symbol: Text, m: VenueMap, ids: set<Uuid>)
    requires VenuesOk(cfg, facts, symbol, m, ids) && ProperConfig(cfg)
    ensures var m' := VenueBooks(cfg, symbol, m);
      && VenuesOk(cfg, facts, symbol, m', ids) && (forall u :: SeqAt(m', u) == SeqAt(m, u))
      && (forall v, id :: v in m' ==> RestOf(m'[v], id) == if v in m then RestOf(m[v], id) else 0)
  {
    hide VenuesOk, RestOf, NewBook, BookSound, VenueReady;
    var m' := VenueBooks(cfg, symbol, m);
    NamesProper(cfg.venues);
    OkSound(cfg, facts, symbol, m, ids);
    OkNames(cfg, facts, symbol, m, ids);
    VenueBooksSound(cfg, symbol, m, ids);
    forall u | u in m'
      ensures VenueReady(cfg, facts, symbol, m, u, m'[u])
    {
      ReadyAt(cfg, facts, symbol, m, u, m'[u], ids);
    }
    MoreVenuesOk(cfg, facts, symbol, m, m', ids);
  }

  ghost predicate NewIsEmpty(facts: Facts, symbol: Text, b: FlatBook)
  {
    BookTrue(facts, symbol, b) && (forall id :: RestOf(b, id) == 0) && b.bookSeq == 0
  }

  lemma {:induction false} EmptyNewBook(cfg: ShardConfig, facts: Facts, symbol: Text, v: Text)
    ensures NewIsEmpty(facts, symbol, NewBook(cfg, symbol, v))
  {}

  lemma {:induction false} OneAmongMore(m: VenueMap, m': VenueMap)
    requires OnePlace(m) && forall v, id :: v in m' && RestOf(m'[v], id) > 0 ==> v in m && RestOf(m[v], id) > 0
    ensures OnePlace(m')
  {
    hide RestOf;
  }

  /** The remainder comes to rest, if at all, at one venue and for no more than it is reported to. */
  ghost predicate RestsAsTold(m: VenueMap, o: Order, p: Placed)
  {
    RestsWithin(m, o.id, if p.disposition == Rested then p.remaining else 0)
  }

  ghost predicate RestsWithin(m: VenueMap, id: Uuid, bound: int)
  {
    forall v :: v in m ==> 0 <= RestOf(m[v], id) <= bound
  }

  /** The placement of an order that traded and rested as it was told. */
  ghost predicate PlacedOk(cfg: ShardConfig, facts: Facts, m: Inbound, before: VenueMap, p: Placed, ids: set<Uuid>)
    requires m.OrderAccepted?
  {
    TradedOk(cfg, facts, m.symbol, before, p.books, OrderOf(m), p.fills, ids) && RestsAsTold(p.books, OrderOf(m), p)
  }

  lemma {:induction false} RestTrades(cfg: ShardConfig, facts: Facts, m: Inbound, before: VenueMap, ex: Executed,
      ids: set<Uuid>)
    requires m.OrderAccepted? && Proper(m) && m.order in ids && ProperConfig(cfg)
    requires OrderTrue(facts, m.symbol, OrderOf(m))
    requires TradedOk(cfg, facts, m.symbol, before, ex.books, OrderOf(m), ex.fills, ids) && Absent(ex.books, m.order)
    requires 0 <= FilledQty(ex.fills) <= m.qty
    ensures PlacedOk(cfg, facts, m, before, PlaceRest(cfg, m, OrderOf(m), ex), ids)
  {
    hide PlacedOk, TradedOk, OrderTrue, FilledQty, PlaceRest, Absent, ProperConfig;
    var remaining := m.qty - FilledQty(ex.fills);
    if remaining != 0 && m.typ == Limit && m.tif == GTC {
      HostPlaced(cfg, facts, m, before, ex, ids);
    } else {
      NothingPlaced(cfg, facts, m, before, ex, ids);
    }
  }

  lemma {:induction false} NothingPlaced(cfg: ShardConfig, facts: Facts, m: Inbound, before: VenueMap, ex: Executed,
      ids: set<Uuid>)
    requires m.OrderAccepted? && Absent(ex.books, m.order)
    requires TradedOk(cfg, facts, m.symbol, before, ex.books, OrderOf(m), ex.fills, ids)
    requires m.qty == FilledQty(ex.fills) || m.typ != Limit || m.tif != GTC
    ensures PlacedOk(cfg, facts, m, before, PlaceRest(cfg, m, OrderOf(m), ex), ids)
  {
    PlaceRestIs(cfg, m, ex);
    AbsentWithin(ex.books, m.order);
    hide TradedOk, FilledQty, PlaceRest, Absent, RestsWithin;
  }

  lemma {:induction false} HostPlaced(cfg: ShardConfig, facts: Facts, m: Inbound, before: VenueMap, ex: Executed,
      ids: set<Uuid>)
    requires m.OrderAccepted? && Proper(m) && m.order in ids && ProperConfig(cfg)
    requires OrderTrue(facts, m.symbol, OrderOf(m))
    requires TradedOk(cfg, facts, m.symbol, before, ex.books, OrderOf(m), ex.fills, ids) && Absent(ex.books, m.order)
    requires FilledQty(ex.fills) < m.qty && m.typ == Limit && m.tif == GTC
    ensures PlacedOk(cfg, facts, m, before, PlaceRest(cfg, m, OrderOf(m), ex), ids)
  {
    hide Submit, TradedOk, OrderTrue, FilledQty, Absent, RestsWithin, ProperConfig, NewBook, PlaceRest;
    PlaceRestIs(cfg, m, ex);
    HostTrades(cfg, facts, m, before, ex, ids, HostVenue(cfg, m.venue, ex.books), m.qty - FilledQty(ex.fills));
  }

  lemma {:induction false} AbsentWithin(m: VenueMap, id: Uuid)
    requires Absent(m, id)
    ensures RestsWithin(m, id, 0)
  {
    hide RestOf;
  }

  /** The remainder as it is submitted to its host. */
  function RemainderOf(m: Inbound, ex: Executed): Order
    requires m.OrderAccepted?
  {
    var remaining := m.qty - FilledQty(ex.fills);
    OrderOf(m).(qty := remaining, remaining := remaining)
  }

  lemma {:induction false} RemainderFits(m: Inbound, ex: Executed)
    requires m.OrderAccepted? && Proper(m) && FilledQty(ex.fills) < m.qty
    ensures Submittable(RemainderOf(m, ex)) && RemainderOf(m, ex).remaining > 0 && RemainderOf(m, ex).id == m.order
  {
    hide FilledQty;
  }

  lemma {:induction false} HostPlacement(cfg: ShardConfig, m: Inbound, ex: Executed, host: Text,
      s: (FlatBook, SubmitResult))
    requires m.OrderAccepted? && FilledQty(ex.fills) != m.qty && m.typ == Limit && m.tif == GTC
    requires host == HostVenue(cfg, m.venue, ex.books)
    requires s == Submit(HostBook(cfg, m.symbol, host, ex.books), RemainderOf(m, ex))
    ensures var p := PlaceRest(cfg, m, OrderOf(m), ex);
      p.books == ex.books[host := s.0] && p.fills == ex.fills + s.1.fills
  {
    hide Submit, NewBook, FilledQty;
  }

  lemma {:induction false} PlaceRestIs(cfg: ShardConfig, m: Inbound, ex: Executed)
    requires m.OrderAccepted?
    ensures var p, remaining := PlaceRest(cfg, m, OrderOf(m), ex), m.qty - FilledQty(ex.fills);
      if remaining != 0 && m.typ == Limit && m.tif == GTC then
        var host := HostVenue(cfg, m.venue, ex.books);
        var (b', r) := Submit(HostBook(cfg, m.symbol, host, ex.books),
          OrderOf(m).(qty := remaining, remaining := remaining));
        p.books == ex.books[host := b'] && p.fills == ex.fills + r.fills
          && p.remaining == remaining - FilledQty(r.fills)
        && (p.disposition == Rested <==> p.remaining > 0)
      else p.books == ex.books && p.fills == ex.fills && p.disposition != Rested
  {
    hide Submit, ShardCancelReason, NewBook, FilledQty;
  }

  /** The remainder submitted to its host. */
  lemma {:induction false} HostTrades(cfg: ShardConfig, facts: Facts, m: Inbound, before: VenueMap, ex: Executed,
      ids: set<Uuid>, host: Text, remaining: int)
    requires m.OrderAccepted? && Proper(m) && m.order in ids && ProperConfig(cfg)
    requires OrderTrue(facts, m.symbol, OrderOf(m))
    requires TradedOk(cfg, facts, m.symbol, before, ex.books, OrderOf(m), ex.fills, ids) && Absent(ex.books, m.order)
    requires remaining > 0 && host == HostVenue(cfg, m.venue, ex.books) && m.typ == Limit && m.tif == GTC
    ensures var (b', r) :=
      Submit(HostBook(cfg, m.symbol, host, ex.books), OrderOf(m).(qty := remaining, remaining := remaining));
      && TradedOk(cfg, facts, m.symbol, before, ex.books[host := b'], OrderOf(m), ex.fills + r.fills, ids)
      && RestsWithin(ex.books[host := b'], m.order, Max(0, remaining - FilledQty(r.fills)))
  {
    hide Submit, VenuesOk, FillsTrue, Minted, OrderTrue, MakerQty, RestOf, NewBook, FilledQty;
    var o := OrderOf(m);
    var rest := o.(qty := remaining, remaining := remaining);
    var m1 := HostReady(cfg, facts, m, ex.books, host, ids);
    assert OrderTrue(facts, m.symbol, rest) by { RemainderTrue(facts, m.symbol, o, remaining); }
    SubmitAt(cfg, facts, m.symbol, m1, host, rest, ids);
    var (b', r) := Submit(m1[host], rest);
    assert m1[host := b'] == ex.books[host := b'];
    SameFillsTrue(facts, m.symbol, o, rest, r.fills);
    FillsTrueJoin(facts, m.symbol, o, ex.fills, r.fills);
    SameSeqMints(cfg.shard, m.symbol, ex.books, m1, m1[host := b'], r.fills);
    MintedJoin(cfg.shard, m.symbol, before, ex.books, m1[host := b'], ex.fills, r.fills);
    MakerSplit(ex.fills, r.fills, o.id);
  }

  lemma {:induction false} RemainderTrue(facts: Facts, symbol: Text, o: Order, n: int)
    requires OrderTrue(facts, symbol, o)
    ensures OrderTrue(facts, symbol, o.(qty := n, remaining := n))
  {}

  lemma {:induction false} SameSeqMints(shard: int, symbol: Text, x: VenueMap, y: VenueMap, z: VenueMap,
      fills: seq<Fill>)
    requires Minted(shard, symbol, y, z, fills) && forall u :: SeqAt(y, u) == SeqAt(x, u)
    ensures Minted(shard, symbol, x, z, fills)
  {}

  lemma {:induction false} HostReady(cfg: ShardConfig, facts: Facts, m: Inbound, books: VenueMap, host: Text,
      ids: set<Uuid>) returns (m1: VenueMap)
    requires m.OrderAccepted? && ProperConfig(cfg) && VenuesOk(cfg, facts, m.symbol, books, ids)
    requires Absent(books, m.order)
    requires host == HostVenue(cfg, m.venue, books)
    ensures m1 == books[host := HostBook(cfg, m.symbol, host, books)]
    ensures VenuesOk(cfg, facts, m.symbol, m1, ids) && Absent(m1, m.order)
    ensures forall u :: SeqAt(m1, u) == SeqAt(books, u)
  {
    m1 := books[host := HostBook(cfg, m.symbol, host, books)];
    if host in books {
      assert m1 == books;
    } else {
      assert host != [] by { if cfg.venues != [] { assert cfg.venues[0].name != []; } }
      NewBookOk(cfg, facts, m.symbol, books, host, ids);
      hide RestOf, NewBook;
    }
  }

  /** The routed part of a placement. */
  lemma {:induction false} PlaceRouted(cfg: ShardConfig, facts: Facts, m: Inbound, books: VenueMap, ids: set<Uuid>)
      returns (steps: seq<Step>, ex: Executed)
    requires m.OrderAccepted? && Proper(m) && m.order in ids && OrderTrue(facts, m.symbol, OrderOf(m))
    requires VenuesOk(cfg, facts, m.symbol, books, ids) && Absent(books, m.order)
    ensures steps == Route(OrderOf(m), books, cfg.venues, cfg.collarBps)
    ensures StepsAmong(steps, books.Keys) && StepsPositive(steps) && ex == Execute(books, OrderOf(m), steps)
    ensures Place(cfg, m, books) == PlaceRest(cfg, m, OrderOf(m), ex) && 0 <= FilledQty(ex.fills) <= m.qty
    ensures TradedOk(cfg, facts, m.symbol, books, ex.books, OrderOf(m), ex.fills, ids)
    ensures VenuesOk(cfg, facts, m.symbol, ex.books, ids)
    ensures Absent(ex.books, m.order)
  {
    var o := OrderOf(m);
    OkSound(cfg, facts, m.symbol, books, ids);
    RouteNamesBooks(o, books, cfg.venues, cfg.collarBps);
    PlanWithinOrder(o, books, cfg.venues, cfg.collarBps);
    steps := Route(o, books, cfg.venues, cfg.collarBps);
    hide OrderTrue, VenuesOk, FilledQty, PlaceRest, Absent, Execute, Route, FillsTrue, Minted, MakerQty;
    ex := Execute(books, o, steps);
    ExecuteTrades(cfg, facts, m.symbol, books, o, steps, ids);
    ExecuteSound(cfg, m.symbol, books, o, steps, ids);
  }

  /** A new order placed: it trades with accepted orders under fresh identities and rests at one venue at most. */
  lemma {:induction false} PlaceTrades(cfg: ShardConfig, facts: Facts, m: Inbound, books: VenueMap, ids: set<Uuid>)
    requires m.OrderAccepted? && Proper(m) && m.order in ids && ProperConfig(cfg)
    requires OrderTrue(facts, m.symbol, OrderOf(m))
    requires VenuesOk(cfg, facts, m.symbol, books, ids) && Absent(books, m.order)
    ensures PlacedOk(cfg, facts, m, books, Place(cfg, m, books), ids)
  {
    hide PlacedOk, TradedOk, OrderTrue, VenuesOk, FilledQty, PlaceRest, Absent, ProperConfig, Execute, Place;
    var steps, ex := PlaceRouted(cfg, facts, m, books, ids);
    RestTrades(cfg, facts, m, books, ex, ids);
  }

  /** What an order takes from a resting one and what still rests there stay within what rested before. */
  ghost predicate TakesWithin(p: Placed, id: Uuid, bound: int)
  {
    0 <= MakerQty(p.fills, id) <= bound && AtMost(p.books, id, bound - MakerQty(p.fills, id))
  }

  lemma {:induction false} PlaceBounds(cfg: ShardConfig, facts: Facts, m: Inbound, books: VenueMap, ids: set<Uuid>,
      id: Uuid, bound: nat)
    requires m.OrderAccepted? && Proper(m) && m.order in ids && ProperConfig(cfg)
    requires OrderTrue(facts, m.symbol, OrderOf(m))
    requires VenuesOk(cfg, facts, m.symbol, books, ids) && Absent(books, m.order) && id != m.order
    requires AtMost(books, id, bound)
    ensures TakesWithin(Place(cfg, m, books), id, bound)
  {
    hide TakesWithin, TradedOk, OrderTrue, VenuesOk, FilledQty, PlaceRest, Absent, ProperConfig, Execute, Place, AtMost,
      MakerQty;
    var steps, ex := PlaceRouted(cfg, facts, m, books, ids);
    ExecuteBounds(cfg, facts, m.symbol, books, OrderOf(m), steps, ids, id, bound);
    if FilledQty(ex.fills) < m.qty && m.typ == Limit && m.tif == GTC {
      HostBounds(cfg, facts, m, ex, ids, id, bound);
    } else {
      NothingMore(cfg, m, ex, id, bound);
    }
  }

  lemma {:induction false} NothingMore(cfg: ShardConfig, m: Inbound, ex: Executed, id: Uuid, bound: nat)
    requires m.OrderAccepted? && (m.qty == FilledQty(ex.fills) || m.typ != Limit || m.tif != GTC)
    requires 0 <= MakerQty(ex.fills, id) <= bound && AtMost(ex.books, id, bound - MakerQty(ex.fills, id))
    ensures TakesWithin(PlaceRest(cfg, m, OrderOf(m), ex), id, bound)
  {
    PlaceRestIs(cfg, m, ex);
    hide FilledQty, PlaceRest, AtMost, MakerQty;
  }

  lemma {:induction false} HostBounds(cfg: ShardConfig, facts: Facts, m: Inbound, ex: Executed, ids: set<Uuid>,
      id: Uuid, bound: nat)
    requires m.OrderAccepted? && Proper(m) && m.order in ids && ProperConfig(cfg)
    requires VenuesOk(cfg, facts, m.symbol, ex.books, ids)
    requires Absent(ex.books, m.order) && FilledQty(ex.fills) < m.qty && m.typ == Limit && m.tif == GTC
    requires id != m.order && 0 <= MakerQty(ex.fills, id) <= bound
    requires AtMost(ex.books, id, bound - MakerQty(ex.fills, id))
    ensures TakesWithin(PlaceRest(cfg, m, OrderOf(m), ex), id, bound)
  {
    hide FilledQty, PlaceRest, AtMost, MakerQty, VenuesOk, Submit, RestOf, NewBook, Absent, ProperConfig, HostBook,
      HostVenue, TakesWithin, RemainderOf,
      Submittable, Proper, OrderOf;
    var host, rest := HostVenue(cfg, m.venue, ex.books), RemainderOf(m, ex);
    RemainderFits(m, ex);
    var b', r := HostTakes(cfg, facts, m, ex.books, host, rest, ids, id, bound - MakerQty(ex.fills, id));
    HostCompose(cfg, m, ex, host, b', r, id, bound);
  }

  lemma {:induction false} HostCompose(cfg: ShardConfig, m: Inbound, ex: Executed, host: Text, b': FlatBook,
      r: SubmitResult, id: Uuid, bound: int)
    requires m.OrderAccepted? && FilledQty(ex.fills) < m.qty && m.typ == Limit && m.tif == GTC
    requires host == HostVenue(cfg, m.venue, ex.books)
    requires (b', r) == Submit(HostBook(cfg, m.symbol, host, ex.books), RemainderOf(m, ex))
    requires 0 <= MakerQty(ex.fills, id) && 0 <= MakerQty(r.fills, id) <= bound - MakerQty(ex.fills, id)
    requires AtMost(ex.books[host := b'], id, bound - MakerQty(ex.fills, id) - MakerQty(r.fills, id))
    ensures TakesWithin(PlaceRest(cfg, m, OrderOf(m), ex), id, bound)
  {
    hide FilledQty, PlaceRest, AtMost, MakerQty, Submit, HostBook, HostVenue, TakesWithin, RemainderOf;
    HostPlacement(cfg, m, ex, host, (b', r));
    TakesCompose(PlaceRest(cfg, m, OrderOf(m), ex), ex.fills, r.fills, id, bound);
  }

  /** The remainder at its host, against one resting order. */
  lemma {:induction false} HostTakes(cfg: ShardConfig, facts: Facts, m: Inbound, books: VenueMap, host: Text,
      rest: Order, ids: set<Uuid>, id: Uuid, left: nat)
    returns (b': FlatBook, r: SubmitResult)
    requires m.OrderAccepted? && ProperConfig(cfg) && VenuesOk(cfg, facts, m.symbol, books, ids)
    requires Absent(books, m.order)
    requires host == HostVenue(cfg, m.venue, books) && rest.id == m.order && Submittable(rest) && rest.remaining > 0
    requires id != m.order && AtMost(books, id, left)
    ensures (b', r) == Submit(HostBook(cfg, m.symbol, host, books), rest)
    ensures 0 <= MakerQty(r.fills, id) <= left && AtMost(books[host := b'], id, left - MakerQty(r.fills, id))
  {
    hide AtMost, MakerQty, VenuesOk, Submit, RestOf, NewBook, Absent, ProperConfig, HostBook, HostVenue, VenuesSound,
      OnePlace, Submittable;
    var m1 := HostReady(cfg, facts, m, books, host, ids);
    HostAtMost(cfg, facts, m, books, host, ids, id, left);
    OkSound(cfg, facts, m.symbol, m1, ids);
    OkOne(cfg, facts, m.symbol, m1, ids);
    SubmitBounds(cfg, m.symbol, m1, host, rest, ids, id, left);
    var res := Submit(m1[host], rest);
    b', r := res.0, res.1;
    assert m1[host := b'] == books[host := b'];
  }

  lemma {:induction false} TakesCompose(p: Placed, f: seq<Fill>, g: seq<Fill>, id: Uuid, bound: int)
    requires p.fills == f + g && 0 <= MakerQty(f, id) && 0 <= MakerQty(g, id) <= bound - MakerQty(f, id)
    requires AtMost(p.books, id, bound - MakerQty(f, id) - MakerQty(g, id))
    ensures TakesWithin(p, id, bound)
  {
    hide AtMost, MakerQty;
    MakerSplit(f, g, id);
  }

  lemma {:induction false} OkOne(cfg: ShardConfig, facts: Facts, symbol: Text, m: VenueMap, ids: set<Uuid>)
    requires VenuesOk(cfg, facts, symbol, m, ids)
    ensures OnePlace(m)
  {}

  lemma {:induction false} HostAtMost(cfg: ShardConfig, facts: Facts, m: Inbound, books: VenueMap, host: Text,
      ids: set<Uuid>, id: Uuid, bound: nat)
    requires m.OrderAccepted? && ProperConfig(cfg) && VenuesOk(cfg, facts, m.symbol, books, ids)
    requires host == HostVenue(cfg, m.venue, books) && AtMost(books, id, bound)
    ensures AtMost(books[host := HostBook(cfg, m.symbol, host, books)], id, bound)
  {
    if host !in books {
      assert host != [] by { if cfg.venues != [] { assert cfg.venues[0].name != []; } }
      NewBookOk(cfg, facts, m.symbol, books, host, ids);
    }
    hide RestOf, NewBook;
  }

  // ---- cancelling ------------------------------------------------------------------------------------------

  lemma {:induction false} WithoutRests(q: seq<Order>, i: nat, id: Uuid)
    requires i < |q|
    ensures RestSum(Without(q, i), id) == RestSum(q, id) - if q[i].id == id then q[i].remaining else 0
  {
    RestSplit(q[..i], q[i..], id);
    RestSplit(q[..i], q[i + 1..], id);
    assert q[..i] + q[i..] == q && q[i..][1..] == q[i + 1..];
  }

  /** A cancel removes the order it names and no other, or nothing when the book does not hold it. */
  lemma {:induction false} CancelTakes(b: FlatBook, id: Uuid, other: Uuid)
    requires b.Valid()
    ensures var (b', q) := Cancel(b, id);
      && RestOf(b', other) == (if other == id then 0 else RestOf(b, other))
      && (q.Some? <==> b.Live(id)) && b'.config == b.config && b'.bookSeq == b.bookSeq
  {
    CancelKeeps(b, id);
    RestIsLive(Cancel(b, id).0, id);
    RestIsLive(b, id);
    if HasId(b.bids, id) { WithoutRests(b.bids, IndexOf(b.bids, id), other); }
    else if HasId(b.asks, id) { WithoutRests(b.asks, IndexOf(b.asks, id), other); }
    hide FlatBook.Valid, RestSum;
  }

  lemma {:induction false} CancelTrue(facts: Facts, symbol: Text, b: FlatBook, id: Uuid)
    requires BookTrue(facts, symbol, b)
    ensures BookTrue(facts, symbol, Cancel(b, id).0)
  {
    hide OrderTrue;
  }

  /** The venues after one of them has given an order up. */
  lemma {:induction false} CancelAt(cfg: ShardConfig, facts: Facts, symbol: Text, m: VenueMap, v: Text, id: Uuid,
      ids: set<Uuid>)
    requires VenuesOk(cfg, facts, symbol, m, ids) && v in m
    ensures var m' := m[v := Cancel(m[v], id).0];
      && VenuesOk(cfg, facts, symbol, m', ids) && (forall u :: SeqAt(m', u) == SeqAt(m, u))
      && (forall u, other :: u in m ==> 0 <= RestOf(m'[u], other) <= RestOf(m[u], other))
      && (m[v].Live(id) ==> Absent(m', id))
  {
    hide Cancel, BookTrue, RestOf, FlatBook.Live, FlatBook.Valid, Books.KnownIds;
    var b, m' := m[v], m[v := Cancel(m[v], id).0];
    assert BookSound(cfg, symbol, v, b, ids);
    CancelBookSound(cfg, symbol, v, b, id, ids);
    CancelTrue(facts, symbol, b, id);
    CancelTakes(b, id, id);
    RestIsLive(b, id);
    forall u, other | u in m ensures 0 <= RestOf(m'[u], other) <= RestOf(m[u], other) {
      assert BookSound(cfg, symbol, u, m[u], ids);
      RestIsLive(m[u], other);
      CancelTakes(b, id, other);
    }
    hide BookSound;
    assert OnePlace(m') by { OnePlaceShrinks(m, m'); }
    assert NamedBooks(cfg, symbol, m');
    if b.Live(id) {
      forall u | u in m' ensures RestOf(m'[u], id) == 0 {
        assert RestOf(m[v], id) > 0;
        assert u != v ==> !(RestOf(m[u], id) > 0);
      }
    }
  }

  lemma {:induction false} OnePlaceShrinks(m: VenueMap, m': VenueMap)
    requires OnePlace(m) && m'.Keys == m.Keys && forall u, id :: u in m ==> RestOf(m'[u], id) <= RestOf(m[u], id)
    ensures OnePlace(m')
  {
    hide RestOf;
  }

  /** Asking the venues in turn: afterwards the order rests nowhere, and nothing else has changed. */
  lemma {:induction false} CancelEverywhere(cfg: ShardConfig, facts: Facts, symbol: Text, names: seq<Text>, m: VenueMap,
      id: Uuid, ids: set<Uuid>)
    requires VenuesOk(cfg, facts, symbol, m, ids) && forall i :: 0 <= i < |names| ==> names[i] in m
    ensures var m' := CancelFirst(names, m, id).0;
      && m'.Keys == m.Keys && VenuesOk(cfg, facts, symbol, m', ids) && (forall u :: SeqAt(m', u) == SeqAt(m, u))
      && (forall u, other :: u in m ==> 0 <= RestOf(m'[u], other) <= RestOf(m[u], other))
      && (forall i :: 0 <= i < |names| ==> RestOf(m'[names[i]], id) == 0)
    decreases |names|
  {
    hide Cancel, RestOf, VenuesOk, FlatBook.Live;
    forall u, other | u in m ensures RestOf(m[u], other) >= 0 { RestsSomething(cfg, facts, symbol, m, u, other, ids); }
    if names != [] {
      var v := names[0];
      LiveThere(cfg, facts, symbol, m, v, id, ids);
      if Cancel(m[v], id).1.Some? {
        CancelAt(cfg, facts, symbol, m, v, id, ids);
      } else {
        CancelEverywhere(cfg, facts, symbol, names[1..], m, id, ids);
        forall i | 0 <= i < |names| ensures RestOf(CancelFirst(names, m, id).0[names[i]], id) == 0 {
          if i > 0 { assert names[1..][i - 1] == names[i]; }
        }
      }
    }
  }

  lemma {:induction false} RestsSomething(cfg: ShardConfig, facts: Facts, symbol: Text, m: VenueMap, u: Text, id: Uuid,
      ids: set<Uuid>)
    requires VenuesOk(cfg, facts, symbol, m, ids) && u in m
    ensures RestOf(m[u], id) >= 0
  {
    hide RestOf;
    assert BookSound(cfg, symbol, u, m[u], ids);
    RestIsLive(m[u], id);
  }

  lemma {:induction false} LiveThere(cfg: ShardConfig, facts: Facts, symbol: Text, m: VenueMap, v: Text, id: Uuid,
      ids: set<Uuid>)
    requires VenuesOk(cfg, facts, symbol, m, ids) && v in m
    ensures (Cancel(m[v], id).1.Some? <==> m[v].Live(id)) && (!m[v].Live(id) ==> RestOf(m[v], id) == 0)
  {
    hide RestOf, Cancel;
    assert BookSound(cfg, symbol, v, m[v], ids);
    RestIsLive(m[v], id);
    CancelTakes(m[v], id, id);
  }
}
