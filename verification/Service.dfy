/** The matching service's per-partition state, updated in place: internal/matching/matching.go. */
module Service {
  import opened Types
  import opened Dedup
  import opened OrderBook
  import opened Router
  import opened Matching
  import Recovery
  import Books = BookRuns

  class Partition {
    const cfg: ShardConfig
    const snapshotEvery: int
    var books: map<Text, VenueMap>
    var ring: IdRing
    var next: nat
    var sinceSnap: nat

    ghost predicate Valid()
      reads this, ring, ring.slots
    {
      ring.Valid() && ring.slots.Length == cfg.dedupWindow
    }

    ghost function View(): Shard
      requires Valid()
      reads this, ring, ring.slots
    {
      Shard(books, ring.View())
    }

    constructor (cfg: ShardConfig, snapshotEvery: int)
      ensures Valid() && fresh(ring) && fresh(ring.slots) && this.cfg == cfg
      ensures View() == Fresh(cfg) && next == 0 && sinceSnap == 0
      ensures this.snapshotEvery == if snapshotEvery <= 0 then 500 else snapshotEvery
    {
      this.cfg := cfg;
      this.snapshotEvery := if snapshotEvery <= 0 then 500 else snapshotEvery;
      books := map[];
      ring := new IdRing(cfg.dedupWindow);
      next := 0;
      sinceSnap := 0;
    }

    /** `venueBooks`. */
    method EnsureVenues(symbol: Text) returns (m: VenueMap)
      modifies this`books
      ensures m == VenueBooks(cfg, symbol, At(old(books), symbol))
      ensures books == old(books)[symbol := m]
    {
      m := if symbol in books then books[symbol] else map[];
      ghost var before, done: set<Text> := m, {};
      var i := 0;
      while i < |cfg.venues|
        invariant 0 <= i <= |cfg.venues|
        invariant VenueNames(cfg.venues) == done + VenueNames(cfg.venues[i..]) && m.Keys == before.Keys + done
        invariant forall v :: v in m ==> m[v] == if v in before then before[v] else NewBook(cfg, symbol, v)
      {
        var name := cfg.venues[i].name;
        assert cfg.venues[i..][0].name == name && cfg.venues[i..][1..] == cfg.venues[i + 1..];
        if name !in m { m := m[name := NewBook(cfg, symbol, name)]; }
        done := done + {name};
        i := i + 1;
      }
      assert m == VenueBooks(cfg, symbol, before);
      books := books[symbol := m];
    }

    method OnOrder(m: Inbound) returns (outs: seq<Outcome>)
      requires Valid() && m.OrderAccepted? && m.order != NIL
      modifies this`books, ring, ring.slots
      ensures Valid() && ring == old(ring) && ring.slots == old(ring.slots)
      ensures (View(), outs) == Handle(cfg, old(View()), m)
    {
      hide Place, OutcomesOf, VenueBooks;
      var seen := ring.Seen(m.order);
      if seen { return []; }
      ring.Remember(m.order);
      var byVenue := EnsureVenues(m.symbol);
      var p := PlaceOrder(cfg, m, byVenue);
      books := books[m.symbol := p.books];
      assert books == old(books)[m.symbol := p.books];
      outs := Publish(m, p);
    }

    method OnCancel(m: Inbound) returns (outs: seq<Outcome>)
      requires Valid() && m.CancelRequested?
      modifies this`books
      ensures Valid() && (View(), outs) == Handle(cfg, old(View()), m)
    {
      hide VenueBooks, CancelIn;
      var byVenue := EnsureVenues(m.symbol);
      var left, removed := CancelAnywhere(byVenue, m.order);
      books := books[m.symbol := left];
      assert books == old(books)[m.symbol := left];
      outs := [VerdictOn(m, removed)];
    }

    method HandleOne(m: Inbound) returns (outs: seq<Outcome>)
      requires Valid() && Proper(m)
      modifies this`books, ring, ring.slots
      ensures Valid() && ring == old(ring) && ring.slots == old(ring.slots)
      ensures (View(), outs) == Handle(cfg, old(View()), m)
    {
      match m
      case OrderAccepted(_, _, _, _, _, _, _, _, _, _) => outs := OnOrder(m);
      case CancelRequested(_, _, _) => outs := OnCancel(m);
    }

    /** `PumpOnce` on one partition: a batch is handled in order, each record published before the position moves past
        it, and a snapshot is due once enough records went by. */
    method PumpOnce(log: seq<Inbound>, batch: nat) returns (produced: seq<seq<Outcome>>, due: bool)
      requires Valid() && AllProper(log) && next <= |log| && batch > 0
      modifies this, ring, ring.slots
      ensures Valid() && ring == old(ring) && ring.slots == old(ring.slots)
      ensures next == Min(|log|, old(next) + batch) && sinceSnap == old(sinceSnap) + (next - old(next))
      ensures View() == StateAfter(cfg, old(View()), log[old(next)..next])
      ensures produced == Answers(cfg, old(View()), log[old(next)..next])
      ensures due <==> sinceSnap >= snapshotEvery
    {
      hide Handle, AllProper, StateAfter, Answers;
      ghost var st, at := View(), next;
      var recs := log[next..Min(|log|, next + batch)];
      produced := [];
      var i := 0;
      NoneYet(cfg, st, recs[..0]);
      while i < |recs|
        invariant 0 <= i <= |recs| && Valid() && ring == old(ring) && ring.slots == old(ring.slots)
        invariant next == at + i && sinceSnap == old(sinceSnap) + i
        invariant View() == StateAfter(cfg, st, recs[..i]) && produced == Answers(cfg, st, recs[..i])
      {
        assert Proper(recs[i]) by { ProperAt(log, at + i); }
        var outs := HandleOne(recs[i]);
        OneMore(cfg, st, recs, i);
        produced := produced + [outs];
        next := next + 1;
        sinceSnap := sinceSnap + 1;
        i := i + 1;
      }
      assert recs[..|recs|] == recs;
      due := sinceSnap >= snapshotEvery;
    }

    /** `snapshot`. */
    method Snapshot() returns (s: Recovery.ShardSnapshot)
      requires Valid()
      modifies this`sinceSnap
      ensures s == Recovery.TakeShard(View()) && sinceSnap == 0
    {
      hide Books.TakeSnapshot;
      s := map[];
      var left := books.Keys;
      while left != {}
        invariant left <= books.Keys && s.Keys == books.Keys - left && Valid()
        invariant forall k :: k in s ==> s[k] == Recovery.TakeVenues(books[k])
        decreases |left|
      {
        var symbol :| symbol in left;
        var m := SnapshotVenues(books[symbol]);
        s := s[symbol := m];
        left := left - {symbol};
      }
      sinceSnap := 0;
    }

    /** `Recover`: nothing of the old memory is used. */
    method Recover(offset: nat, snap: Recovery.ShardSnapshot)
      modifies this
      ensures Valid() && fresh(ring) && fresh(ring.slots)
      ensures View() == Recovery.LoadShard(cfg, snap) && next == offset && sinceSnap == 0
    {
      hide Recovery.LoadShard;
      ring := new IdRing(cfg.dedupWindow);
      books := LoadBooks(cfg, snap);
      next := offset;
      sinceSnap := 0;
      assert Recovery.LoadShard(cfg, snap) == Shard(books, Window(cfg.dedupWindow, [])) by { ShardLoaded(cfg, snap); }
    }
  }

  /** The books of a snapshot, symbol by symbol. */
  method LoadBooks(cfg: ShardConfig, snap: Recovery.ShardSnapshot) returns (books: map<Text, VenueMap>)
    ensures books == Recovery.LoadShard(cfg, snap).books
  {
    hide Recovery.LoadVenues, Recovery.LoadShard;
    books := map[];
    var left := snap.Keys;
    while left != {}
      invariant left <= snap.Keys
      invariant forall k :: k in books <==> k in snap && k !in left && snap[k] != map[]
      invariant forall k :: k in books ==> books[k] == Recovery.LoadVenues(cfg, k, snap[k])
      decreases |left|
    {
      var symbol :| symbol in left;
      var m := LoadVenues(cfg, symbol, snap[symbol]);
      if m != map[] {
        books := books[symbol := m];
      }
      LoadedKeys(cfg, symbol, snap[symbol]);
      left := left - {symbol};
    }
    IsLoaded(cfg, snap, books);
  }

  /** The venues asked in order of name, until one gives the order up. */
  method CancelAnywhere(books: VenueMap, id: Uuid) returns (m: VenueMap, removed: Option<int>)
    ensures (m, removed) == CancelIn(books, id)
  {
    hide Cancel;
    var names := SortedNames(books);
    ListedIn(books);
    m, removed := books, None;
    var i := 0;
    ghost var want := CancelIn(books, id);
    assert names[0..] == names;
    while i < |names| && removed.None?
      invariant 0 <= i <= |names| && forall k :: 0 <= k < |names| ==> names[k] in books
      invariant removed.None? ==> m == books && want == CancelFirst(names[i..], books, id)
      invariant removed.Some? ==> want == (m, removed)
      decreases |names| - i, removed.None?
    {
      assert names[i..][0] == names[i] && names[i..][1..] == names[i + 1..];
      var (b, q) := Cancel(books[names[i]], id);
      if q.Some? {
        m := books[names[i] := b];
        removed := q;
      } else {
        i := i + 1;
      }
    }
  }

  /** What a shard says to each record of a log in turn. */
  ghost function Answers(cfg: ShardConfig, st: Shard, log: seq<Inbound>): seq<seq<Outcome>>
    decreases |log|
  {
    if log == [] then []
    else Answers(cfg, st, log[..|log| - 1]) + [Handle(cfg, StateAfter(cfg, st, log[..|log| - 1]), log[|log| - 1]).1]
  }

  lemma {:induction false} NoneYet(cfg: ShardConfig, st: Shard, log: seq<Inbound>)
    requires log == []
    ensures StateAfter(cfg, st, log) == st && Answers(cfg, st, log) == []
  {}

  lemma {:induction false} OneMore(cfg: ShardConfig, st: Shard, log: seq<Inbound>, i: nat)
    requires i < |log|
    ensures StateAfter(cfg, st, log[..i + 1]) == Handle(cfg, StateAfter(cfg, st, log[..i]), log[i]).0
    ensures Answers(cfg, st, log[..i + 1]) ==
      Answers(cfg, st, log[..i]) + [Handle(cfg, StateAfter(cfg, st, log[..i]), log[i]).1]
  {
    hide Handle;
    assert log[..i + 1][..i] == log[..i] && log[..i + 1][i] == log[i];
  }

  lemma {:induction false} IsLoaded(cfg: ShardConfig, snap: Recovery.ShardSnapshot, books: map<Text, VenueMap>)
    requires forall k :: k in books <==> k in snap && snap[k] != map[]
    requires forall k :: k in books ==> books[k] == Recovery.LoadVenues(cfg, k, snap[k])
    ensures books == Recovery.LoadShard(cfg, snap).books
  {
    hide Recovery.LoadVenues;
  }

  lemma {:induction false} ShardLoaded(cfg: ShardConfig, snap: Recovery.ShardSnapshot)
    ensures Recovery.LoadShard(cfg, snap).seen == Window(cfg.dedupWindow, [])
  {}

  lemma {:induction false} LoadedKeys(cfg: ShardConfig, symbol: Text, s: Recovery.VenueSnapshots)
    ensures Recovery.LoadVenues(cfg, symbol, s) == map[] <==> s == map[]
  {
    hide Books.LoadSnapshot, NewBook;
    assert Recovery.LoadVenues(cfg, symbol, s).Keys == s.Keys;
    assert s == map[] <==> s.Keys == {};
  }

  lemma {:induction false} ProperAt(log: seq<Inbound>, k: nat)
    requires AllProper(log) && k < |log|
    ensures Proper(log[k])
  {}

  method SnapshotVenues(m: VenueMap) returns (s: Recovery.VenueSnapshots)
    ensures s == Recovery.TakeVenues(m)
  {
    hide Books.TakeSnapshot;
    s := map[];
    var left := m.Keys;
    while left != {}
      invariant left <= m.Keys && s.Keys == m.Keys - left
      invariant forall v :: v in s ==> s[v] == Books.TakeSnapshot(m[v])
      decreases |left|
    {
      var v :| v in left;
      s := s[v := Books.TakeSnapshot(m[v])];
      left := left - {v};
    }
  }

  method LoadVenues(cfg: ShardConfig, symbol: Text, s: Recovery.VenueSnapshots) returns (m: VenueMap)
    ensures m == Recovery.LoadVenues(cfg, symbol, s)
  {
    hide Books.LoadSnapshot, NewBook;
    m := map[];
    var left := s.Keys;
    while left != {}
      invariant left <= s.Keys && m.Keys == s.Keys - left
      invariant forall v :: v in m ==>
        m[v] == (var b := NewBook(cfg, symbol, v); Books.LoadSnapshot(b.config, b.dedup.limit, s[v]))
      decreases |left|
    {
      var v :| v in left;
      var b := NewBook(cfg, symbol, v);
      m := m[v := Books.LoadSnapshot(b.config, b.dedup.limit, s[v])];
      left := left - {v};
    }
  }

  method Sum(fills: seq<Fill>) returns (qty: int)
    ensures qty == FilledQty(fills)
  {
    qty := 0;
    var i := 0;
    while i < |fills|
      invariant 0 <= i <= |fills| && qty + FilledQty(fills[i..]) == FilledQty(fills)
    {
      assert fills[i..][1..] == fills[i + 1..];
      qty := qty + fills[i].qty;
      i := i + 1;
    }
  }

  /** The routed slices of an order, one venue after another. */
  method RunSlices(o: Order, books: VenueMap, plan: seq<Step>) returns (ex: Executed)
    requires StepsAmong(plan, books.Keys)
    ensures ex == Execute(books, o, plan)
  {
    hide Submit;
    ex := Executed(books, []);
    var i := 0;
    while i < |plan|
      invariant 0 <= i <= |plan| && ex.books.Keys == books.Keys
      invariant var rest := Execute(ex.books, o, plan[i..]);
        Execute(books, o, plan) == Executed(rest.books, ex.fills + rest.fills)
    {
      var v := plan[i].venue;
      assert plan[i..][0] == plan[i] && plan[i..][1..] == plan[i + 1..];
      var (b, r) := Submit(ex.books[v], Slice(o, plan[i].qty));
      ghost var rest := Execute(ex.books[v := b], o, plan[i + 1..]);
      assert ex.fills + (r.fills + rest.fills) == (ex.fills + r.fills) + rest.fills;
      ex := Executed(ex.books[v := b], ex.fills + r.fills);
      i := i + 1;
    }
  }

  method ReasonFor(o: Order, books: VenueMap) returns (reason: Reason)
    ensures reason == ShardCancelReason(o, books)
  {
    if o.typ != Market { return IocRemainder; }
    var left := books.Keys;
    while left != {}
      invariant left <= books.Keys && forall v :: v in books && v !in left ==> books[v].Queue(o.side.Opposite()) == []
      decreases |left|
    {
      var v :| v in left;
      var levels := Depth(books[v].Queue(o.side.Opposite()), 1);
      ShowsSomething(books[v].Queue(o.side.Opposite()));
      if levels != [] { return CollarBreach; }
      left := left - {v};
    }
    reason := BookExhausted;
  }

  lemma {:induction false} ShowsSomething(q: seq<Order>)
    ensures Depth(q, 1) != [] <==> q != []
  {
    if q != [] { assert Grouped(q) != []; }
  }

  /** `onOrder` between suppression and publishing. */
  method PlaceOrder(cfg: ShardConfig, m: Inbound, books: VenueMap) returns (p: Placed)
    requires m.OrderAccepted?
    ensures p == Place(cfg, m, books)
  {
    hide Submit, Route, Execute, ShardCancelReason, NewBook;
    var o := OrderOf(m);
    RouteNamesBooks(o, books, cfg.venues, cfg.collarBps);
    var plan := ComputeRoute(o, books, cfg.venues, cfg.collarBps);
    var ex := RunSlices(o, books, plan);
    var filled := Sum(ex.fills);
    var remaining := o.qty - filled;
    if remaining == 0 {
      p := Placed(ex.books, ex.fills, Complete, 0, NoReason);
    } else if o.typ == Limit && o.tif == GTC {
      var venue := m.venue;
      if venue !in ex.books { venue := PrimaryVenue(cfg); }
      var byVenue := ex.books;
      if venue !in byVenue { byVenue := byVenue[venue := NewBook(cfg, m.symbol, venue)]; }
      var (b, r) := Submit(byVenue[venue], o.(qty := remaining, remaining := remaining));
      var more := Sum(r.fills);
      remaining := remaining - more;
      assert byVenue[venue := b] == ex.books[venue := b];
      p := Placed(byVenue[venue := b], ex.fills + r.fills, if remaining > 0 then Rested
        else Complete, remaining, NoReason);
    } else {
      var reason := ReasonFor(o, ex.books);
      p := Placed(ex.books, ex.fills, Cancelled, remaining, reason);
    }
  }

  /** Both halves of every fill, taker first, and the disposition last. */
  method Publish(m: Inbound, p: Placed) returns (outs: seq<Outcome>)
    requires m.OrderAccepted?
    ensures outs == OutcomesOf(m, p)
  {
    hide HalfOf;
    outs := [];
    var i := 0;
    while i < |p.fills|
      invariant 0 <= i <= |p.fills| && outs + HalvesOf(p.fills[i..], m.symbol) == HalvesOf(p.fills, m.symbol)
    {
      assert p.fills[i..][1..] == p.fills[i + 1..];
      outs := outs + [HalfOf(p.fills[i], m.symbol, Taker), HalfOf(p.fills[i], m.symbol, Maker)];
      i := i + 1;
    }
    outs := outs + [Verdict(m.account, m.order, m.symbol, p.disposition, p.remaining, p.reason)];
  }
}
