/** Crash recovery of the matching engine (internal/matching/matching.go, Recover, PumpOnce, snapshot): snapshots, torn
    produces and restarts against one inbound partition, observed on one partition of the outcome topic. */
module Recovery {
  import opened Types
  import opened Dedup
  import opened OrderBook
  import opened Router
  import opened Matching
  import opened Extremes
  import opened Repeats
  import Texts
  import Books = BookRuns

  // ---- shards that differ only in what they remember from before a checkpoint -----------------------

  ghost predicate VenuesAlike(a: VenueMap, b: VenueMap, past: set<Uuid>)
  {
    a.Keys == b.Keys && forall v :: v in a ==> Books.Alike(a[v], b[v], past)
  }

  ghost predicate BooksAlike(a: map<Text, VenueMap>, b: map<Text, VenueMap>, past: set<Uuid>)
  {
    forall s :: VenuesAlike(At(a, s), At(b, s), past)
  }

  ghost predicate ShardsAlike(a: Shard, b: Shard, past: set<Uuid>)
  {
    BooksAlike(a.books, b.books, past) && AgreeSince(a.seen, b.seen, past)
  }

  lemma {:induction false} OffersAlike(names: seq<Text>, a: VenueMap, b: VenueMap, side: Side, venues: seq<Venue>,
      depth: nat, past: set<Uuid>)
    requires VenuesAlike(a, b, past) && forall i :: 0 <= i < |names| ==> names[i] in a
    ensures OffersOver(names, a, side, venues, depth) == OffersOver(names, b, side, venues, depth)
  {
    hide QuotesOf, Depth, Latency, AgreeSince;
    if names != [] {
      assert Books.Alike(a[names[0]], b[names[0]], past);
      OffersAlike(names[1..], a, b, side, venues, depth, past);
    }
  }

  lemma {:induction false} RouteAlike(o: Order, a: VenueMap, b: VenueMap, venues: seq<Venue>, collarBps: int,
      past: set<Uuid>)
    requires VenuesAlike(a, b, past)
    ensures Route(o, a, venues, collarBps) == Route(o, b, venues, collarBps)
  {
    hide Books.Alike, OffersOver, SortQuotes, PlanOver, StepsOf;
    ListedIn(a);
    OffersAlike(Texts.Listed(a.Keys), a, b, o.side, venues, DEPTH, past);
  }

  lemma {:induction false} ExecuteAlike(o: Order, a: VenueMap, b: VenueMap, steps: seq<Step>, past: set<Uuid>)
    requires VenuesAlike(a, b, past) && o.id !in past && StepsAmong(steps, a.Keys)
    ensures Execute(a, o, steps).fills == Execute(b, o, steps).fills
    ensures VenuesAlike(Execute(a, o, steps).books, Execute(b, o, steps).books, past)
    decreases |steps|
  {
    hide Submit, Books.Alike;
    if steps != [] {
      var v, s := steps[0].venue, Slice(o, steps[0].qty);
      Books.SubmitAlike(a[v], b[v], past, s);
      ExecuteAlike(o, a[v := Submit(a[v], s).0], b[v := Submit(b[v], s).0], steps[1..], past);
    }
  }

  lemma {:induction false} NewBookAlike(cfg: ShardConfig, symbol: Text, v: Text, past: set<Uuid>)
    ensures Books.Alike(NewBook(cfg, symbol, v), NewBook(cfg, symbol, v), past)
  {
    assert Joined([], past, [], []);
    assert TailSince([], past, []);
  }

  lemma {:induction false} VenueBooksAlike(cfg: ShardConfig, symbol: Text, a: VenueMap, b: VenueMap, past: set<Uuid>)
    requires VenuesAlike(a, b, past)
    ensures VenuesAlike(VenueBooks(cfg, symbol, a), VenueBooks(cfg, symbol, b), past)
  {
    hide Books.Alike, NewBook;
    forall v | v in VenueBooks(cfg, symbol, a)
      ensures Books.Alike(VenueBooks(cfg, symbol, a)[v], VenueBooks(cfg, symbol, b)[v], past)
    {
      NewBookAlike(cfg, symbol, v, past);
    }
  }

  lemma {:induction false} ReasonAlike(o: Order, a: VenueMap, b: VenueMap, past: set<Uuid>)
    requires VenuesAlike(a, b, past)
    ensures ShardCancelReason(o, a) == ShardCancelReason(o, b)
  {
    hide AgreeSince;
    assert forall v :: v in a ==>
      Books.Alike(a[v], b[v], past) && a[v].Queue(o.side.Opposite()) == b[v].Queue(o.side.Opposite());
  }

  lemma {:induction false} PlaceRestAlike(cfg: ShardConfig, m: Inbound, x: Executed, y: Executed, past: set<Uuid>)
    requires m.OrderAccepted? && m.order !in past && x.fills == y.fills && VenuesAlike(x.books, y.books, past)
    ensures var p, q := PlaceRest(cfg, m, OrderOf(m), x), PlaceRest(cfg, m, OrderOf(m), y);
      p == q.(books := p.books) && VenuesAlike(p.books, q.books, past)
  {
    hide Submit, Books.Alike, ShardCancelReason, NewBook, FilledQty;
    var o, remaining := OrderOf(m), m.qty - FilledQty(x.fills);
    if o.typ == Limit && o.tif == GTC {
      var host := HostVenue(cfg, m.venue, x.books);
      NewBookAlike(cfg, m.symbol, host, past);
      Books.SubmitAlike(HostBook(cfg, m.symbol, host, x.books), HostBook(cfg, m.symbol, host, y.books), past,
                        o.(qty := remaining, remaining := remaining));
    } else {
      ReasonAlike(o, x.books, y.books, past);
    }
  }

  lemma {:induction false} CancelAlike(names: seq<Text>, a: VenueMap, b: VenueMap, id: Uuid, past: set<Uuid>)
    requires VenuesAlike(a, b, past) && forall i :: 0 <= i < |names| ==> names[i] in a
    ensures CancelFirst(names, a, id).1 == CancelFirst(names, b, id).1
    ensures VenuesAlike(CancelFirst(names, a, id).0, CancelFirst(names, b, id).0, past)
    decreases |names|
  {
    hide Cancel, Books.Alike;
    if names != [] {
      Books.ApplyAlike(a[names[0]], b[names[0]], past, Books.CancelOp(id));
      CancelAlike(names[1..], a, b, id, past);
    }
  }

  lemma {:induction false} PlaceAlike(cfg: ShardConfig, m: Inbound, x: VenueMap, y: VenueMap, past: set<Uuid>)
    requires m.OrderAccepted? && m.order !in past && VenuesAlike(x, y, past)
    ensures OutcomesOf(m, Place(cfg, m, x)) == OutcomesOf(m, Place(cfg, m, y))
    ensures VenuesAlike(Place(cfg, m, x).books, Place(cfg, m, y).books, past)
  {
    hide VenuesAlike, PlaceRest, Route, Execute, HalvesOf;
    var o := OrderOf(m);
    RouteAlike(o, x, y, cfg.venues, cfg.collarBps, past);
    RouteNamesBooks(o, x, cfg.venues, cfg.collarBps);
    RouteNamesBooks(o, y, cfg.venues, cfg.collarBps);
    var steps := Route(o, x, cfg.venues, cfg.collarBps);
    ExecuteAlike(o, x, y, steps, past);
    PlaceRestAlike(cfg, m, Execute(x, o, steps), Execute(y, o, steps), past);
  }

  /** One record, handled by two shards that differ only in what they remember from before a checkpoint, has the same
      outcomes, provided it does not bring back an order id from before that checkpoint. */
  lemma {:induction false} HandleAlike(cfg: ShardConfig, a: Shard, b: Shard, m: Inbound, past: set<Uuid>)
    requires ShardsAlike(a, b, past) && (m.OrderAccepted? ==> m.order !in past)
    ensures Handle(cfg, a, m).1 == Handle(cfg, b, m).1
    ensures ShardsAlike(Handle(cfg, a, m).0, Handle(cfg, b, m).0, past)
  {
    hide VenuesAlike, AgreeSince, VenueBooks, Place, CancelFirst, OutcomesOf;
    assert VenuesAlike(At(a.books, m.symbol), At(b.books, m.symbol), past);
    var x, y := VenueBooks(cfg, m.symbol, At(a.books, m.symbol)), VenueBooks(cfg, m.symbol, At(b.books, m.symbol));
    VenueBooksAlike(cfg, m.symbol, At(a.books, m.symbol), At(b.books, m.symbol), past);
    if m.OrderAccepted? {
      PushAgree(a.seen, b.seen, past, m.order);
      PlaceAlike(cfg, m, x, y, past);
      WithSymbolAlike(a.books, b.books, m.symbol, Place(cfg, m, x).books, Place(cfg, m, y).books, past);
    } else {
      ListedIn(x);
      assert x.Keys == y.Keys by { SameKeys(x, y, past); }
      CancelAlike(Texts.Listed(x.Keys), x, y, m.order, past);
      WithSymbolAlike(a.books, b.books, m.symbol, CancelIn(x, m.order).0, CancelIn(y, m.order).0, past);
    }
  }

  lemma {:induction false} WithSymbolAlike(a: map<Text, VenueMap>, b: map<Text, VenueMap>, symbol: Text, x: VenueMap,
      y: VenueMap, past: set<Uuid>)
    requires VenuesAlike(x, y, past) && BooksAlike(a, b, past)
    ensures BooksAlike(a[symbol := x], b[symbol := y], past)
  {
    hide VenuesAlike;
    var a', b' := a[symbol := x], b[symbol := y];
    forall s ensures VenuesAlike(At(a', s), At(b', s), past) { assert VenuesAlike(At(a, s), At(b, s), past); }
  }

  lemma {:induction false} SameKeys(a: VenueMap, b: VenueMap, past: set<Uuid>)
    requires VenuesAlike(a, b, past)
    ensures a.Keys == b.Keys
  {}

  // ---- snapshots -------------------------------------------------------------------------------------

  type VenueSnapshots = map<Text, Books.Snapshot>
  type ShardSnapshot = map<Text, VenueSnapshots>

  function TakeVenues(m: VenueMap): VenueSnapshots { map v | v in m :: Books.TakeSnapshot(m[v]) }

  function TakeShard(st: Shard): ShardSnapshot { map s | s in st.books :: TakeVenues(st.books[s]) }

  function LoadVenues(cfg: ShardConfig, symbol: Text, m: VenueSnapshots): VenueMap
  {
    map v | v in m :: var b := NewBook(cfg, symbol, v); Books.LoadSnapshot(b.config, b.dedup.limit, m[v])
  }

  /** `Recover`: the books come back, the suppression window does not; a symbol without venues is not recreated. */
  function LoadShard(cfg: ShardConfig, snap: ShardSnapshot): Shard
  {
    Shard(map s | s in snap && snap[s] != map[] :: LoadVenues(cfg, s, snap[s]), Window(cfg.dedupWindow, []))
  }

  ghost predicate SnapshotOf(snap: ShardSnapshot, st: Shard)
  {
    forall s :: (if s in snap then snap[s] else map[]) == TakeVenues(At(st.books, s))
  }

  lemma {:induction false} AlikeSnapshot(a: Shard, b: Shard, past: set<Uuid>)
    requires ShardsAlike(a, b, past)
    ensures SnapshotOf(TakeShard(b), a)
  {
    hide AgreeSince, Books.SortBySeq;
    forall s ensures TakeVenues(At(b.books, s)) == TakeVenues(At(a.books, s)) {
      assert VenuesAlike(At(a.books, s), At(b.books, s), past);
      var x, y := At(a.books, s), At(b.books, s);
      forall v | v in x
        ensures Books.TakeSnapshot(x[v]) == Books.TakeSnapshot(y[v])
      {
        assert Books.Alike(x[v], y[v], past);
      }
    }
    assert TakeVenues(map[]) == map[];
  }

  /** A recovered shard differs from the one that took the snapshot only in what it remembers of the past. */
  lemma {:induction false} LoadedAlike(cfg: ShardConfig, st: Shard, snap: ShardSnapshot, past: set<Uuid>)
    requires Sound(cfg, st, past) && SnapshotOf(snap, st)
    ensures ShardsAlike(st, LoadShard(cfg, snap), past)
  {
    hide Books.TakeSnapshot, Books.LoadSnapshot, BookSound, NewBook, Books.Alike, AgreeSince;
    var loaded := LoadShard(cfg, snap);
    forall s ensures VenuesAlike(At(st.books, s), At(loaded.books, s), past) {
      var x := At(st.books, s);
      assert (if s in snap then snap[s] else map[]) == TakeVenues(x);
      assert TakeVenues(x).Keys == x.Keys;
      if x == map[] { assert TakeVenues(x) == map[]; }
      assert At(loaded.books, s).Keys == x.Keys;
      forall v | v in x ensures Books.Alike(x[v], At(loaded.books, s)[v], past) {
        assert snap[s][v] == Books.TakeSnapshot(x[v]);
        LoadedBookAlike(cfg, s, v, x[v], past);
      }
    }
    SeenAgrees(st.seen, Window(cfg.dedupWindow, []), past);
  }

  lemma {:induction false} LoadedBookAlike(cfg: ShardConfig, symbol: Text, v: Text, b: FlatBook, past: set<Uuid>)
    requires BookSound(cfg, symbol, v, b, past)
    ensures var n := NewBook(cfg, symbol, v);
      Books.Alike(b, Books.LoadSnapshot(n.config, n.dedup.limit, Books.TakeSnapshot(b)), past)
  {
    hide Books.TakeSnapshot, Books.LoadSnapshot, FlatBook.Valid, Books.Alike, Books.KnownIds;
    Books.ReloadedAlike(b, past);
  }

  lemma {:induction false} SeenAgrees(a: Window, b: Window, past: set<Uuid>)
    requires a.Valid() && a.limit == b.limit && b.recent == [] && forall id :: id in a.recent ==> id in past
    ensures AgreeSince(a, b, past)
  {
    assert Joined(a.recent, past, a.recent, []);
    assert Joined(b.recent, past, [], []);
    assert TailSince(a.recent, past, []) && TailSince(b.recent, past, []);
  }

  // ---- the process and the topic ------------------------------------------------------------------

  /** An outcome together with the inbound offset it was produced for and its place among that record's outcomes. */
  datatype Tagged = Tagged(offset: nat, index: nat, outcome: Outcome)

  /** One account partition of the outcome topic and the way accounts are assigned to partitions. */
  datatype Lane = Lane(partitionOf: Uuid -> int, partition: int)

  datatype World = World(shard: Shard, next: nat, store: map<nat, ShardSnapshot>, out: seq<Tagged>)

  /** What can happen: a record is handled and published; it is handled but the produce is cut short by a crash; a
      snapshot is written, with or without the pruning that follows; the process dies and recovers. */
  datatype Event = Consume | Torn(produced: nat) | Checkpoint(prune: bool) | Crash

  function InLane(lane: Lane, outs: seq<Outcome>): seq<Outcome>
  {
    if outs == [] then []
    else (if lane.partitionOf(outs[0].account) == lane.partition then [outs[0]] else []) + InLane(lane, outs[1..])
  }

  function TagFrom(offset: nat, index: nat, outs: seq<Outcome>): (r: seq<Tagged>)
    ensures |r| == |outs| && forall i :: 0 <= i < |r| ==> r[i] == Tagged(offset, index + i, outs[i])
    decreases |outs|
  {
    if outs == [] then [] else [Tagged(offset, index, outs[0])] + TagFrom(offset, index + 1, outs[1..])
  }

  function Tag(lane: Lane, offset: nat, outs: seq<Outcome>): seq<Tagged> { TagFrom(offset, 0, InLane(lane, outs)) }

  const SNAPSHOTS_KEPT: nat := 3

  ghost function RecoveryOffset(w: World): nat { if w.store == map[] then 0 else Latest(w.store.Keys) }

  ghost function Recover(cfg: ShardConfig, w: World): World
  {
    if w.store == map[] then w.(shard := Fresh(cfg), next := 0)
    else w.(shard := LoadShard(cfg, w.store[Latest(w.store.Keys)]), next := Latest(w.store.Keys))
  }

  ghost function Next(cfg: ShardConfig, log: seq<Inbound>, lane: Lane, w: World, e: Event): World
  {
    match e
    case Consume =>
      if w.next >= |log| then w
      else
        var (st, outs) := Handle(cfg, w.shard, log[w.next]);
        w.(shard := st, next := w.next + 1, out := w.out + Tag(lane, w.next, outs))
    case Torn(k) =>
      if w.next >= |log| then w
      else
        var said := Tag(lane, w.next, Handle(cfg, w.shard, log[w.next]).1);
        Recover(cfg, w.(out := w.out + said[..Min(k, |said|)]))
    case Checkpoint(prune) =>
      var store := w.store[w.next := TakeShard(w.shard)];
      w.(store := if prune then KeepNewest(store, SNAPSHOTS_KEPT) else store)
    case Crash => Recover(cfg, w)
  }

  ghost function Start(cfg: ShardConfig): World { World(Fresh(cfg), 0, map[], []) }

  ghost function RunEvents(cfg: ShardConfig, log: seq<Inbound>, lane: Lane, events: seq<Event>): World
    decreases |events|
  {
    if events == [] then Start(cfg)
    else Next(cfg, log, lane, RunEvents(cfg, log, lane, events[..|events| - 1]), events[|events| - 1])
  }

  /** No order id accepted before an offset is accepted again after it. */
  ghost predicate Unrepeated(log: seq<Inbound>, s: nat)
  {
    forall i, j :: 0 <= i < s <= j < |log| && log[i].OrderAccepted? && log[j].OrderAccepted? ==>
      log[i].order != log[j].order
  }

  /** Every snapshot a run recovers from satisfies that. */
  ghost predicate Lawful(cfg: ShardConfig, log: seq<Inbound>, lane: Lane, events: seq<Event>)
    decreases |events|
  {
    events == [] ||
    var w := RunEvents(cfg, log, lane, events[..|events| - 1]);
    && Lawful(cfg, log, lane, events[..|events| - 1])
    && (events[|events| - 1].Crash? || events[|events| - 1].Torn? ==> Unrepeated(log, RecoveryOffset(w)))
  }

  // ---- the crash-free stream ---------------------------------------------------------------------

  /** Everything a run without crashes publishes for the records before an offset. */
  ghost function CrashFree(cfg: ShardConfig, log: seq<Inbound>, lane: Lane, k: nat): seq<Tagged>
    requires k <= |log|
  {
    if k == 0 then [] else CrashFree(cfg, log, lane, k - 1) + Tag(lane, k - 1, Said(cfg, log, k - 1))
  }

  lemma {:induction false} CrashFreeDistinct(cfg: ShardConfig, log: seq<Inbound>, lane: Lane, k: nat)
    requires k <= |log|
    ensures AllDistinct(CrashFree(cfg, log, lane, k))
    ensures forall i :: 0 <= i < |CrashFree(cfg, log, lane, k)| ==> CrashFree(cfg, log, lane, k)[i].offset < k
  {
    hide Said, InLane;
    if k > 0 { CrashFreeDistinct(cfg, log, lane, k - 1); }
  }

  lemma {:induction false} CrashFreeGrows(cfg: ShardConfig, log: seq<Inbound>, lane: Lane, j: nat, k: nat)
    requires j <= k <= |log|
    ensures CrashFree(cfg, log, lane, j) <= CrashFree(cfg, log, lane, k)
  {
    hide Said, Tag;
    if j < k { CrashFreeGrows(cfg, log, lane, j, k - 1); }
  }

  // ---- the invariant of every run ------------------------------------------------------------------

  ghost predicate Tracking(cfg: ShardConfig, log: seq<Inbound>, w: World, base: nat)
  {
    base <= w.next <= |log| && Unrepeated(log, base)
      && ShardsAlike(Reference(cfg, log, w.next), w.shard, IdsIn(log[..base]))
  }

  ghost predicate Stored(cfg: ShardConfig, log: seq<Inbound>, store: map<nat, ShardSnapshot>)
  {
    forall k :: k in store ==> k <= |log| && SnapshotOf(store[k], Reference(cfg, log, k))
  }

  ghost predicate Published(cfg: ShardConfig, log: seq<Inbound>, lane: Lane, w: World)
  {
    && w.next <= |log| && Deduped(w.out) <= CrashFree(cfg, log, lane, |log|)
    && |CrashFree(cfg, log, lane, w.next)| <= |Deduped(w.out)|
    && (forall k :: k in w.store ==> k <= |log| && |CrashFree(cfg, log, lane, k)| <= |Deduped(w.out)|)
  }

  ghost predicate Inv(cfg: ShardConfig, log: seq<Inbound>, lane: Lane, w: World)
  {
    (exists base: nat :: Tracking(cfg, log, w, base)) && Stored(cfg, log, w.store) && Published(cfg, log, lane, w)
  }

  lemma {:induction false} ReferenceStep(cfg: ShardConfig, log: seq<Inbound>, k: nat)
    requires k < |log|
    ensures Reference(cfg, log, k + 1) == Handle(cfg, Reference(cfg, log, k), log[k]).0
  {
    hide Handle;
    assert log[..k + 1][..k] == log[..k] && log[..k + 1][k] == log[k];
  }

  lemma {:induction false} NotFromBefore(log: seq<Inbound>, base: nat, k: nat)
    requires Unrepeated(log, base) && base <= k < |log| && log[k].OrderAccepted?
    ensures log[k].order !in IdsIn(log[..base])
  {
    forall i | 0 <= i < base && log[..base][i].OrderAccepted? ensures log[..base][i].order != log[k].order {
      assert log[..base][i] == log[i];
    }
  }

  /** Whatever the process handles next, it says what the crash-free process said. */
  lemma {:induction false} SaysTheSame(cfg: ShardConfig, log: seq<Inbound>, w: World, base: nat)
    requires Tracking(cfg, log, w, base) && w.next < |log|
    ensures Handle(cfg, w.shard, log[w.next]).1 == Said(cfg, log, w.next)
    ensures ShardsAlike(Reference(cfg, log, w.next + 1), Handle(cfg, w.shard, log[w.next]).0, IdsIn(log[..base]))
  {
    hide Handle, ShardsAlike;
    if log[w.next].OrderAccepted? { NotFromBefore(log, base, w.next); }
    ReferenceStep(cfg, log, w.next);
    HandleAlike(cfg, Reference(cfg, log, w.next), w.shard, log[w.next], IdsIn(log[..base]));
  }

  /** Publishing any leading part of a record's outcomes keeps the topic a deduplicated prefix of the crash-free one. */
  lemma {:induction false} PublishKeeps(cfg: ShardConfig, log: seq<Inbound>, lane: Lane, w: World, said: seq<Tagged>,
      n: nat)
    requires Published(cfg, log, lane, w) && w.next < |log| && said == Tag(lane, w.next, Said(cfg, log, w.next))
    requires n <= |said|
    ensures Published(cfg, log, lane, w.(out := w.out + said[..n]))
    ensures n == |said| ==> |CrashFree(cfg, log, lane, w.next + 1)| <= |Deduped(w.out + said[..n])|
  {
    var all, done := CrashFree(cfg, log, lane, |log|), CrashFree(cfg, log, lane, w.next);
    assert CrashFree(cfg, log, lane, w.next + 1) == done + said;
    hide Said, Tag, CrashFree;
    CrashFreeDistinct(cfg, log, lane, |log|);
    CrashFreeGrows(cfg, log, lane, w.next + 1, |log|);
    hide Deduped, AllDistinct;
    SegmentOut(all, done, said, w.out, n);
  }

  lemma {:induction false} SegmentOut(all: seq<Tagged>, done: seq<Tagged>, said: seq<Tagged>, out: seq<Tagged>, n: nat)
    requires AllDistinct(all) && done + said <= all && Deduped(out) <= all && |done| <= |Deduped(out)| && n <= |said|
    ensures Deduped(out + said[..n]) <= all && Max(|Deduped(out)|, |done| + n) == |Deduped(out + said[..n])|
  {
    hide AllDistinct, Deduped;
    assert all[|done|..|done| + n] == said[..n] by { assert all[..|done| + |said|] == done + said; }
    DedupSegment(all, out, |done|, |done| + n);
  }

  lemma {:induction false} RecoverKeeps(cfg: ShardConfig, log: seq<Inbound>, lane: Lane, w: World)
    requires AllProper(log) && Stored(cfg, log, w.store) && Published(cfg, log, lane, w)
    requires Unrepeated(log, RecoveryOffset(w))
    ensures Inv(cfg, log, lane, Recover(cfg, w))
  {
    var s := RecoveryOffset(w);
    var r := Recover(cfg, w);
    assert r == w.(shard := r.shard, next := s);
    assert Tracking(cfg, log, r, s) by {
      if w.store == map[] { TracksFromStart(cfg, log, r); } else {
        assert SnapshotOf(w.store[s], Reference(cfg, log, s)) by { hide SnapshotOf, Reference, Published; }
        TracksSnapshot(cfg, log, s, w.store[s], r);
      }
    }
    assert Published(cfg, log, lane, r) by { PublishedAt(cfg, log, lane, w, s); }
    hide Tracking, Stored, Recover, Published;
  }

  lemma {:induction false} PublishedAt(cfg: ShardConfig, log: seq<Inbound>, lane: Lane, w: World, s: nat)
    requires Published(cfg, log, lane, w) && (s == 0 || s in w.store)
    ensures forall shard :: Published(cfg, log, lane, w.(next := s, shard := shard))
  {
    assert CrashFree(cfg, log, lane, 0) == [];
    hide CrashFree, Deduped;
  }

  lemma {:induction false} TracksFromStart(cfg: ShardConfig, log: seq<Inbound>, r: World)
    requires r.shard == Fresh(cfg) && r.next == 0
    ensures Tracking(cfg, log, r, 0)
  {
    hide ShardsAlike, Handle;
    assert log[..0] == [];
    FreshAlike(cfg, IdsIn(log[..0]));
  }

  lemma {:induction false} TracksSnapshot(cfg: ShardConfig, log: seq<Inbound>, s: nat, snap: ShardSnapshot, r: World)
    requires AllProper(log) && s <= |log| && Unrepeated(log, s) && SnapshotOf(snap, Reference(cfg, log, s))
    requires r.shard == LoadShard(cfg, snap) && r.next == s
    ensures Tracking(cfg, log, r, s)
  {
    hide ShardsAlike, SnapshotOf, Sound, LoadShard, Unrepeated, StateAfter;
    assert AllProper(log[..s]) by { assert forall i :: 0 <= i < s ==> log[..s][i] == log[i]; }
    ReferenceSound(cfg, log[..s]);
    LoadedAlike(cfg, Reference(cfg, log, s), snap, IdsIn(log[..s]));
  }

  lemma {:induction false} FreshAlike(cfg: ShardConfig, past: set<Uuid>)
    ensures ShardsAlike(Fresh(cfg), Fresh(cfg), past)
  {
    SeenAgrees(Window(cfg.dedupWindow, []), Window(cfg.dedupWindow, []), past);
  }

  lemma {:induction false} NextKeeps(cfg: ShardConfig, log: seq<Inbound>, lane: Lane, w: World, e: Event)
    requires AllProper(log) && Inv(cfg, log, lane, w)
    requires e.Crash? || e.Torn? ==> Unrepeated(log, RecoveryOffset(w))
    ensures Inv(cfg, log, lane, Next(cfg, log, lane, w, e))
  {
    hide ShardsAlike, SnapshotOf, Handle, Tag, Deduped, Unrepeated, RecoveryOffset, CrashFree, Recover, Said, TakeShard,
      Reference, KeepNewest;
    var base: nat :| Tracking(cfg, log, w, base);
    var w' := Next(cfg, log, lane, w, e);
    match e {
      case Consume =>
        if w.next < |log| {
          SaysTheSame(cfg, log, w, base);
          var said := Tag(lane, w.next, Said(cfg, log, w.next));
          PublishKeeps(cfg, log, lane, w, said, |said|);
          assert said[..|said|] == said;
          assert Tracking(cfg, log, w', base);
        }
      case Torn(k) =>
        if w.next < |log| {
          SaysTheSame(cfg, log, w, base);
          var said := Tag(lane, w.next, Said(cfg, log, w.next));
          PublishKeeps(cfg, log, lane, w, said, Min(k, |said|));
          var torn := w.(out := w.out + said[..Min(k, |said|)]);
          assert RecoveryOffset(torn) == RecoveryOffset(w) by { SameStore(w, torn); }
          RecoverKeeps(cfg, log, lane, torn);
        }
      case Checkpoint(prune) =>
        AlikeSnapshot(Reference(cfg, log, w.next), w.shard, IdsIn(log[..base]));
        PruneKeepsLatest(w.store[w.next := TakeShard(w.shard)], SNAPSHOTS_KEPT);
        assert Tracking(cfg, log, w', base);
      case Crash =>
        RecoverKeeps(cfg, log, lane, w);
    }
  }

  lemma {:induction false} SameStore(a: World, b: World)
    requires a.store == b.store
    ensures RecoveryOffset(a) == RecoveryOffset(b)
  {}

  lemma {:induction false} RunKeepsInv(cfg: ShardConfig, log: seq<Inbound>, lane: Lane, events: seq<Event>)
    requires AllProper(log) && Lawful(cfg, log, lane, events)
    ensures Inv(cfg, log, lane, RunEvents(cfg, log, lane, events))
    decreases |events|
  {
    hide Inv, Next, Unrepeated;
    if events == [] { StartInv(cfg, log, lane); } else {
      RunKeepsInv(cfg, log, lane, events[..|events| - 1]);
      NextKeeps(cfg, log, lane, RunEvents(cfg, log, lane, events[..|events| - 1]), events[|events| - 1]);
    }
  }

  lemma {:induction false} StartInv(cfg: ShardConfig, log: seq<Inbound>, lane: Lane)
    ensures Inv(cfg, log, lane, Start(cfg))
  {
    hide ShardsAlike;
    assert log[..0] == [];
    FreshAlike(cfg, IdsIn(log[..0]));
    CrashFreeGrows(cfg, log, lane, 0, |log|);
    assert Tracking(cfg, log, Start(cfg), 0);
  }

  // ---- what a reader of the topic sees ----------------------------------------------------------------

  /** For any inbound log and any schedule of snapshots, torn produces and crashes, the topic without its repeats is the
      crash-free stream cut short, and holds at least what was produced for every record consumed so far. */
  lemma {:induction false} StreamIsCrashFreePrefix(cfg: ShardConfig, log: seq<Inbound>, lane: Lane, events: seq<Event>)
    requires AllProper(log) && Lawful(cfg, log, lane, events)
    ensures var w := RunEvents(cfg, log, lane, events);
      && w.next <= |log|
      && CrashFree(cfg, log, lane, w.next) <= Deduped(w.out) <= CrashFree(cfg, log, lane, |log|)
  {
    RunKeepsInv(cfg, log, lane, events);
    hide CrashFree, Deduped, Tracking, Stored, RunEvents;
    CrashFreeGrows(cfg, log, lane, RunEvents(cfg, log, lane, events).next, |log|);
  }

  /** Each outcome ever published for an inbound offset equals the one a crash-free run produces for it: same identity,
      price, quantity, disposition and verdict. */
  lemma {:induction false} RegeneratedOutcomesAreTheSame(cfg: ShardConfig, log: seq<Inbound>, lane: Lane,
      events: seq<Event>, i: nat)
    requires AllProper(log) && Lawful(cfg, log, lane, events) && i < |RunEvents(cfg, log, lane, events).out|
    ensures var t := RunEvents(cfg, log, lane, events).out[i];
      t.offset < |log| && t.index < |InLane(lane, Said(cfg, log, t.offset))|
        && t.outcome == InLane(lane, Said(cfg, log, t.offset))[t.index]
  {
    StreamIsCrashFreePrefix(cfg, log, lane, events);
    hide RunEvents, CrashFree, Deduped, Said, InLane, Lawful, AllProper;
    var w := RunEvents(cfg, log, lane, events);
    DedupedHas(w.out);
    var d := Deduped(w.out);
    assert w.out[i] in d;
    var k :| 0 <= k < |d| && d[k] == w.out[i];
    assert d[k] == CrashFree(cfg, log, lane, |log|)[k];
    CrashFreeSays(cfg, log, lane, |log|, k);
  }

  lemma {:induction false} CrashFreeSays(cfg: ShardConfig, log: seq<Inbound>, lane: Lane, n: nat, k: nat)
    requires n <= |log| && k < |CrashFree(cfg, log, lane, n)|
    ensures var t := CrashFree(cfg, log, lane, n)[k];
      t.offset < n && t.index < |InLane(lane, Said(cfg, log, t.offset))|
        && t.outcome == InLane(lane, Said(cfg, log, t.offset))[t.index]
  {
    hide Said, InLane;
    if k < |CrashFree(cfg, log, lane, n - 1)| { CrashFreeSays(cfg, log, lane, n - 1, k); }
  }

  // ---- the condition is needed --------------------------------------------------------------------

  /** An order that is handled is answered: there is always a verdict. */
  lemma {:induction false} AlwaysAnswered(cfg: ShardConfig, st: Shard, m: Inbound)
    requires m.OrderAccepted?
    ensures Handle(cfg, st, m).1 == [] <==> st.seen.Has(m.order)
  {
    hide Place, HalvesOf;
  }

  /** Two shards alike but for the past, the first still remembering whatever of the past is brought back: they answer
      an
      order alike exactly when the second remembers it too if the first does. */
  lemma {:induction false} SameAnswerIff(cfg: ShardConfig, a: Shard, b: Shard, m: Inbound, past: set<Uuid>)
    requires ShardsAlike(a, b, past) && m.OrderAccepted? && (m.order in past ==> a.seen.Has(m.order))
    ensures Handle(cfg, a, m).1 == Handle(cfg, b, m).1 <==> (a.seen.Has(m.order) ==> b.seen.Has(m.order))
  {
    hide Handle, BooksAlike, AgreeSince;
    AlwaysAnswered(cfg, a, m);
    AlwaysAnswered(cfg, b, m);
    if m.order !in past {
      HandleAlike(cfg, a, b, m, past);
    }
  }

  lemma {:induction false} NothingOffered(names: seq<Text>, books: VenueMap, side: Side, venues: seq<Venue>, depth: nat)
    requires forall i :: 0 <= i < |names| ==> names[i] in books && books[names[i]].Queue(side.Opposite()) == []
    ensures OffersOver(names, books, side, venues, depth) == []
  {
    if names != [] { NothingOffered(names[1..], books, side, venues, depth); }
  }

  ghost function EmptyVenues(cfg: ShardConfig, symbol: Text): VenueMap { VenueBooks(cfg, symbol, map[]) }

  /** With nothing resting anywhere, a limit IOC order is cancelled whole. */
  lemma {:induction false} NothingRests(cfg: ShardConfig, m: Inbound)
    requires m.OrderAccepted? && m.typ == Limit && m.tif == IOC && m.qty > 0
    ensures var books := EmptyVenues(cfg, m.symbol);
      Place(cfg, m, books) == Placed(books, [], Cancelled, m.qty, IocRemainder)
  {
    var books, o := EmptyVenues(cfg, m.symbol), OrderOf(m);
    ListedIn(books);
    hide VenueBooks;
    NothingOffered(Texts.Listed(books.Keys), books, o.side, cfg.venues, DEPTH);
    assert Offers(o, books, cfg.venues, DEPTH) == [];
    assert Route(o, books, cfg.venues, cfg.collarBps) == [];
  }

  /** The shard after that order: empty books, and the order remembered. */
  ghost function OnceAsked(cfg: ShardConfig, m: Inbound): Shard
  {
    Shard(map[m.symbol := EmptyVenues(cfg, m.symbol)], Window(cfg.dedupWindow, [m.order]))
  }

  function CancelledWhole(m: Inbound): Outcome
    requires m.OrderAccepted?
  {
    Verdict(m.account, m.order, m.symbol, Cancelled, m.qty, IocRemainder)
  }

  lemma {:induction false} Answered(cfg: ShardConfig, st: Shard, m: Inbound)
    requires m.OrderAccepted? && m.typ == Limit && m.tif == IOC && m.qty > 0 && cfg.dedupWindow > 0
    requires VenueBooks(cfg, m.symbol, At(st.books, m.symbol)) == EmptyVenues(cfg, m.symbol)
    requires st.seen == Window(cfg.dedupWindow, [])
    ensures Handle(cfg, st, m).1 == [CancelledWhole(m)]
    ensures st.books == map[] ==> Handle(cfg, st, m).0 == OnceAsked(cfg, m)
  {
    NothingRests(cfg, m);
    hide Place, VenueBooks;
    if st.books == map[] {
      assert st.books[m.symbol := EmptyVenues(cfg, m.symbol)] == map[m.symbol := EmptyVenues(cfg, m.symbol)];
    }
  }

  /** The books come back from the snapshot, the memory of the order does not. */
  lemma {:induction false} ReloadsForgetful(cfg: ShardConfig, m: Inbound)
    requires m.OrderAccepted?
    ensures var st := LoadShard(cfg, TakeShard(OnceAsked(cfg, m)));
      VenueBooks(cfg, m.symbol, At(st.books, m.symbol)) == EmptyVenues(cfg, m.symbol)
        && st.seen == Window(cfg.dedupWindow, [])
  {
    var empty := EmptyVenues(cfg, m.symbol);
    assert TakeShard(OnceAsked(cfg, m)) == map[m.symbol := TakeVenues(empty)];
    ReloadsVenues(cfg, m.symbol);
    LoadsOne(cfg, m.symbol, TakeVenues(empty));
    EmptyIs(cfg, m.symbol);
  }

  lemma {:induction false} LoadsOne(cfg: ShardConfig, symbol: Text, venues: VenueSnapshots)
    ensures var st := LoadShard(cfg, map[symbol := venues]);
      At(st.books, symbol) == LoadVenues(cfg, symbol, venues) && st.seen == Window(cfg.dedupWindow, [])
  {
    hide NewBook, Books.LoadSnapshot;
    if venues == map[] {
      assert LoadVenues(cfg, symbol, venues) == map[];
      assert LoadShard(cfg, map[symbol := venues]).books == map[];
    }
  }

  lemma {:induction false} EmptyIs(cfg: ShardConfig, symbol: Text)
    ensures VenueBooks(cfg, symbol, EmptyVenues(cfg, symbol)) == EmptyVenues(cfg, symbol)
  {
    hide NewBook;
  }

  lemma {:induction false} ReloadsVenues(cfg: ShardConfig, symbol: Text)
    ensures LoadVenues(cfg, symbol, TakeVenues(EmptyVenues(cfg, symbol))) == EmptyVenues(cfg, symbol)
  {
    hide NewBook, Books.LoadSnapshot, Books.TakeSnapshot;
    var empty := EmptyVenues(cfg, symbol);
    var r := LoadVenues(cfg, symbol, TakeVenues(empty));
    assert r.Keys == empty.Keys;
    forall v | v in empty ensures r[v] == empty[v] { ReloadsEmpty(cfg, symbol, v); }
  }

  lemma {:induction false} ReloadsEmpty(cfg: ShardConfig, symbol: Text, v: Text)
    ensures var b := NewBook(cfg, symbol, v); Books.LoadSnapshot(b.config, b.dedup.limit, Books.TakeSnapshot(b)) == b
  {
    var b := NewBook(cfg, symbol, v);
    assert Books.SortBySeq(b.bids + b.asks) == [];
  }

  /** The shard's window is not in the snapshot: whatever the venues, an order id repeated across the snapshot a crash
      recovers from is answered a second time, where a run without the crash says nothing. */
  lemma {:induction false} RepeatAcrossSnapshotIsAnswered(cfg: ShardConfig, m: Inbound, lane: Lane)
    requires m.OrderAccepted? && m.typ == Limit && m.tif == IOC && m.qty > 0 && m.order != NIL
    requires cfg.dedupWindow > 0 && lane.partitionOf(m.account) == lane.partition
    ensures var log, events := [m, m], [Consume, Checkpoint(true), Crash, Consume];
      && AllProper(log) && !Lawful(cfg, log, lane, events)
      && Said(cfg, log, 1) == []
      && RunEvents(cfg, log, lane, events).out == [Tagged(0, 0, CancelledWhole(m)), Tagged(1, 0, CancelledWhole(m))]
  {
    var log, events := [m, m], [Consume, Checkpoint(true), Crash, Consume];
    var once := OnceAsked(cfg, m);
    var w := World(once, 1, map[1 := TakeShard(once)], [Tagged(0, 0, CancelledWhole(m))]);
    assert AllProper(log);
    hide *;
    SecondTime(cfg, m);
    AnsweredAgain(cfg, m, lane, w);
    Unlawful(cfg, m, lane, w);
  }

  lemma {:induction false} Unlawful(cfg: ShardConfig, m: Inbound, lane: Lane, w: World)
    requires m.OrderAccepted? && m.typ == Limit && m.tif == IOC && m.qty > 0 && cfg.dedupWindow > 0
    requires lane.partitionOf(m.account) == lane.partition
    requires w == World(OnceAsked(cfg, m), 1, map[1 := TakeShard(OnceAsked(cfg, m))], [Tagged(0, 0, CancelledWhole(m))])
    ensures !Lawful(cfg, [m, m], lane, [Consume, Checkpoint(true), Crash, Consume])
  {
    var log, events := [m, m], [Consume, Checkpoint(true), Crash, Consume];
    hide *;
    FirstAnswer(cfg, m, lane);
    ThenLost(cfg, log, lane, [Consume], w.(store := map[]));
    assert events[..2] == [Consume] + [Checkpoint(true)];
    NewestIsOne(w);
    NotLawful(cfg, log, lane, events, w);
  }

  lemma {:induction false} AnsweredAgain(cfg: ShardConfig, m: Inbound, lane: Lane, w: World)
    requires m.OrderAccepted? && m.typ == Limit && m.tif == IOC && m.qty > 0 && cfg.dedupWindow > 0
    requires lane.partitionOf(m.account) == lane.partition
    requires w == World(OnceAsked(cfg, m), 1, map[1 := TakeShard(OnceAsked(cfg, m))], [Tagged(0, 0, CancelledWhole(m))])
    ensures RunEvents(cfg, [m, m], lane, [Consume, Checkpoint(true), Crash, Consume]).out ==
      w.out + [Tagged(1, 0, CancelledWhole(m))]
  {
    var log, events := [m, m], [Consume, Checkpoint(true), Crash, Consume];
    FirstAnswer(cfg, m, lane);
    ReloadsForgetful(cfg, m);
    ThenLost(cfg, log, lane, [Consume], w.(store := map[]));
    SecondAnswer(cfg, m, lane, LoadShard(cfg, w.store[1]), w);
    hide LoadShard, TakeShard, OnceAsked, Next, Handle, CancelledWhole, VenueBooks, EmptyVenues, InLane;
    assert events[..3] == [Consume] + [Checkpoint(true), Crash];
    assert RunEvents(cfg, log, lane, events) == Next(cfg, log, lane, RunEvents(cfg, log, lane, events[..3]), Consume);
  }

  /** The order comes in at a fresh shard. */
  lemma {:induction false} FirstAnswer(cfg: ShardConfig, m: Inbound, lane: Lane)
    requires m.OrderAccepted? && m.typ == Limit && m.tif == IOC && m.qty > 0 && cfg.dedupWindow > 0
    requires lane.partitionOf(m.account) == lane.partition
    ensures RunEvents(cfg, [m, m], lane, [Consume]) ==
      World(OnceAsked(cfg, m), 1, map[], [Tagged(0, 0, CancelledWhole(m))])
  {
    Answered(cfg, Fresh(cfg), m);
    OneInLane(lane, CancelledWhole(m));
    hide Handle, InLane, OnceAsked;
    assert [Consume][..0] == [];
    assert RunEvents(cfg, [m, m], lane, []) == Start(cfg);
  }

  /** Without a crash its copy is passed over. */
  lemma {:induction false} SecondTime(cfg: ShardConfig, m: Inbound)
    requires m.OrderAccepted? && m.typ == Limit && m.tif == IOC && m.qty > 0 && cfg.dedupWindow > 0
    ensures Said(cfg, [m, m], 1) == []
  {
    Answered(cfg, Fresh(cfg), m);
    AlwaysAnswered(cfg, OnceAsked(cfg, m), m);
    hide Handle;
    assert [m, m][..0] == [] && Reference(cfg, [m, m], 0) == Fresh(cfg);
    ReferenceStep(cfg, [m, m], 0);
  }

  /** A snapshot, then a crash. */
  lemma {:induction false} ThenLost(cfg: ShardConfig, log: seq<Inbound>, lane: Lane, events: seq<Event>, w: World)
    requires RunEvents(cfg, log, lane, events) == w && w.store == map[] && w.next == 1
    ensures var snap := TakeShard(w.shard);
      && RunEvents(cfg, log, lane, events + [Checkpoint(true)]) == w.(store := map[1 := snap])
      && RunEvents(cfg, log, lane, events + [Checkpoint(true), Crash]) ==
           w.(store := map[1 := snap], shard := LoadShard(cfg, snap))
  {
    var e1, e2 := events + [Checkpoint(true)], events + [Checkpoint(true), Crash];
    assert e1[..|e1| - 1] == events && e2[..|e2| - 1] == e1;
    KeepsOne(cfg, log, lane, w);
    LosesAll(cfg, log, lane, w.(store := map[1 := TakeShard(w.shard)]));
    hide Next, LoadShard, TakeShard;
  }

  lemma {:induction false} KeepsOne(cfg: ShardConfig, log: seq<Inbound>, lane: Lane, w: World)
    requires w.store == map[] && w.next == 1
    ensures Next(cfg, log, lane, w, Checkpoint(true)) == w.(store := map[1 := TakeShard(w.shard)])
  {
    StoredOnce(TakeShard(w.shard));
    hide TakeShard;
  }

  lemma {:induction false} LosesAll(cfg: ShardConfig, log: seq<Inbound>, lane: Lane, w: World)
    requires w.store.Keys == {1} && w.next == 1
    ensures Next(cfg, log, lane, w, Crash) == w.(shard := LoadShard(cfg, w.store[1]))
  {
    assert w.store != map[] by { assert 1 in w.store; }
    assert IsLatest({1}, Latest({1}));
    hide LoadShard;
  }

  /** The copy comes in at the shard that was reloaded. */
  lemma {:induction false} SecondAnswer(cfg: ShardConfig, m: Inbound, lane: Lane, st: Shard, w: World)
    requires m.OrderAccepted? && m.typ == Limit && m.tif == IOC && m.qty > 0 && cfg.dedupWindow > 0
    requires lane.partitionOf(m.account) == lane.partition && w.next == 1
    requires VenueBooks(cfg, m.symbol, At(st.books, m.symbol)) == EmptyVenues(cfg, m.symbol)
    requires st.seen == Window(cfg.dedupWindow, [])
    ensures Next(cfg, [m, m], lane, w.(shard := st), Consume).out == w.out + [Tagged(1, 0, CancelledWhole(m))]
  {
    Answered(cfg, st, m);
    OneInLane(lane, CancelledWhole(m));
    hide Handle, InLane, VenueBooks;
  }

  lemma {:induction false} OneInLane(lane: Lane, said: Outcome)
    requires lane.partitionOf(said.account) == lane.partition
    ensures InLane(lane, [said]) == [said]
  {
    assert [said][1..] == [];
  }

  lemma {:induction false} NotLawful(cfg: ShardConfig, log: seq<Inbound>, lane: Lane, events: seq<Event>, w: World)
    requires |log| == 2 && log[0].OrderAccepted? && log[0] == log[1] && |events| == 4 && events[2].Crash?
    requires RunEvents(cfg, log, lane, events[..2]) == w && RecoveryOffset(w) == 1
    ensures !Lawful(cfg, log, lane, events)
  {
    assert events[..3][..2] == events[..2] && events[..3][2] == events[2];
    assert !Unrepeated(log, 1);
    assert !Lawful(cfg, log, lane, events[..3]);
  }

  lemma {:induction false} NewestIsOne(w: World)
    requires w.store.Keys == {1}
    ensures RecoveryOffset(w) == 1
  {
    assert w.store != map[] by { assert 1 in w.store; }
    assert IsLatest({1}, Latest({1}));
  }

  lemma {:induction false} StoredOnce(snap: ShardSnapshot)
    ensures KeepNewest(map[1 := snap], SNAPSHOTS_KEPT) == map[1 := snap] && Latest({1}) == 1
    ensures var m: map<nat, ShardSnapshot> := map[]; m[1 := snap] == map[1 := snap] && (map[1 := snap]).Keys == {1}
  {
    var store: map<nat, ShardSnapshot> := map[1 := snap];
    assert (set j | j in store && j > 1) == {};
    assert IsLatest({1}, Latest({1}));
  }
}
