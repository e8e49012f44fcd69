/** The reconciler over partitions: internal/cluster/cluster.go, Reconcile and GlobalInvariants.OK, and the slice each
    partition contributes (internal/engine/invariants.go, ReconcileSlice). */
module Cluster {
  import opened Types
  import opened Ledger
  import opened Funding
  import opened Conservation

  /** One partition's aggregates, grouped as its queries group them. */
  datatype Slice = Slice(clearing: map<Text, int>, shares: map<Text, int>, cash: int, halves: map<FillId, int>)

  /** Units with a posting of the kind asked for. */
  function Units(txns: seq<Txn>, clearingOnly: bool): set<Text>
  {
    set i, j | 0 <= i < |txns| && 0 <= j < |txns[i].legs| && (clearingOnly ==> txns[i].legs[j].kind == ClearingAcct)
      :: txns[i].legs[j].symbol
  }

  function FillsIn(txns: seq<Txn>): set<FillId>
  {
    set i | 0 <= i < |txns| && txns[i].event.FillEvent? :: txns[i].event.fill
  }

  function SliceOf(txns: seq<Txn>): Slice
  {
    Slice(map u | u in Units(txns, true) :: Total(txns, ClearingIn(u)),
          map u | u in Units(txns, false) && u != [] :: Total(txns, PostedIn(u)),
          Total(txns, PostedIn([])),
          map f | f in FillsIn(txns) :: Total(txns, HalvesOf(f)))
  }

  function Get<K>(m: map<K, int>, k: K): int { if k in m then m[k] else 0 }

  datatype Global = Global(clearing: map<Text, int>, shares: map<Text, int>, cash: int, orphaned: set<FillId>,
    inFlight: nat)

  function SumClearing(parts: seq<Slice>, u: Text): int
  {
    if parts == [] then 0 else SumClearing(parts[..|parts| - 1], u) + Get(parts[|parts| - 1].clearing, u)
  }
  function SumShares(parts: seq<Slice>, u: Text): int
  {
    if parts == [] then 0 else SumShares(parts[..|parts| - 1], u) + Get(parts[|parts| - 1].shares, u)
  }
  function SumCash(parts: seq<Slice>): int
  {
    if parts == [] then 0 else SumCash(parts[..|parts| - 1]) + parts[|parts| - 1].cash
  }
  function SumHalves(parts: seq<Slice>, f: FillId): int
  {
    if parts == [] then 0 else SumHalves(parts[..|parts| - 1], f) + Get(parts[|parts| - 1].halves, f)
  }
  function Named(parts: seq<Slice>): set<FillId>
  {
    if parts == [] then {} else Named(parts[..|parts| - 1]) + parts[|parts| - 1].halves.Keys
  }

  /** r is total with the entries of part outside `left` added in. */
  ghost predicate Added<K(!new)>(total: map<K, int>, part: map<K, int>, left: set<K>, r: map<K, int>)
  {
    && (forall k :: k in r <==> k in total || (k in part && k !in left))
    && forall k :: k in r ==> r[k] == Get(total, k) + if k in left then 0 else Get(part, k)
  }

  lemma {:induction false} AddedOne<K(!new)>(total: map<K, int>, part: map<K, int>, left: set<K>, r: map<K, int>, k: K)
    requires Added(total, part, left, r) && k in left && k in part
    ensures Added(total, part, left - {k}, r[k := Get(r, k) + part[k]])
  {}

  lemma {:induction false} AddedAll<K(!new)>(total: map<K, int>, part: map<K, int>, r: map<K, int>)
    requires Added(total, part, {}, r)
    ensures r.Keys == total.Keys + part.Keys && forall k :: Get(r, k) == Get(total, k) + Get(part, k)
  {}

  /** Adding one partition's map into the running totals, key by key. */
  method AddInto<K(==, !new)>(total: map<K, int>, part: map<K, int>) returns (r: map<K, int>)
    ensures r.Keys == total.Keys + part.Keys
    ensures forall k :: Get(r, k) == Get(total, k) + Get(part, k)
  {
    r := total;
    var left := part.Keys;
    assert Added(total, part, left, r);
    hide Added, Get;
    while left != {}
      invariant left <= part.Keys && Added(total, part, left, r)
      decreases |left|
    {
      var k :| k in left;
      AddedOne(total, part, left, r, k);
      r := r[k := Get(r, k) + part[k]];
      left := left - {k};
    }
    AddedAll(total, part, r);
  }

  /** The loop over the partitions. */
  method Gather(parts: seq<Slice>)
      returns (clearing: map<Text, int>, shares: map<Text, int>, cash: int, halves: map<FillId, int>)
    ensures forall u :: Get(clearing, u) == SumClearing(parts, u)
    ensures forall u :: Get(shares, u) == SumShares(parts, u)
    ensures cash == SumCash(parts) && halves.Keys == Named(parts)
    ensures forall f :: Get(halves, f) == SumHalves(parts, f)
  {
    clearing, shares, cash, halves := map[], map[], 0, map[];
    var i := 0;
    while i < |parts|
      invariant 0 <= i <= |parts| && cash == SumCash(parts[..i]) && halves.Keys == Named(parts[..i])
      invariant forall u :: Get(clearing, u) == SumClearing(parts[..i], u)
      invariant forall u :: Get(shares, u) == SumShares(parts[..i], u)
      invariant forall f :: Get(halves, f) == SumHalves(parts[..i], f)
    {
      hide Get;
      assert parts[..i + 1][..i] == parts[..i] && parts[..i + 1][i] == parts[i];
      clearing := AddInto(clearing, parts[i].clearing);
      shares := AddInto(shares, parts[i].shares);
      cash := cash + parts[i].cash;
      halves := AddInto(halves, parts[i].halves);
      i := i + 1;
    }
    assert parts[..|parts|] == parts;
  }

  /** Fills without exactly two halves, by whether they may still be settling. */
  function Unsettled(halves: map<FillId, int>, recent: set<FillId>, young: bool): set<FillId>
  {
    set f | f in halves && halves[f] != 2 && (f in recent) == young
  }

  method Classify(halves: map<FillId, int>, recent: set<FillId>) returns (orphaned: set<FillId>, inFlight: nat)
    ensures orphaned == Unsettled(halves, recent, false) && inFlight == |Unsettled(halves, recent, true)|
  {
    orphaned, inFlight := {}, 0;
    ghost var young: set<FillId> := {};
    var left := halves.Keys;
    while left != {}
      invariant left <= halves.Keys && inFlight == |young|
      invariant orphaned == set f | f in Unsettled(halves, recent, false) && f !in left
      invariant young == set f | f in Unsettled(halves, recent, true) && f !in left
      decreases |left|
    {
      var f :| f in left;
      if halves[f] != 2 {
        if f in recent {
          inFlight := inFlight + 1;
          young := young + {f};
        } else {
          orphaned := orphaned + {f};
        }
      }
      left := left - {f};
    }
    assert young == Unsettled(halves, recent, true);
  }

  function Lost(parts: seq<Slice>, recent: set<FillId>, young: bool): set<FillId>
  {
    set f | f in Named(parts) && SumHalves(parts, f) != 2 && (f in recent) == young
  }

  /** `Reconcile`. Which unpaired fills are recent enough to be in flight depends on the clock, so it is an input. */
  method Reconcile(parts: seq<Slice>, recent: set<FillId>) returns (g: Global)
    ensures Reports(parts, recent, g)
  {
    var clearing, shares, cash, halves := Gather(parts);
    var orphaned, inFlight := Classify(halves, recent);
    assert forall f :: f in halves ==> halves[f] == Get(halves, f) == SumHalves(parts, f);
    assert forall young :: Unsettled(halves, recent, young) == Lost(parts, recent, young);
    g := Global(clearing, shares, cash, orphaned, inFlight);
  }

  /** `OK`, apart from the checks local to a partition. */
  predicate OK(g: Global)
  {
    g.orphaned == {} && g.cash == 0 && (forall u :: u in g.clearing ==> g.clearing[u] == 0)
    && forall u :: u in g.shares ==> g.shares[u] == 0
  }

  // ---- any assignment of accounts to partitions gives the same totals -------------------------------------

  /** The part of a ledger that lives in partition p under an assignment of accounts. */
  function Owned(txns: seq<Txn>, owner: Uuid -> int, p: int): seq<Txn>
  {
    if txns == [] then []
    else
      var rest, t := Owned(txns[..|txns| - 1], owner, p), txns[|txns| - 1];
      if owner(t.account) == p then rest + [t] else rest
  }

  function Slices(txns: seq<Txn>, owner: Uuid -> int, n: nat): seq<Slice>
  {
    if n == 0 then [] else Slices(txns, owner, n - 1) + [SliceOf(Owned(txns, owner, n - 1))]
  }

  /** What partitions below n hold of a total. */
  function Below(txns: seq<Txn>, owner: Uuid -> int, n: nat, m: Measure): int
  {
    if n == 0 then 0 else Below(txns, owner, n - 1, m) + Total(Owned(txns, owner, n - 1), m)
  }

  lemma {:induction false} OneMoreTxn(txns: seq<Txn>, owner: Uuid -> int, n: nat, m: Measure)
    requires txns != []
    ensures var t := txns[|txns| - 1];
      Below(txns, owner, n, m) == Below(txns[..|txns| - 1], owner, n, m) +
        if 0 <= owner(t.account) < n then Weigh(t, m) else 0
  {
    hide Weigh;
    if n > 0 {
      var t, rest := txns[|txns| - 1], Owned(txns[..|txns| - 1], owner, n - 1);
      OneMoreTxn(txns, owner, n - 1, m);
      assert (rest + [t])[..|rest|] == rest;
    }
  }

  lemma {:induction false} PartitionsAddUp(txns: seq<Txn>, owner: Uuid -> int, n: nat, m: Measure)
    requires forall i :: 0 <= i < |txns| ==> 0 <= owner(txns[i].account) < n
    ensures Below(txns, owner, n, m) == Total(txns, m)
  {
    hide Weigh;
    if txns == [] {
      NothingBelow(owner, n, m);
    } else {
      PartitionsAddUp(txns[..|txns| - 1], owner, n, m);
      OneMoreTxn(txns, owner, n, m);
    }
  }

  lemma {:induction false} NothingBelow(owner: Uuid -> int, n: nat, m: Measure)
    ensures Below([], owner, n, m) == 0
  {
    if n > 0 { NothingBelow(owner, n - 1, m); }
  }

  /** A unit or fill that a ledger never mentions totals zero, so leaving it out of a slice changes nothing. */
  lemma {:induction false} AbsentLegs(legs: seq<Leg>, m: Measure)
    requires match m
      case ClearingIn(u) => forall j :: 0 <= j < |legs| && legs[j].kind == ClearingAcct ==> legs[j].symbol != u
      case PostedIn(u) => forall j :: 0 <= j < |legs| ==> legs[j].symbol != u
      case HalvesOf(_) => true
    ensures LegTotal(legs, m) == 0
  {
    if legs != [] {
      assert forall j :: 0 <= j < |legs[1..]| ==> legs[1..][j] == legs[j + 1];
      AbsentLegs(legs[1..], m);
    }
  }

  ghost predicate Mentions(txns: seq<Txn>, m: Measure)
  {
    match m
    case ClearingIn(u) => u in Units(txns, true)
    case PostedIn(u) => u in Units(txns, false)
    case HalvesOf(f) => f in FillsIn(txns)
  }

  lemma {:induction false} AbsentTotal(txns: seq<Txn>, m: Measure)
    requires !Mentions(txns, m)
    ensures Total(txns, m) == 0
  {
    if txns != [] {
      var n := |txns| - 1;
      forall i | 0 <= i < n ensures txns[..n][i] == txns[i] {}
      NotMentionedBefore(txns, m);
      AbsentTotal(txns[..n], m);
      NotMentionedLast(txns, m);
    }
  }

  lemma {:induction false} NotMentionedBefore(txns: seq<Txn>, m: Measure)
    requires txns != [] && !Mentions(txns, m)
    ensures !Mentions(txns[..|txns| - 1], m)
  {
    var before := txns[..|txns| - 1];
    match m {
      case ClearingIn(u) =>
        forall i, j | 0 <= i < |before| && 0 <= j < |before[i].legs| && before[i].legs[j].kind == ClearingAcct
          ensures before[i].legs[j].symbol != u
        {
          assert before[i] == txns[i];
        }
      case PostedIn(u) =>
        forall i, j | 0 <= i < |before| && 0 <= j < |before[i].legs|
          ensures before[i].legs[j].symbol != u
        {
          assert before[i] == txns[i];
        }
      case HalvesOf(f) =>
        forall i | 0 <= i < |before| && before[i].event.FillEvent?
          ensures before[i].event.fill != f
        {
          assert before[i] == txns[i];
        }
    }
  }

  lemma {:induction false} NotMentionedLast(txns: seq<Txn>, m: Measure)
    requires txns != [] && !Mentions(txns, m)
    ensures Weigh(txns[|txns| - 1], m) == 0
  {
    var t := txns[|txns| - 1];
    if !m.HalvesOf? { AbsentLegs(t.legs, m); }
  }

  lemma {:induction false} SliceGets(txns: seq<Txn>)
    ensures forall u :: Get(SliceOf(txns).clearing, u) == Total(txns, ClearingIn(u))
    ensures forall u :: u != [] ==> Get(SliceOf(txns).shares, u) == Total(txns, PostedIn(u))
    ensures Get(SliceOf(txns).shares, []) == 0 && SliceOf(txns).cash == Total(txns, PostedIn([]))
    ensures forall f :: Get(SliceOf(txns).halves, f) == Total(txns, HalvesOf(f))
  {
    hide Total, Units, FillsIn;
    forall m ensures !Mentions(txns, m) ==> Total(txns, m) == 0 { if !Mentions(txns, m) { AbsentTotal(txns, m); } }
    forall u
      ensures Get(SliceOf(txns).clearing, u) == Total(txns, ClearingIn(u))
    {
      assert Mentions(txns, ClearingIn(u)) <==> u in Units(txns, true);
    }
    forall u | u != []
      ensures Get(SliceOf(txns).shares, u) == Total(txns, PostedIn(u))
    {
      assert Mentions(txns, PostedIn(u)) <==> u in Units(txns, false);
    }
    forall f
      ensures Get(SliceOf(txns).halves, f) == Total(txns, HalvesOf(f))
    {
      assert Mentions(txns, HalvesOf(f)) <==> f in FillsIn(txns);
    }
  }

  lemma {:induction false} SlicesAre(txns: seq<Txn>, owner: Uuid -> int, n: nat)
    ensures forall u :: SumClearing(Slices(txns, owner, n), u) == Below(txns, owner, n, ClearingIn(u))
    ensures forall u :: u != [] ==> SumShares(Slices(txns, owner, n), u) == Below(txns, owner, n, PostedIn(u))
    ensures SumCash(Slices(txns, owner, n)) == Below(txns, owner, n, PostedIn([]))
    ensures forall f :: SumHalves(Slices(txns, owner, n), f) == Below(txns, owner, n, HalvesOf(f))
  {
    hide SliceOf, Total;
    if n > 0 {
      SlicesAre(txns, owner, n - 1);
      SliceGets(Owned(txns, owner, n - 1));
      var before := Slices(txns, owner, n - 1);
      assert Slices(txns, owner, n)[..|Slices(txns, owner, n)| - 1] == before;
    }
  }

  /** However accounts are assigned to however many partitions, the reconciled sums are those of the whole ledger. */
  lemma {:induction false} ReconcileIsGlobal(txns: seq<Txn>, owner: Uuid -> int, n: nat)
    requires forall i :: 0 <= i < |txns| ==> 0 <= owner(txns[i].account) < n
    ensures var parts := Slices(txns, owner, n);
      && (forall u :: SumClearing(parts, u) == Total(txns, ClearingIn(u)))
      && (forall u :: u != [] ==> SumShares(parts, u) == Total(txns, PostedIn(u)))
      && SumCash(parts) == Total(txns, PostedIn([]))
      && forall f :: SumHalves(parts, f) == Total(txns, HalvesOf(f))
  {
    SlicesAre(txns, owner, n);
    hide Slices, Below, Total;
    forall m ensures Below(txns, owner, n, m) == Total(txns, m) { PartitionsAddUp(txns, owner, n, m); }
  }

  // ---- when a cluster is sound -----------------------------------------------------------------------------

  /** What each partition's own run contributes. */
  ghost function RunSlices(terms: Terms, runs: seq<seq<Action>>): seq<Slice>
    decreases |runs|
  {
    if runs == [] then [] else RunSlices(terms, runs[..|runs| - 1]) + [SliceOf(ActAll(terms, runs[|runs| - 1]).txns)]
  }

  /** What `Reconcile` reports of slices. */
  ghost predicate Reports(parts: seq<Slice>, recent: set<FillId>, g: Global)
  {
    && (forall u :: Get(g.clearing, u) == SumClearing(parts, u))
    && (forall u :: Get(g.shares, u) == SumShares(parts, u))
    && g.cash == SumCash(parts) && g.orphaned == Lost(parts, recent, false) && g.inFlight == |Lost(parts, recent, true)|
  }

  lemma {:induction false} TotalJoin(a: seq<Txn>, b: seq<Txn>, m: Measure)
    ensures Total(a + b, m) == Total(a, m) + Total(b, m)
    decreases |b|
  {
    hide Weigh;
    if b == [] { assert a + b == a; } else {
      assert (a + b)[..|a + b| - 1] == a + b[..|b| - 1];
      TotalJoin(a, b[..|b| - 1], m);
    }
  }

  lemma {:induction false} FillsJoin(a: seq<Txn>, b: seq<Txn>)
    ensures FillsIn(a + b) == FillsIn(a) + FillsIn(b)
  {
    var all := a + b;
    forall f ensures f in FillsIn(all) <==> f in FillsIn(a) || f in FillsIn(b) {
      if f in FillsIn(a) {
        var i :| 0 <= i < |a| && a[i].event.FillEvent? && a[i].event.fill == f;
        assert all[i] == a[i];
      }
      if f in FillsIn(b) {
        var i :| 0 <= i < |b| && b[i].event.FillEvent? && b[i].event.fill == f;
        assert all[|a| + i] == b[i];
      }
    }
  }

  lemma {:induction false} OneMoreSlice(parts: seq<Slice>, last: Slice)
    ensures forall u :: SumClearing(parts + [last], u) == SumClearing(parts, u) + Get(last.clearing, u)
    ensures forall u :: SumShares(parts + [last], u) == SumShares(parts, u) + Get(last.shares, u)
    ensures SumCash(parts + [last]) == SumCash(parts) + last.cash
    ensures forall f :: SumHalves(parts + [last], f) == SumHalves(parts, f) + Get(last.halves, f)
    ensures Named(parts + [last]) == Named(parts) + last.halves.Keys
  {
    hide Get;
    assert (parts + [last])[..|parts|] == parts;
  }

  lemma {:induction false} SliceFills(txns: seq<Txn>)
    ensures SliceOf(txns).halves.Keys == FillsIn(txns)
  {
    hide Total, Units, FillsIn;
  }

  /** The slices of the runs add up to the joint ledger. */
  lemma {:induction false} SlicesOfRuns(terms: Terms, runs: seq<seq<Action>>)
    ensures var parts, all := RunSlices(terms, runs), Joint(terms, runs);
      && (forall u :: SumClearing(parts, u) == Total(all, ClearingIn(u)))
      && (forall u :: SumShares(parts, u) == if u == [] then 0 else Total(all, PostedIn(u)))
      && SumCash(parts) == Total(all, PostedIn([]))
      && (forall f :: SumHalves(parts, f) == Total(all, HalvesOf(f)))
      && Named(parts) == FillsIn(all)
    decreases |runs|
  {
    hide SliceOf, Total, FillsIn, ActAll, Get;
    if runs == [] { NothingTotals(); } else {
      var n := |runs| - 1;
      var txns := ActAll(terms, runs[n]).txns;
      SlicesOfRuns(terms, runs[..n]);
      OneMoreSlice(RunSlices(terms, runs[..n]), SliceOf(txns));
      SliceGets(txns);
      SliceFills(txns);
      FillsJoin(Joint(terms, runs[..n]), txns);
      forall m ensures Total(Joint(terms, runs), m) == Total(Joint(terms, runs[..n]), m) + Total(txns, m) {
        TotalJoin(Joint(terms, runs[..n]), txns, m);
      }
    }
  }

  lemma {:induction false} NothingTotals()
    ensures forall m :: Total([], m) == 0
    ensures FillsIn([]) == {}
  {}

  lemma {:induction false} JointBalances(terms: Terms, runs: seq<seq<Action>>, market: map<FillId, Fill>, u: Text)
    requires forall p :: 0 <= p < |runs| ==> AllOfMarket(runs[p], market)
    ensures Total(Joint(terms, runs), PostedIn(u)) == 0
    decreases |runs|
  {
    hide ActAll, AllOfMarket;
    if runs != [] {
      var n := |runs| - 1;
      JointBalances(terms, runs[..n], market, u);
      PostingsBalance(terms, runs[n], market, u);
      TotalJoin(Joint(terms, runs[..n]), ActAll(terms, runs[n]).txns, PostedIn(u));
    }
  }

  /** The halves settled, by event. */
  ghost function Settled(txns: seq<Txn>): set<EventId> { Applied(txns, []).Keys }

  ghost predicate AllPaired(txns: seq<Txn>)
  {
    forall e :: e in Settled(txns) && IsFill(e) ==> Partner(e) in Settled(txns)
  }

  function OneIf(b: bool): int { if b then 1 else 0 }

  lemma {:induction false} HalfOnce(txns: seq<Txn>, market: map<FillId, Fill>)
    requires txns != [] && EventsApart(txns) && AllTxnsOk(txns, market)
    ensures var n := |txns| - 1;
      var t := txns[n];
      && EventsApart(txns[..n]) && AllTxnsOk(txns[..n], market)
      && (t.kind == FillHalfTxn ==>
           t.event.FillEvent? && t.event !in Settled(txns[..n]) && Settled(txns) == Settled(txns[..n]) + {t.event})
      && (t.kind == DepositTxn ==> !t.event.FillEvent? && Settled(txns) == Settled(txns[..n]))
  {
    var n := |txns| - 1;
    assert TxnOk(txns[n], market);
    hide TxnOk;
    assert EventsApart(txns[..n]) && AllTxnsOk(txns[..n], market) by {
      forall i | 0 <= i < n ensures TxnOk(txns[..n][i], market) { assert txns[..n][i] == txns[i]; }
    }
    AppliedIs(txns[..n], [], market);
    forall e | e in Settled(txns[..n]) && txns[n].kind == FillHalfTxn ensures e != txns[n].event {
      var i :| 0 <= i < n && txns[..n][i].kind == FillHalfTxn && txns[..n][i].event == e;
      assert txns[i].event == e;
    }
  }

  /** A fill's halves are counted by their events. */
  lemma {:induction false} HalvesCounted(txns: seq<Txn>, market: map<FillId, Fill>, f: FillId)
    requires EventsApart(txns) && AllTxnsOk(txns, market)
    ensures Total(txns, HalvesOf(f)) ==
      OneIf(FillEvent(f, Taker) in Settled(txns)) + OneIf(FillEvent(f, Maker) in Settled(txns))
    ensures f in FillsIn(txns) <==> FillEvent(f, Taker) in Settled(txns) || FillEvent(f, Maker) in Settled(txns)
  {
    hide EventsApart, AllTxnsOk, Settled, FillsIn;
    if txns == [] {
      assert Settled(txns) == {} && FillsIn(txns) == {} by { NoneSettled(); }
    } else {
      var n := |txns| - 1;
      HalfOnce(txns, market);
      HalvesCounted(txns[..n], market, f);
      LastFill(txns);
      var e := txns[n].event;
      assert e.FillEvent? && e.fill == f <==> e == FillEvent(f, Taker) || e == FillEvent(f, Maker) by { RoleIs(e, f); }
    }
  }

  lemma {:induction false} RoleIs(e: EventId, f: FillId)
    ensures e.FillEvent? && e.fill == f <==> e == FillEvent(f, Taker) || e == FillEvent(f, Maker)
  {
    if e.FillEvent? { assert e.role == Taker || e.role == Maker; }
  }

  lemma {:induction false} NoneSettled()
    ensures Settled([]) == {} && FillsIn([]) == {}
  {}

  lemma {:induction false} LastFill(txns: seq<Txn>)
    requires txns != []
    ensures FillsIn(txns) == FillsIn(txns[..|txns| - 1]) +
      if txns[|txns| - 1].event.FillEvent? then {txns[|txns| - 1].event.fill} else {}
  {
    var before, t := txns[..|txns| - 1], txns[|txns| - 1];
    FillsJoin(before, [t]);
    assert before + [t] == txns;
    assert FillsIn([t]) == if t.event.FillEvent? then {t.event.fill} else {} by { assert [t][0] == t; }
  }

  lemma {:induction false} PairedIsTwo(txns: seq<Txn>, market: map<FillId, Fill>)
    requires EventsApart(txns) && AllTxnsOk(txns, market)
    ensures AllPaired(txns) <==> forall f :: f in FillsIn(txns) ==> Total(txns, HalvesOf(f)) == 2
  {
    hide EventsApart, AllTxnsOk, Settled, FillsIn, Total;
    forall f ensures
      && Total(txns, HalvesOf(f)) ==
           OneIf(FillEvent(f, Taker) in Settled(txns)) + OneIf(FillEvent(f, Maker) in Settled(txns))
      && (f in FillsIn(txns) <==> FillEvent(f, Taker) in Settled(txns) || FillEvent(f, Maker) in Settled(txns))
    {
      HalvesCounted(txns, market, f);
    }
    if forall f :: f in FillsIn(txns) ==> Total(txns, HalvesOf(f)) == 2 {
      forall e | e in Settled(txns) && IsFill(e) ensures Partner(e) in Settled(txns) {
        RoleIs(e, e.fill);
        assert e.fill in FillsIn(txns);
      }
    }
    if AllPaired(txns) {
      forall f | f in FillsIn(txns) ensures Total(txns, HalvesOf(f)) == 2 {
        assert IsFill(FillEvent(f, Taker)) && IsFill(FillEvent(f, Maker));
        assert Partner(FillEvent(f, Taker)) == FillEvent(f, Maker)
          && Partner(FillEvent(f, Maker)) == FillEvent(f, Taker);
      }
    }
  }

  /** Over any runs of the partitions, cash and shares are conserved, and the reconciler is content exactly when no fill
      is
      orphaned and what the half-settled fills hold in clearing cancels out in every unit; when nothing is in flight,
      exactly when every settled half has its counterpart. */
  lemma {:induction false} OKIffNothingOpen(
      terms: Terms, runs: seq<seq<Action>>, owner: Uuid -> int, market: map<FillId, Fill>, recent: set<FillId>,
        g: Global)
    requires Partitioned(runs, owner) && forall p :: 0 <= p < |runs| ==> AllOfMarket(runs[p], market)
    requires Reports(RunSlices(terms, runs), recent, g)
    ensures g.cash == 0 && forall u :: u in g.shares ==> g.shares[u] == 0
    ensures OK(g) <==> g.orphaned == {} && forall u :: Total(Joint(terms, runs), ClearingIn(u)) == 0
    ensures g.inFlight == 0 ==> (OK(g) <==> AllPaired(Joint(terms, runs)))
  {
    var parts, all := RunSlices(terms, runs), Joint(terms, runs);
    SlicesOfRuns(terms, runs);
    hide Total, ActAll, AllOfMarket, Joint, RunSlices, Partitioned, AllPaired, FillsIn;
    forall u ensures Total(all, PostedIn(u)) == 0 { JointBalances(terms, runs, market, u); }
    forall u | u in g.shares ensures g.shares[u] == 0 { assert Get(g.shares, u) == SumShares(parts, u); }
    ClearingOK(g, parts, all);
    if g.inFlight == 0 {
      JointOk(terms, runs, owner, market);
      PairedIsTwo(all, market);
      assert Lost(parts, recent, true) == {};
      NothingLost(parts, recent);
      if AllPaired(all) {
        forall u ensures Total(all, ClearingIn(u)) == 0 { PairedCleared(terms, runs, owner, market, u); }
      }
    }
  }

  /** Every fill some partition has settled a half of is settled on both sides. */
  ghost predicate AllTwo(parts: seq<Slice>) { forall f :: f in Named(parts) ==> SumHalves(parts, f) == 2 }

  lemma {:induction false} NothingLost(parts: seq<Slice>, recent: set<FillId>)
    ensures AllTwo(parts) <==> Lost(parts, recent, true) == {} && Lost(parts, recent, false) == {}
  {
    var x, y := Lost(parts, recent, true), Lost(parts, recent, false);
    if AllTwo(parts) {
      assert x == {} && y == {};
    }
    if x == {} && y == {} {
      forall f | f in Named(parts) ensures SumHalves(parts, f) == 2 { assert f !in x && f !in y; }
    }
  }

  lemma {:induction false} ClearingOK(g: Global, parts: seq<Slice>, all: seq<Txn>)
    requires forall u :: Get(g.clearing, u) == SumClearing(parts, u) == Total(all, ClearingIn(u))
    ensures (forall u :: u in g.clearing ==> g.clearing[u] == 0) <==> forall u :: Total(all, ClearingIn(u)) == 0
  {
    hide Total, SumClearing;
    forall u ensures Total(all, ClearingIn(u)) == if u in g.clearing then g.clearing[u] else 0 {
      assert Get(g.clearing, u) == SumClearing(parts, u) == Total(all, ClearingIn(u));
    }
  }

  lemma {:induction false} PairedCleared(terms: Terms, runs: seq<seq<Action>>, owner: Uuid -> int,
      market: map<FillId, Fill>, u: Text)
    requires Partitioned(runs, owner) && (forall p :: 0 <= p < |runs| ==> AllOfMarket(runs[p], market))
    requires AllPaired(Joint(terms, runs))
    ensures Total(Joint(terms, runs), ClearingIn(u)) == 0
  {
    var all := Joint(terms, runs);
    JointOk(terms, runs, owner, market);
    AppliedIs(all, u, market);
    AppliedIs(all, [], market);
    hide Total, ActAll, AllOfMarket, Joint, TxnOk;
    assert Applied(all, u).Keys == Settled(all);
    forall e | e in Applied(all, u) && e.FillEvent? ensures Partner(e) in Applied(all, u) { assert IsFill(e); }
    PairedMeansCleared(terms, runs, owner, market, u);
  }
}
