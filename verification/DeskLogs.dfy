/** The matching engine over a whole inbound log without crashes: conservation of every order, one resting place, fill
    identities used once, and nothing after an order's final word. */
module DeskLogs {
  import opened Types
  import opened Dedup
  import opened Matching
  import opened Desk
  import opened DeskRuns
  import Conservation

  // ---- what is asked of a log --------------------------------------------------------------------------

  predicate Copies(m: Inbound, m': Inbound) { m.OrderAccepted? && m'.OrderAccepted? && m.order == m'.order }

  /** Copies of an order reach the log no further apart than the suppression window is long. */
  ghost predicate InWindow(log: seq<Inbound>, window: nat)
  {
    forall i, j :: 0 <= i < j < |log| && Copies(log[i], log[j]) ==> j - i <= window
  }

  ghost predicate AcceptedBefore(log: seq<Inbound>, j: nat, id: Uuid)
    requires j <= |log|
  {
    exists i :: 0 <= i < j && log[i].OrderAccepted? && log[i].order == id
  }

  /** Every cancel comes after its order. */
  ghost predicate Ordered(log: seq<Inbound>)
  {
    forall j :: 0 <= j < |log| && log[j].CancelRequested? ==> AcceptedBefore(log, j, log[j].order)
  }

  /** A record says of an order what it was accepted with. */
  predicate RecordTrue(facts: Facts, m: Inbound)
  {
    && m.order in facts
    && (m.OrderAccepted? ==> facts[m.order] == m)
    && (m.CancelRequested? ==> facts[m.order].account == m.account && facts[m.order].symbol == m.symbol)
  }

  ghost predicate LogTrue(cfg: ShardConfig, facts: Facts, log: seq<Inbound>)
  {
    && ProperConfig(cfg) && cfg.dedupWindow > 0 && FactsOk(facts)
    && (forall i :: 0 <= i < |log| ==> RecordTrue(facts, log[i]))
    && Ordered(log) && InWindow(log, cfg.dedupWindow)
  }

  lemma {:induction false} LogPrefix(cfg: ShardConfig, facts: Facts, log: seq<Inbound>, n: nat)
    requires LogTrue(cfg, facts, log) && n <= |log|
    ensures LogTrue(cfg, facts, log[..n])
  {
    hide FactsOk, ProperConfig, RecordTrue;
    var s := log[..n];
    assert forall i :: 0 <= i < n ==> s[i] == log[i];
    forall j | 0 <= j < n && s[j].CancelRequested? ensures AcceptedBefore(s, j, s[j].order) {
      assert AcceptedBefore(log, j, log[j].order);
      var i :| 0 <= i < j && log[i].OrderAccepted? && log[i].order == log[j].order;
      assert s[i].order == s[j].order;
    }
  }

  // ---- the shard's window remembers ------------------------------------------------------------------------

  function OrderIds(log: seq<Inbound>): seq<Uuid>
  {
    if log == [] then []
    else OrderIds(log[..|log| - 1]) + if log[|log| - 1].OrderAccepted? then [log[|log| - 1].order] else []
  }

  lemma {:induction false} PushAllJoin(w: Window, a: seq<Uuid>, b: seq<Uuid>)
    ensures PushAll(w, a + b) == PushAll(PushAll(w, a), b)
    decreases |a|
  {
    if a == [] { assert a + b == b; } else {
      assert (a + b)[1..] == a[1..] + b;
      PushAllJoin(w.Push(a[0]), a[1..], b);
    }
  }

  /** An id stays while fewer ids than the places ahead of it are pushed. */
  lemma {:induction false} StaysFor(w: Window, id: Uuid, at: nat, ids: seq<Uuid>)
    requires w.Valid() && at < |w.recent| && w.recent[at] == id && NIL !in ids && |ids| <= at + (w.limit - |w.recent|)
    ensures PushAll(w, ids).Has(id)
    decreases |ids|
  {
    if ids != [] {
      var next := w.Push(ids[0]);
      PushValid(w, ids[0]);
      if w.Has(ids[0]) || |w.recent| < w.limit {
        assert next.recent[at] == id;
        StaysFor(next, id, at, ids[1..]);
      } else {
        assert next.recent[at - 1] == id;
        StaysFor(next, id, at - 1, ids[1..]);
      }
    }
  }

  lemma {:induction false} OrderIdsJoin(a: seq<Inbound>, b: seq<Inbound>)
    ensures OrderIds(a + b) == OrderIds(a) + OrderIds(b)
    ensures |OrderIds(b)| <= |b|
    decreases |b|
  {
    if b == [] { assert a + b == a; } else {
      assert (a + b)[..|a + b| - 1] == a + b[..|b| - 1];
      OrderIdsJoin(a, b[..|b| - 1]);
    }
  }

  lemma {:induction false} OrderIdsAre(log: seq<Inbound>)
    ensures forall x :: x in OrderIds(log) <==> x in IdsIn(log)
  {
    if log != [] {
      var n := |log| - 1;
      OrderIdsAre(log[..n]);
      IdsInStep(log, n);
      assert log[..n + 1] == log;
    }
  }

  lemma {:induction false} IdsInStep(log: seq<Inbound>, n: nat)
    requires n < |log|
    ensures IdsIn(log[..n + 1]) == IdsIn(log[..n]) + if log[n].OrderAccepted? then {log[n].order} else {}
  {
    forall x
      ensures x in IdsIn(log[..n + 1]) <==> x in IdsIn(log[..n]) || (log[n].OrderAccepted? && x == log[n].order)
    {
      if x in IdsIn(log[..n + 1]) {
        var i :| 0 <= i < n + 1 && log[..n + 1][i].OrderAccepted? && log[..n + 1][i].order == x;
        if i < n { assert log[..n][i].order == x; }
      }
      if x in IdsIn(log[..n]) {
        var i :| 0 <= i < n && log[..n][i].OrderAccepted? && log[..n][i].order == x;
        assert log[..n + 1][i].order == x;
      }
      if log[n].OrderAccepted? && x == log[n].order { assert log[..n + 1][n].order == x; }
    }
  }

  /** The index at which an order was first handed over. */
  lemma {:induction false} FirstCopy(log: seq<Inbound>, id: Uuid) returns (i: nat)
    requires id in IdsIn(log)
    ensures i < |log| && log[i].OrderAccepted? && log[i].order == id && id !in IdsIn(log[..i])
    decreases |log|
  {
    var n := |log| - 1;
    assert log[..n + 1] == log;
    IdsInStep(log, n);
    if id in IdsIn(log[..n]) {
      i := FirstCopy(log[..n], id);
      assert log[..n][..i] == log[..i];
    } else {
      i := n;
    }
  }

  lemma {:induction false} OrderIdsAround(log: seq<Inbound>, i: nat)
    requires i < |log| && log[i].OrderAccepted?
    ensures OrderIds(log) == OrderIds(log[..i]) + ([log[i].order] + OrderIds(log[i + 1..]))
    ensures |OrderIds(log[i + 1..])| <= |log| - i - 1
  {
    assert log == log[..i] + ([log[i]] + log[i + 1..]);
    OrderIdsJoin(log[..i], [log[i]] + log[i + 1..]);
    OrderIdsJoin([log[i]], log[i + 1..]);
    assert OrderIds([log[i]]) == [log[i].order] by { assert [log[i]][..0] == []; }
  }

  /** An id pushed for the first time, and then fewer others than the window holds. */
  lemma {:induction false} RemembersThrough(w: Window, a: seq<Uuid>, id: Uuid, b: seq<Uuid>)
    requires w.Valid() && w.recent == [] && w.limit > 0 && NIL !in a && NIL !in b && id != NIL && id !in a
    requires |b| < w.limit
    ensures PushAll(w, a + ([id] + b)).Has(id)
  {
    PushAllJoin(w, a, [id] + b);
    PushedFrom(w, a);
    var v := PushAll(w, a);
    assert ([id] + b)[1..] == b;
    PushValid(v, id);
    StaysFor(v.Push(id), id, |v.Push(id).recent| - 1, b);
  }

  /** A repeat within the window is recognised. */
  lemma {:induction false} RepeatRecognised(window: nat, log: seq<Inbound>, n: nat)
    requires n < |log| && window > 0 && InWindow(log, window) && NIL !in OrderIds(log[..n])
    requires log[n].OrderAccepted? && log[n].order in IdsIn(log[..n])
    ensures PushAll(Window(window, []), OrderIds(log[..n])).Has(log[n].order)
  {
    var before, id := log[..n], log[n].order;
    var i := FirstCopy(before, id);
    assert log[i] == before[i];
    OrderIdsAround(before, i);
    OrderIdsAre(before[..i]);
    hide IdsIn, OrderIds, PushAll;
    RemembersThrough(Window(window, []), OrderIds(before[..i]), id, OrderIds(before[i + 1..]));
  }

  lemma {:induction false} PushedFrom(w: Window, ids: seq<Uuid>)
    requires w.Valid() && NIL !in ids
    ensures PushAll(w, ids).Valid() && PushAll(w, ids).limit == w.limit
    ensures forall x :: PushAll(w, ids).Has(x) ==> w.Has(x) || x in ids
    decreases |ids|
  {
    if ids != [] {
      PushValid(w, ids[0]);
      PushedFrom(w.Push(ids[0]), ids[1..]);
    }
  }

  // ---- the story of a log --------------------------------------------------------------------------------

  /** The story with one more record handled. */
  ghost function Told(cfg: ShardConfig, y: Story, m: Inbound): Story
  {
    var (st, news) := Handle(cfg, y.shard, m);
    if m.CancelRequested? then Story(y.ids, st, y.outs + news, y.market)
    else if y.shard.seen.Has(m.order) then Story(y.ids + {m.order}, st, y.outs + news, y.market)
    else Story(y.ids + {m.order}, st, y.outs + news, y.market + MarketOf(Place(cfg, m, BooksFor(cfg, y, m)).fills))
  }

  ghost function StoryAfter(cfg: ShardConfig, log: seq<Inbound>): Story
    decreases |log|
  {
    if log == [] then Story({}, Matching.Fresh(cfg), [], map[])
      else Told(cfg, StoryAfter(cfg, log[..|log| - 1]), log[|log| - 1])
  }

  /** Everything the shard says about a log. */
  ghost function Stream(cfg: ShardConfig, log: seq<Inbound>): seq<Matching.Outcome> { StoryAfter(cfg, log).outs }

  /** What the story has of the log: the ids handed over, and a window that remembers them in their order. */
  ghost predicate Following(cfg: ShardConfig, log: seq<Inbound>, y: Story)
  {
    y.ids == IdsIn(log) && y.shard.seen == PushAll(Window(cfg.dedupWindow, []), OrderIds(log))
  }

  lemma {:induction false} StoryShard(cfg: ShardConfig, log: seq<Inbound>)
    ensures StoryAfter(cfg, log).shard == StateAfter(cfg, Matching.Fresh(cfg), log)
    decreases |log|
  {
    hide Handle, MarketOf, Place;
    if log != [] { StoryShard(cfg, log[..|log| - 1]); }
  }

  lemma {:induction false} ToldIs(cfg: ShardConfig, y: Story, m: Inbound)
    ensures Told(cfg, y, m).shard == Handle(cfg, y.shard, m).0
    ensures Told(cfg, y, m).outs == y.outs + Handle(cfg, y.shard, m).1
  {
    hide Handle, Place, MarketOf;
  }

  lemma {:induction false} StoryStep(cfg: ShardConfig, log: seq<Inbound>, n: nat)
    requires n < |log|
    ensures StoryAfter(cfg, log[..n + 1]) == Told(cfg, StoryAfter(cfg, log[..n]), log[n])
  {
    hide Told;
    assert log[..n + 1][..n] == log[..n];
  }

  /** A copy of an order within the window is passed over. */
  lemma {:induction false} RepeatTold(cfg: ShardConfig, facts: Facts, y: Story, m: Inbound)
    requires StoryOk(cfg, facts, y) && m.OrderAccepted? && m.order in y.ids && y.shard.seen.Has(m.order)
    ensures Told(cfg, y, m) == y
  {
    hide StoryOk, Place;
    assert y.ids + {m.order} == y.ids && y.outs + [] == y.outs;
  }

  lemma {:induction false} PushOne(w: Window, ids: seq<Uuid>, id: Uuid)
    ensures PushAll(w, ids + [id]) == PushAll(w, ids).Push(id)
  {
    PushAllJoin(w, ids, [id]);
    assert [id][1..] == [];
  }

  lemma {:induction false} SeenTold(cfg: ShardConfig, y: Story, m: Inbound)
    ensures Told(cfg, y, m).shard.seen == if m.OrderAccepted? then y.shard.seen.Push(m.order) else y.shard.seen
    ensures Told(cfg, y, m).ids == y.ids + if m.OrderAccepted? then {m.order} else {}
  {
    hide Place, CancelIn, VenueBooks;
  }

  lemma {:induction false} OrderIdsStep(log: seq<Inbound>, n: nat)
    requires n < |log|
    ensures OrderIds(log[..n + 1]) ==
      if log[n].OrderAccepted? then OrderIds(log[..n]) + [log[n].order] else OrderIds(log[..n])
  {
    assert log[..n + 1][..n] == log[..n] && log[..n + 1][n] == log[n];
    assert OrderIds(log[..n]) + [] == OrderIds(log[..n]);
  }

  lemma {:induction false} FollowsOn(cfg: ShardConfig, log: seq<Inbound>, n: nat, y: Story)
    requires n < |log| && Following(cfg, log[..n], y)
    ensures Following(cfg, log[..n + 1], Told(cfg, y, log[n]))
  {
    hide Told, IdsIn, OrderIds, PushAll;
    SeenTold(cfg, y, log[n]);
    IdsInStep(log, n);
    OrderIdsStep(log, n);
    if log[n].OrderAccepted? { PushOne(Window(cfg.dedupWindow, []), OrderIds(log[..n]), log[n].order); }
  }

  lemma {:induction false} StartOk(cfg: ShardConfig, facts: Facts)
    requires FactsOk(facts)
    ensures StoryOk(cfg, facts, StoryAfter(cfg, [])) && Following(cfg, [], StoryAfter(cfg, []))
  {
    assert IdsIn([]) == {};
    forall id | id in facts ensures facts[id].qty >= 0 { assert FactOk(id, facts[id]); }
  }

  /** One more record of a true log keeps the whole story: a new order, a suppressed copy, a cancel. */
  lemma {:induction false} ToldKeeps(cfg: ShardConfig, facts: Facts, log: seq<Inbound>, n: nat)
    requires LogTrue(cfg, facts, log) && n < |log|
    requires StoryOk(cfg, facts, StoryAfter(cfg, log[..n])) && Following(cfg, log[..n], StoryAfter(cfg, log[..n]))
    ensures StoryOk(cfg, facts, Told(cfg, StoryAfter(cfg, log[..n]), log[n]))
  {
    var y, m := StoryAfter(cfg, log[..n]), log[n];
    assert RecordTrue(facts, m);
    OrderIdsReal(facts, log[..n]);
    hide StoryOk, StoryAfter, OrderIds, PushAll, InWindow, IdsIn, ProperConfig, Told;
    if m.CancelRequested? {
      CancelKnown(log, n);
      WithdrawTold(cfg, facts, y, m);
    } else if m.order in y.ids {
      RepeatRecognised(cfg.dedupWindow, log, n);
      RepeatTold(cfg, facts, y, m);
    } else {
      NotRemembered(cfg, log[..n], y, m.order);
      AcceptTold(cfg, facts, y, m);
    }
  }

  lemma {:induction false} OrderIdsReal(facts: Facts, log: seq<Inbound>)
    requires FactsOk(facts) && forall i :: 0 <= i < |log| ==> RecordTrue(facts, log[i])
    ensures NIL !in OrderIds(log)
  {
    OrderIdsAre(log);
    forall i | 0 <= i < |log| ensures log[i].order != NIL { assert FactOk(log[i].order, facts[log[i].order]); }
  }

  lemma {:induction false} CancelKnown(log: seq<Inbound>, n: nat)
    requires Ordered(log) && n < |log| && log[n].CancelRequested?
    ensures log[n].order in IdsIn(log[..n])
  {
    assert AcceptedBefore(log, n, log[n].order);
    var i :| 0 <= i < n && log[i].OrderAccepted? && log[i].order == log[n].order;
    assert log[..n][i].order == log[n].order;
  }

  lemma {:induction false} NotRemembered(cfg: ShardConfig, log: seq<Inbound>, y: Story, id: Uuid)
    requires Following(cfg, log, y) && id !in y.ids && NIL !in OrderIds(log)
    ensures !y.shard.seen.Has(id)
  {
    OrderIdsAre(log);
    PushedFrom(Window(cfg.dedupWindow, []), OrderIds(log));
  }

  lemma {:induction false} WithdrawTold(cfg: ShardConfig, facts: Facts, y: Story, m: Inbound)
    requires Cancellable(cfg, facts, y, m)
    ensures StoryOk(cfg, facts, Told(cfg, y, m))
  {
    hide StoryOk, CancelIn, BooksFor, Cancellable, Handle;
    WithdrawKeeps(cfg, facts, y, m);
    assert m.CancelRequested? by { IsCancel(cfg, facts, y, m); }
  }

  lemma {:induction false} IsCancel(cfg: ShardConfig, facts: Facts, y: Story, m: Inbound)
    requires Cancellable(cfg, facts, y, m)
    ensures m.CancelRequested?
  {}

  lemma {:induction false} AcceptTold(cfg: ShardConfig, facts: Facts, y: Story, m: Inbound)
    requires DeskRuns.Fresh(cfg, facts, y, m) && !y.shard.seen.Has(m.order)
    ensures StoryOk(cfg, facts, Told(cfg, y, m))
  {
    hide StoryOk, Place, Handle, OutcomesOf, MarketOf;
    AcceptKeeps(cfg, facts, y, m);
  }

  /** Every reachable shard: whatever the log, if it speaks truly of the accepted orders, cancels follow their orders
      and
      copies come within the window, then what the shard holds and has said is as it should be. */
  lemma {:induction false} StoryHolds(cfg: ShardConfig, facts: Facts, log: seq<Inbound>)
    requires LogTrue(cfg, facts, log)
    ensures StoryOk(cfg, facts, StoryAfter(cfg, log)) && Following(cfg, log, StoryAfter(cfg, log))
    decreases |log|
  {
    hide StoryOk, Following, Told, FactsOk;
    if log == [] { StartOk(cfg, facts); } else {
      var n := |log| - 1;
      LogPrefix(cfg, facts, log, n);
      StoryHolds(cfg, facts, log[..n]);
      ToldKeeps(cfg, facts, log, n);
      FollowsOn(cfg, log, n, StoryAfter(cfg, log[..n]));
      assert log[..n + 1] == log;
    }
  }

  // ---- what a reader of the outcomes can rely on -----------------------------------------------------------

  /** What rests of an order at a symbol's venue. */
  function RestAt(st: Shard, symbol: Text, v: Text, id: Uuid): int
  {
    if symbol in st.books && v in st.books[symbol] then RestOf(st.books[symbol][v], id) else 0
  }

  /** No order ever trades or rests beyond its size, and it rests at one venue of its own symbol at most. */
  lemma {:induction false} NeverOverfilled(cfg: ShardConfig, facts: Facts, log: seq<Inbound>, id: Uuid, s: Text,
      v: Text)
    requires LogTrue(cfg, facts, log) && id in facts
    ensures var y := StoryAfter(cfg, log);
      && FilledOf(y.outs, id) + RestAt(y.shard, s, v, id) <= facts[id].qty
      && (RestAt(y.shard, s, v, id) > 0 ==>
            s == facts[id].symbol && !Finished(y.outs, id) && forall s', v' :: RestAt(y.shard, s', v', id) > 0 ==>
              s' == s && v' == v)
  {
    StoryHolds(cfg, facts, log);
    var y := StoryAfter(cfg, log);
    assert OutsOk(facts, y) && FilledOf(y.outs, id) <= facts[id].qty;
    hide StoryOk, OutsOk, FilledOf, Finished, RestOf, StoryAfter, LogTrue;
    if RestAt(y.shard, s, v, id) > 0 {
      RestsOnce(cfg, facts, y, id, s, v, s, v);
      forall s', v' | RestAt(y.shard, s', v', id) > 0
        ensures s' == s && v' == v
      {
        RestsOnce(cfg, facts, y, id, s, v, s', v');
      }
    }
  }

  lemma {:induction false} RestsOnce(cfg: ShardConfig, facts: Facts, y: Story, id: Uuid, s: Text, v: Text, s': Text,
      v': Text)
    requires StoryOk(cfg, facts, y) && RestAt(y.shard, s, v, id) > 0 && RestAt(y.shard, s', v', id) > 0
    ensures id in facts && s == s' == facts[id].symbol && v == v'
    ensures FilledOf(y.outs, id) + RestAt(y.shard, s, v, id) <= facts[id].qty && !Finished(y.outs, id)
  {
    hide RestOf, FilledOf, Finished, OutsOk, MarketOk, VenuesSound, BooksTrue, NamedBooks;
    var a, b := y.shard.books[s], y.shard.books[s'];
    assert VenuesOk(cfg, facts, s, a, y.ids) && Room(facts, a, y.outs);
    assert VenuesOk(cfg, facts, s', b, y.ids);
    RestsOnFact(cfg, facts, s, a, y.ids, v, id);
    RestsOnFact(cfg, facts, s', b, y.ids, v', id);
    assert OnePlace(a);
  }

  /** No execution follows an order's final word; every execution is of a market of fills in which no identity is used
      twice, each half once. */
  lemma {:induction false} StreamSound(cfg: ShardConfig, facts: Facts, log: seq<Inbound>)
    requires LogTrue(cfg, facts, log)
    ensures var y := StoryAfter(cfg, log);
      && Conclusive(y.outs) && HalvesApart(y.outs)
      && (forall i :: 0 <= i < |y.outs| ==>
           Conservation.OfMarket(y.outs[i], y.market) && OutTrue(facts, IdsIn(log), y.outs[i]))
  {
    StoryHolds(cfg, facts, log);
    hide StoryAfter, BooksOk, Conclusive, HalvesApart, OutTrue, Conservation.OfMarket, Numbered, FactsOk, IdsIn,
      FilledOf;
  }

  /** Every cancel handled has its verdict among the outcomes. */
  lemma {:induction false} CancelAnswered(cfg: ShardConfig, log: seq<Inbound>, n: nat) returns (j: nat)
    requires n < |log| && log[n].CancelRequested?
    ensures var outs := Stream(cfg, log);
      j < |outs| && outs[j].CancelOutcome? && outs[j].order == log[n].order && outs[j].account == log[n].account
    decreases |log|
  {
    hide Told;
    var before, last := StoryAfter(cfg, log[..|log| - 1]), log[|log| - 1];
    VerdictGiven(cfg, before, last);
    if n == |log| - 1 {
      j := |before.outs|;
    } else {
      j := CancelAnswered(cfg, log[..|log| - 1], n);
    }
  }

  lemma {:induction false} VerdictGiven(cfg: ShardConfig, y: Story, m: Inbound)
    ensures y.outs <= Told(cfg, y, m).outs
    ensures m.CancelRequested? ==>
      var outs := Told(cfg, y, m).outs;
      |outs| > |y.outs| && outs[|y.outs|].CancelOutcome? && outs[|y.outs|].order == m.order
        && outs[|y.outs|].account == m.account
  {
    hide Place, CancelIn, VenueBooks, OutcomesOf;
  }
}
