/** The whole exchange as steps: accept and cancel in the core, the outbox relay with its repeats, matching in log
    order,
    settlement in each account's order with redeliveries. A reservation is freed only when no fill can still use it. */
module Protocol {
  import opened Types
  import opened Ledger
  import opened Funding
  import opened Desk
  import opened DeskRuns
  import opened DeskLogs
  import opened ExactlyOnce
  import Costing
  import M = Matching
  import Money

  datatype Plant = Plant(
    core: Core, sent: nat, inbound: seq<M.Inbound>, read: nat, shard: M.Shard, outs: seq<M.Outcome>, taken: map<Uuid,
      nat>)

  /** A client operation; the relay publishing an outbox row, the next one or an earlier one again; the engine handling
      the next record; the core settling an account's next outcome, or an earlier one again at any offset. */
  datatype Move =
    | Operate(action: Action) | Relay(row: nat) | Match
    | SettleNext(account: Uuid) | SettleAgain(index: nat, offset: nat)

  function Taken(p: Plant, a: Uuid): nat { if a in p.taken then p.taken[a] else 0 }

  /** The first outcome for an account at or after an index. */
  function NextFor(outs: seq<M.Outcome>, a: Uuid, from: nat): (j: nat)
    requires from <= |outs|
    ensures from <= j <= |outs| && (j < |outs| ==> outs[j].account == a)
    ensures forall k :: from <= k < j ==> outs[k].account != a
    decreases |outs| - from
  {
    if from == |outs| || outs[from].account == a then from else NextFor(outs, a, from + 1)
  }

  ghost function Relayed(p: Plant, k: nat): Plant
    requires k < |p.core.outbox|
  {
    p.(inbound := p.inbound + [p.core.outbox[k]], sent := if k == p.sent then k + 1 else p.sent)
  }

  ghost function Handled(cfg: M.ShardConfig, p: Plant): Plant
    requires p.read < |p.inbound|
  {
    var (st, news) := M.Handle(cfg, p.shard, p.inbound[p.read]);
    p.(read := p.read + 1, shard := st, outs := p.outs + news)
  }

  ghost function TakenIn(terms: Terms, p: Plant, j: nat): Plant
    requires j < |p.outs|
  {
    match ApplyOutcome(terms, p.core, j, p.outs[j])
    case Abort(_) => p
    case Commit(c) => p.(core := c, taken := p.taken[p.outs[j].account := j + 1])
  }

  ghost function Settled(terms: Terms, p: Plant, a: Uuid): Plant
  {
    if Taken(p, a) > |p.outs| then p
    else
      var j := NextFor(p.outs, a, Taken(p, a));
      if j == |p.outs| then p else TakenIn(terms, p, j)
  }

  ghost function Step(cfg: M.ShardConfig, terms: Terms, p: Plant, e: Move): Plant
  {
    match e
    case Operate(a) => if a.Receive? then p else p.(core := Act(terms, p.core, a))
    case Relay(k) => if k < |p.core.outbox| && k <= p.sent then Relayed(p, k) else p
    case Match => if p.read < |p.inbound| then Handled(cfg, p) else p
    case SettleNext(a) => Settled(terms, p, a)
    case SettleAgain(j, offset) =>
      if j < |p.outs| && j < Taken(p, p.outs[j].account) then
        p.(core := After(p.core, ApplyOutcome(terms, p.core, offset, p.outs[j]))) else p
  }

  ghost function Start(cfg: M.ShardConfig): Plant { Plant(Empty(), 0, [], 0, M.Fresh(cfg), [], map[]) }

  ghost function Run(cfg: M.ShardConfig, terms: Terms, moves: seq<Move>): Plant
    decreases |moves|
  {
    if moves == [] then Start(cfg) else Step(cfg, terms, Run(cfg, terms, moves[..|moves| - 1]), moves[|moves| - 1])
  }

  // ---- what is asked of the environment --------------------------------------------------------------------

  /** Drawn ids are real and symbols are named. */
  predicate RealMove(e: Move) { e.Operate? ==> RealAction(e.action) }
  predicate RealAction(a: Action) { a.Place? ==> a.id != NIL && a.request.symbol != [] }

  predicate Sane(cfg: M.ShardConfig, terms: Terms)
  {
    ProperConfig(cfg) && cfg.dedupWindow > 0 && terms.takerBps <= Money.BPS && terms.makerBps <= Money.BPS
  }

  /** Copies of an order reach the log no further apart than the suppression window is long. */
  ghost predicate Lawful(cfg: M.ShardConfig, terms: Terms, moves: seq<Move>)
  {
    && Sane(cfg, terms) && (forall i :: 0 <= i < |moves| ==> RealMove(moves[i]))
    && InWindow(Run(cfg, terms, moves).inbound, cfg.dedupWindow)
  }

  // ---- the invariant -----------------------------------------------------------------------------------------

  /** The message an order was accepted with, read off its row. */
  function MessageOf(id: Uuid, o: OrderRow): Desk.Accepted
  {
    M.OrderAccepted(id, o.account, o.symbol, o.side, o.typ, o.tif, o.qty, o.limitPrice, o.refPrice, o.venue)
  }

  function FactsOf(c: Core): Facts
  {
    map id | id in c.orders && c.orders[id].status != Rejected :: MessageOf(id, c.orders[id])
  }

  function CancelOf(id: Uuid, o: OrderRow): M.Inbound { M.CancelRequested(id, o.account, o.symbol) }

  /** A record says of an order what the core recorded; a cancel request, that it is on its way out. */
  predicate RowTrue(c: Core, m: M.Inbound)
  {
    RecordTrue(FactsOf(c), m) && (m.CancelRequested? ==> Closing(c.orders[m.order].status))
  }

  ghost predicate OutboxOk(c: Core)
  {
    && FactsOk(FactsOf(c)) && (forall k :: 0 <= k < |c.outbox| ==> RowTrue(c, c.outbox[k])) && Ordered(c.outbox)
    && (forall id :: id in FactsOf(c) ==> FactsOf(c)[id] in c.outbox)
    && forall id :: id in c.orders && c.orders[id].status == PendingCancel ==> CancelOf(id, c.orders[id]) in c.outbox
  }

  ghost predicate LogOk(cfg: M.ShardConfig, p: Plant)
  {
    && p.sent <= |p.core.outbox| && LogTrue(cfg, FactsOf(p.core), p.inbound)
    && (forall j :: 0 <= j < |p.inbound| ==> RowTrue(p.core, p.inbound[j]))
    && forall k :: 0 <= k < p.sent ==> p.core.outbox[k] in p.inbound
  }

  ghost predicate DeskSide(cfg: M.ShardConfig, p: Plant)
  {
    p.read <= |p.inbound| && var y := StoryAfter(cfg, p.inbound[..p.read]); p.shard == y.shard && p.outs == y.outs
  }

  /** An order's row counts exactly the executions taken in, and is final only when full or told so. */
  ghost predicate RowSettled(p: Plant, id: Uuid, o: OrderRow)
  {
    Taken(p, o.account) <= |p.outs|
    && var done := p.outs[..Taken(p, o.account)];
    o.filledQty == FilledOf(done, id) && (Terminal(o.status) ==> o.filledQty >= o.qty || Finished(done, id))
  }

  ghost predicate RowsSettled(p: Plant) { forall id :: id in FactsOf(p.core) ==> RowSettled(p, id, p.core.orders[id]) }

  ghost predicate EventTaken(p: Plant, e: EventId)
  {
    e.FillEvent? ==> exists i ::
      0 <= i < |p.outs| && p.outs[i].FillHalf? && p.outs[i].eventId == e && i < Taken(p, p.outs[i].account)
  }

  ghost predicate EventsTaken(p: Plant) { forall k :: 0 <= k < |p.core.txns| ==> EventTaken(p, p.core.txns[k].event) }

  ghost predicate TakenDone(p: Plant)
  {
    forall j :: 0 <= j < |p.outs| && j < Taken(p, p.outs[j].account) ==> Done(p.core, p.outs[j])
  }

  ghost predicate AllAsked(p: Plant)
  {
    forall i :: 0 <= i < |p.outs| && p.outs[i].CancelOutcome? ==>
      p.outs[i].order in p.core.orders && Closing(p.core.orders[p.outs[i].order].status)
  }

  ghost predicate TakenInRange(p: Plant) { forall a :: Taken(p, a) <= |p.outs| }

  ghost predicate CoreSide(p: Plant)
  {
    && AllTidy(p.core) && Funded(p.core) && TakenInRange(p)
    && RowsSettled(p) && EventsTaken(p) && TakenDone(p) && AllAsked(p)
  }

  ghost predicate PlantOk(cfg: M.ShardConfig, p: Plant)
  {
    OutboxOk(p.core) && LogOk(cfg, p) && DeskSide(cfg, p) && CoreSide(p)
  }

  /** What the desk's outcomes say of the orders the core has. */
  lemma {:induction false} DeskSound(cfg: M.ShardConfig, p: Plant)
    requires LogOk(cfg, p) && DeskSide(cfg, p)
    ensures StoryOk(cfg, FactsOf(p.core), StoryAfter(cfg, p.inbound[..p.read]))
    ensures OutsOk(FactsOf(p.core), StoryAfter(cfg, p.inbound[..p.read]))
    ensures HalvesApart(p.outs) && M.Conclusive(p.outs)
    ensures forall i :: 0 <= i < |p.outs| ==> OutTrue(FactsOf(p.core), FactsOf(p.core).Keys, p.outs[i])
  {
    LogPrefix(cfg, FactsOf(p.core), p.inbound, p.read);
    StoryHolds(cfg, FactsOf(p.core), p.inbound[..p.read]);
    hide LogTrue, StoryAfter, Following, BooksOk, FilledOf, FactsOf, RowTrue;
    var y := StoryAfter(cfg, p.inbound[..p.read]);
    forall i | 0 <= i < |p.outs| ensures OutTrue(FactsOf(p.core), FactsOf(p.core).Keys, p.outs[i]) {
      OutKnown(FactsOf(p.core), y.ids, FactsOf(p.core).Keys, y.outs[i]);
    }
  }

  // ---- client operations ----------------------------------------------------------------------------------------

  predicate AskedNow(o: OrderRow, o': OrderRow) { !Closing(o.status) && o' == o.(status := PendingCancel) }

  predicate Newborn(id: Uuid, o: OrderRow)
  {
    o.filledQty == 0 && (o.status == Rejected || (o.status == Accepted && FactOk(id, MessageOf(id, o))))
  }

  /** Orders stay as they were but for cancel requests; new ones are rejected, or accepted and untouched. */
  ghost predicate Kept(c: Core, c': Core)
  {
    && (forall id :: id in c.orders ==>
         id in c'.orders && (c'.orders[id] == c.orders[id] || AskedNow(c.orders[id], c'.orders[id])))
    && forall id :: id in c'.orders && id !in c.orders ==> Newborn(id, c'.orders[id])
  }

  /** The outbox gains the row of whatever was accepted or asked for, and nothing else. */
  ghost predicate Announced(c: Core, c': Core)
  {
    && c.outbox <= c'.outbox && |c'.outbox| <= |c.outbox| + 1
    && (|c'.outbox| > |c.outbox| ==>
          var row := c'.outbox[|c.outbox|]; RowTrue(c', row) && (row.CancelRequested? ==> row.order in FactsOf(c)))
    && (forall id :: id in FactsOf(c') && id !in c.orders ==> FactsOf(c')[id] in c'.outbox)
    && forall id :: id in c.orders && id in c'.orders && AskedNow(c.orders[id], c'.orders[id]) ==>
         CancelOf(id, c.orders[id]) in c'.outbox
  }

  /** Fill events come from outcomes only. */
  ghost predicate NoFillEvents(c: Core, c': Core)
  {
    c.txns <= c'.txns && forall k :: |c.txns| <= k < |c'.txns| ==> c'.txns[k].event.LedgerEvent?
  }

  lemma {:induction false} Unmoved(c: Core, c': Core)
    requires c'.orders == c.orders && c'.outbox == c.outbox
    ensures Kept(c, c') && Announced(c, c')
  {}

  /** An accepted request: nothing new, a rejected order, or an accepted one and its message. */
  ghost predicate Placed(c: Core, c': Core, id: Uuid, r: Request, ref: int)
  {
    || (c'.orders == c.orders && c'.outbox == c.outbox)
    || (id !in c.orders && c'.orders == c.orders[id := RowFor(r, ref, Rejected)] && c'.outbox == c.outbox)
    || (id !in c.orders && c'.orders == c.orders[id := RowFor(r, ref, Accepted)]
      && c'.outbox == c.outbox + [MessageFor(id, r, ref)])
  }

  lemma {:induction false} AcceptIs(terms: Terms, c: Core, id: Uuid, r: Request, ref: int)
    ensures Placed(c, After(c, Accept(terms, c, id, r, ref)), id, r, ref)
  {
    hide Costing.SizeReservation, RiskOk, Costing.Row.Legal, ReservationFor;
  }

  lemma {:induction false} PlacedIs(c: Core, c': Core, id: Uuid, r: Request, ref: int)
    requires Placed(c, c', id, r, ref) && id != NIL && r.symbol != [] && r.qty > 0
    requires (r.typ == Limit ==> r.limitPrice > 0)
    ensures Kept(c, c') && Announced(c, c')
  {
    if c'.orders == c.orders { Unmoved(c, c'); } else {
      var o := c'.orders[id];
      assert MessageOf(id, RowFor(r, ref, Accepted)) == MessageFor(id, r, ref);
      if o.status == Accepted { assert c'.outbox[|c.outbox|] == MessageFor(id, r, ref); }
    }
  }

  lemma {:induction false} PlaceIs(terms: Terms, c: Core, id: Uuid, r: Request, ref: Option<int>)
    requires id != NIL && r.symbol != []
    ensures var c' := After(c, Submit(terms, c, id, r, ref)); Kept(c, c') && Announced(c, c')
  {
    hide Accept, Kept, Announced, Placed;
    var stamped := if r.typ == Market && ref.Some? then ref.value else 0;
    if Submit(terms, c, id, r, ref) == Accept(terms, c, id, r, stamped) && r.qty > 0
      && (r.typ == Limit ==> r.limitPrice > 0) {
      AcceptIs(terms, c, id, r, stamped);
      PlacedIs(c, After(c, Accept(terms, c, id, r, stamped)), id, r, stamped);
    } else {
      Unmoved(c, c);
    }
  }

  lemma {:induction false} WithdrawIs(c: Core, id: Uuid)
    ensures var c' := After(c, RequestCancel(c, id)); Kept(c, c') && Announced(c, c')
  {
    var c' := After(c, RequestCancel(c, id));
    if c' != c {
      var o := c.orders[id];
      assert c'.orders == c.orders[id := o.(status := PendingCancel)] && c'.outbox == c.outbox + [CancelOf(id, o)];
      assert c'.outbox[|c.outbox|] == CancelOf(id, o);
    } else {
      Unmoved(c, c');
    }
  }

  lemma {:induction false} FundingIs(c: Core, a: Uuid, amount: int, symbol: Text, qty: int, price: int)
    ensures var c' := After(c, Deposit(c, a, amount));
      c'.orders == c.orders && c'.outbox == c.outbox && NoFillEvents(c, c')
    ensures var c' := After(c, SeedShares(c, a, symbol, qty, price));
      c'.orders == c.orders && c'.outbox == c.outbox && NoFillEvents(c, c')
  {
    hide Posted, Moved, HasEvent, BuyingPower, Money.Notional, SeedLegs;
  }

  lemma {:induction false} ClientIs(terms: Terms, c: Core, a: Action)
    requires !a.Receive? && RealAction(a)
    ensures var c' := Act(terms, c, a); Kept(c, c') && Announced(c, c') && NoFillEvents(c, c')
  {
    hide Kept, Announced, Deposit, SeedShares, Submit, RequestCancel;
    match a
    case OpenAccount(_) => Unmoved(c, Act(terms, c, a));
    case DepositCash(account, amount) =>
      FundingIs(c, account, amount, [], 0, 0);
      Unmoved(c, Act(terms, c, a));
    case Seed(account, symbol, qty, price) =>
      FundingIs(c, account, 0, symbol, qty, price);
      Unmoved(c, Act(terms, c, a));
    case Place(id, r, ref) =>
      PlaceIs(terms, c, id, r, ref);
      SubmitQuiet(terms, c, id, r, ref);
    case Withdraw(id) =>
      WithdrawIs(c, id);
      CancelQuiet(c, id);
  }

  lemma {:induction false} FactsKept(c: Core, c': Core)
    requires Kept(c, c')
    ensures forall id :: id in FactsOf(c) ==> id in FactsOf(c') && FactsOf(c')[id] == FactsOf(c)[id]
    ensures forall m :: RowTrue(c, m) ==> RowTrue(c', m)
    ensures FactsOk(FactsOf(c)) ==> FactsOk(FactsOf(c'))
  {
    forall id | id in FactsOf(c') && FactsOk(FactsOf(c)) ensures FactOk(id, FactsOf(c')[id]) {
      if id in c.orders { assert FactOk(id, FactsOf(c)[id]); } else { assert Newborn(id, c'.orders[id]); }
    }
  }

  lemma {:induction false} AnnouncedAll(c: Core, c': Core, id: Uuid)
    requires OutboxOk(c) && Kept(c, c') && Announced(c, c') && id in c'.orders
    ensures id in FactsOf(c') ==> FactsOf(c')[id] in c'.outbox
    ensures c'.orders[id].status == PendingCancel ==> CancelOf(id, c'.orders[id]) in c'.outbox
  {
    FactsKept(c, c');
    hide FactsOk, Ordered, RowTrue;
    assert c'.outbox[..|c.outbox|] == c.outbox;
    if id in FactsOf(c) { assert FactsOf(c)[id] in c'.outbox[..|c.outbox|]; }
    if id in c.orders && c'.orders[id] == c.orders[id] && c.orders[id].status == PendingCancel {
      assert CancelOf(id, c.orders[id]) in c'.outbox[..|c.outbox|];
    }
  }

  lemma {:induction false} OrderedOn(c: Core, c': Core)
    requires OutboxOk(c) && Announced(c, c')
    ensures Ordered(c'.outbox)
  {
    var n, b := |c.outbox|, c'.outbox;
    assert b[..n] == c.outbox;
    hide FactsOk, Announced, FactsOf, RowTrue;
    forall j | 0 <= j < |b| && b[j].CancelRequested? ensures AcceptedBefore(b, j, b[j].order) {
      if j < n {
        assert AcceptedBefore(c.outbox, j, c.outbox[j].order);
        var i :| 0 <= i < j && c.outbox[i].OrderAccepted? && c.outbox[i].order == b[j].order;
        assert b[i] == c.outbox[i];
      } else {
        AtMostOneMore(c, c');
        NewCancelAfter(c, c', j);
      }
    }
  }

  lemma {:induction false} AtMostOneMore(c: Core, c': Core)
    requires Announced(c, c')
    ensures |c'.outbox| <= |c.outbox| + 1
  {}

  lemma {:induction false} OutboxKept(c: Core, c': Core)
    requires OutboxOk(c) && Kept(c, c') && Announced(c, c')
    ensures OutboxOk(c')
  {
    assert FactsOk(FactsOf(c)) && Ordered(c'.outbox) by { OrderedOn(c, c'); }
    hide FactsOk, Kept, Announced, RowTrue, Ordered;
    FactsKept(c, c');
    forall k | 0 <= k < |c'.outbox| ensures RowTrue(c', c'.outbox[k]) { RowStays(c, c', k); }
    forall id | id in c'.orders
      ensures id in FactsOf(c') ==> FactsOf(c')[id] in c'.outbox
      ensures c'.orders[id].status == PendingCancel ==> CancelOf(id, c'.orders[id]) in c'.outbox
    {
      AnnouncedAll(c, c', id);
    }
  }

  lemma {:induction false} RowStays(c: Core, c': Core, k: nat)
    requires OutboxOk(c) && Kept(c, c') && Announced(c, c') && k < |c'.outbox|
    ensures RowTrue(c', c'.outbox[k])
  {
    FactsKept(c, c');
    hide FactsOf, Kept, RowTrue;
    if k < |c.outbox| { assert RowTrue(c, c.outbox[k]) && c'.outbox[k] == c.outbox[k]; }
  }

  lemma {:induction false} NewCancelAfter(c: Core, c': Core, j: nat)
    requires OutboxOk(c) && Announced(c, c') && j == |c.outbox| < |c'.outbox| && c'.outbox[j].CancelRequested?
    ensures AcceptedBefore(c'.outbox, j, c'.outbox[j].order)
  {
    var id := c'.outbox[j].order;
    assert FactsOf(c)[id] in c.outbox;
    var i :| 0 <= i < |c.outbox| && c.outbox[i] == FactsOf(c)[id];
    assert c'.outbox[i] == c.outbox[i];
  }

  lemma {:induction false} LogKept(cfg: M.ShardConfig, p: Plant, c': Core)
    requires LogOk(cfg, p) && OutboxOk(p.core) && Kept(p.core, c') && Announced(p.core, c')
    ensures LogOk(cfg, p.(core := c'))
  {
    FactsKept(p.core, c');
    assert OutboxOk(c') by { OutboxKept(p.core, c'); }
    hide FactsOf, Kept, FactsOk, Ordered, InWindow, ProperConfig;
  }

  lemma {:induction false} NewbornSettled(p: Plant, id: Uuid, o: OrderRow)
    requires TakenInRange(p) && Newborn(id, o) && o.status != Rejected && id !in FactsOf(p.core)
    requires forall i :: 0 <= i < |p.outs| ==> OutTrue(FactsOf(p.core), FactsOf(p.core).Keys, p.outs[i])
    ensures RowSettled(p, id, o)
  {
    hide FilledOf, Finished, FactsOf, OutTrue;
    assert Taken(p, o.account) <= |p.outs|;
    Unheard(FactsOf(p.core), p.outs, Taken(p, o.account), id);
  }

  /** What the settled rows say is not touched by a client operation. */
  lemma {:induction false} RowsKept(cfg: M.ShardConfig, p: Plant, c': Core)
    requires LogOk(cfg, p) && DeskSide(cfg, p) && TakenInRange(p) && RowsSettled(p) && Kept(p.core, c')
    ensures RowsSettled(p.(core := c'))
  {
    hide FilledOf, Finished, LogOk, DeskSide, StoryOk, OutsOk, HalvesApart, M.Conclusive, OutTrue, StoryAfter,
      TakenInRange, Newborn;
    DeskSound(cfg, p);
    var p' := p.(core := c');
    forall id | id in FactsOf(c') ensures RowSettled(p', id, c'.orders[id]) {
      if id in p.core.orders {
        assert RowSettled(p, id, p.core.orders[id]) by { assert c'.orders[id].status != Rejected; }
      } else {
        NewbornSettled(p, id, c'.orders[id]);
      }
    }
  }

  lemma {:induction false} Unheard(facts: Facts, outs: seq<M.Outcome>, t: nat, id: Uuid)
    requires t <= |outs| && id !in facts && forall i :: 0 <= i < |outs| ==> OutTrue(facts, facts.Keys, outs[i])
    ensures FilledOf(outs[..t], id) == 0
  {
    forall i | 0 <= i < t ensures outs[..t][i].order != id { assert OutTrue(facts, facts.Keys, outs[i]); }
    FilledNone(outs[..t], id);
  }

  lemma {:induction false} EventsKept(p: Plant, c': Core)
    requires EventsTaken(p) && NoFillEvents(p.core, c')
    ensures EventsTaken(p.(core := c'))
  {
    var p' := p.(core := c');
    forall k | 0 <= k < |c'.txns| ensures EventTaken(p', c'.txns[k].event) {
      if k < |p.core.txns| {
        assert c'.txns[k] == p.core.txns[k] && EventTaken(p, p.core.txns[k].event);
      }
    }
  }

  lemma {:induction false} DoneKept(terms: Terms, p: Plant, a: Action)
    requires AllTidy(p.core) && TakenDone(p) && !a.Receive?
    ensures TakenDone(p.(core := Act(terms, p.core, a)))
  {
    hide Act, AllTidy, Done;
    forall j | 0 <= j < |p.outs| && j < Taken(p, p.outs[j].account) ensures Done(Act(terms, p.core, a), p.outs[j]) {
      ClientKeeps(terms, p.core, a, p.outs[j]);
    }
  }

  lemma {:induction false} StillInRange(p: Plant, p': Plant)
    requires TakenInRange(p) && p'.taken == p.taken && |p.outs| <= |p'.outs|
    ensures TakenInRange(p')
  {
    forall a ensures Taken(p', a) <= |p'.outs| { assert Taken(p, a) <= |p.outs|; }
  }

  lemma {:induction false} ClientCoreSide(cfg: M.ShardConfig, terms: Terms, p: Plant, a: Action)
    requires LogOk(cfg, p) && DeskSide(cfg, p) && CoreSide(p) && Sane(cfg, terms) && !a.Receive? && RealAction(a)
    ensures CoreSide(p.(core := Act(terms, p.core, a)))
  {
    var c' := Act(terms, p.core, a);
    assert Kept(p.core, c') && NoFillEvents(p.core, c') by {
      hide Kept, NoFillEvents, CoreSide, LogOk, DeskSide;
      ClientIs(terms, p.core, a);
    }
    hide Act, AllTidy, Funded, TakenInRange, RealAction, LogOk, DeskSide, RowsSettled, EventsTaken, TakenDone, AllAsked,
      Kept, Announced, NoFillEvents, ProperConfig;
    StillInRange(p, p.(core := c'));
    ActKeeps(terms, p.core, a);
    ClientTidy(terms, p.core, a);
    RowsKept(cfg, p, c');
    EventsKept(p, c');
    DoneKept(terms, p, a);
    AskedKept(p, c');
  }

  /** A client operation keeps the invariant. */
  lemma {:induction false} OperateKeeps(cfg: M.ShardConfig, terms: Terms, p: Plant, a: Action)
    requires PlantOk(cfg, p) && Sane(cfg, terms) && !a.Receive? && RealAction(a)
    ensures PlantOk(cfg, p.(core := Act(terms, p.core, a)))
  {
    var c' := Act(terms, p.core, a);
    ClientIs(terms, p.core, a);
    assert DeskSide(cfg, p.(core := c')) by { hide StoryAfter, Act; }
    hide Act, OutboxOk, LogOk, DeskSide, CoreSide, Kept, Announced, NoFillEvents, Sane, RealAction;
    OutboxKept(p.core, c');
    LogKept(cfg, p, c');
    ClientCoreSide(cfg, terms, p, a);
  }

  lemma {:induction false} AskedKept(p: Plant, c': Core)
    requires AllAsked(p) && Kept(p.core, c')
    ensures AllAsked(p.(core := c'))
  {}

  // ---- the relay ---------------------------------------------------------------------------------------------------

  lemma {:induction false} RelayRows(c: Core, log: seq<M.Inbound>, k: nat)
    requires k < |c.outbox| && RowTrue(c, c.outbox[k]) && forall j :: 0 <= j < |log| ==> RowTrue(c, log[j])
    ensures forall j :: 0 <= j < |log + [c.outbox[k]]| ==>
      RowTrue(c, (log + [c.outbox[k]])[j]) && RecordTrue(FactsOf(c), (log + [c.outbox[k]])[j])
  {
    hide RowTrue, RecordTrue, FactsOf;
    var all := log + [c.outbox[k]];
    forall j | 0 <= j < |all| ensures RowTrue(c, all[j]) && RecordTrue(FactsOf(c), all[j]) {
      assert RowTrue(c, all[j]) by { if j < |log| { assert all[j] == log[j]; } }
      RowRecords(c, all[j]);
    }
  }

  lemma {:induction false} RelaySent(c: Core, log: seq<M.Inbound>, k: nat, sent: nat)
    requires sent <= |c.outbox| && k < |c.outbox| && k <= sent && forall i :: 0 <= i < sent ==> c.outbox[i] in log
    ensures forall i :: 0 <= i < (if k == sent then k + 1 else sent) ==> c.outbox[i] in log + [c.outbox[k]]
  {
    var all := log + [c.outbox[k]];
    forall i | 0 <= i < (if k == sent then k + 1 else sent) ensures c.outbox[i] in all {
      if i < sent { assert c.outbox[i] in log; } else { assert all[|log|] == c.outbox[k]; }
    }
  }

  lemma {:induction false} RelayLog(cfg: M.ShardConfig, p: Plant, k: nat, sent: nat)
    requires OutboxOk(p.core) && LogOk(cfg, p) && k < |p.core.outbox| && k <= p.sent
    requires sent == (if k == p.sent then k + 1 else p.sent)
    requires InWindow(p.inbound + [p.core.outbox[k]], cfg.dedupWindow)
    ensures LogOk(cfg, p.(inbound := p.inbound + [p.core.outbox[k]], sent := sent))
  {
    assert RowTrue(p.core, p.core.outbox[k]);
    hide FactsOf, RowTrue, RecordTrue, FactsOk, InWindow, Ordered, ProperConfig;
    RelayOrdered(p, k);
    RelayRows(p.core, p.inbound, k);
    RelaySent(p.core, p.inbound, k, p.sent);
  }

  /** Publishing the next row, or an earlier one again, keeps the invariant. */
  lemma {:induction false} RelayKeeps(cfg: M.ShardConfig, p: Plant, k: nat)
    requires PlantOk(cfg, p) && k < |p.core.outbox| && k <= p.sent && InWindow(Relayed(p, k).inbound, cfg.dedupWindow)
    ensures PlantOk(cfg, Relayed(p, k))
  {
    var p' := Relayed(p, k);
    hide OutboxOk, CoreSide, StoryAfter, InWindow, LogOk;
    assert p'.inbound[..p.read] == p.inbound[..p.read] && Grown(p, p', []);
    RelayLog(cfg, p, k, p'.sent);
    MoreOuts(p, p', []);
  }

  lemma {:induction false} RowRecords(c: Core, m: M.Inbound)
    requires RowTrue(c, m)
    ensures RecordTrue(FactsOf(c), m)
  {}

  lemma {:induction false} RelayOrdered(p: Plant, k: nat)
    requires Ordered(p.inbound) && Ordered(p.core.outbox) && k < |p.core.outbox| && k <= p.sent
    requires forall i :: 0 <= i < p.sent && i < |p.core.outbox| ==> p.core.outbox[i] in p.inbound
    ensures Ordered(p.inbound + [p.core.outbox[k]])
  {
    var log, n := p.inbound + [p.core.outbox[k]], |p.inbound|;
    forall j | 0 <= j < |log| && log[j].CancelRequested? ensures AcceptedBefore(log, j, log[j].order) {
      if j < n {
        assert AcceptedBefore(p.inbound, j, p.inbound[j].order);
        var i :| 0 <= i < j && p.inbound[i].OrderAccepted? && p.inbound[i].order == log[j].order;
        assert log[i] == p.inbound[i];
      } else {
        assert AcceptedBefore(p.core.outbox, k, log[j].order);
        var i :| 0 <= i < k && p.core.outbox[i].OrderAccepted? && p.core.outbox[i].order == log[j].order;
        var l :| 0 <= l < n && p.inbound[l] == p.core.outbox[i];
        assert log[l] == p.inbound[l];
      }
    }
  }

  // ---- matching ----------------------------------------------------------------------------------------------------

  /** The stream has grown; the core and what it has taken in have not changed. */
  ghost predicate Grown(p: Plant, p': Plant, news: seq<M.Outcome>)
  {
    p'.core == p.core && p'.taken == p.taken && p'.outs == p.outs + news
  }

  lemma {:induction false} MoreOuts(p: Plant, p': Plant, news: seq<M.Outcome>)
    requires CoreSide(p) && Grown(p, p', news)
    requires forall i :: 0 <= i < |news| && news[i].CancelOutcome? ==>
      news[i].order in p.core.orders && Closing(p.core.orders[news[i].order].status)
    ensures CoreSide(p')
  {
    StillInRange(p, p');
    RowsAmongMore(p, p', news);
    EventsAmongMore(p, p', news);
    DoneAmongMore(p, p', news);
    AskedAmongMore(p, p', news);
    hide AllTidy, Funded, TakenInRange, RowsSettled, EventsTaken, TakenDone, AllAsked;
  }

  lemma {:induction false} AskedAmongMore(p: Plant, p': Plant, news: seq<M.Outcome>)
    requires AllAsked(p) && Grown(p, p', news)
    requires forall i :: 0 <= i < |news| && news[i].CancelOutcome? ==>
      news[i].order in p.core.orders && Closing(p.core.orders[news[i].order].status)
    ensures AllAsked(p')
  {
    forall i | 0 <= i < |p'.outs| && p'.outs[i].CancelOutcome?
      ensures p'.outs[i].order in p.core.orders && Closing(p.core.orders[p'.outs[i].order].status)
    {
      if i >= |p.outs| { assert p'.outs[i] == news[i - |p.outs|]; } else { assert p'.outs[i] == p.outs[i]; }
    }
  }

  lemma {:induction false} RowsAmongMore(p: Plant, p': Plant, news: seq<M.Outcome>)
    requires RowsSettled(p) && Grown(p, p', news)
    ensures RowsSettled(p')
  {
    hide FilledOf, Finished;
    forall id | id in FactsOf(p'.core) ensures RowSettled(p', id, p'.core.orders[id]) {
      assert RowSettled(p, id, p.core.orders[id]);
      var t := Taken(p, p.core.orders[id].account);
      assert p'.outs[..t] == p.outs[..t];
    }
  }

  lemma {:induction false} EventsAmongMore(p: Plant, p': Plant, news: seq<M.Outcome>)
    requires EventsTaken(p) && Grown(p, p', news)
    ensures EventsTaken(p')
  {
    forall k | 0 <= k < |p'.core.txns| ensures EventTaken(p', p'.core.txns[k].event) {
      var e := p.core.txns[k].event;
      assert EventTaken(p, e);
      if e.FillEvent? {
        var i :| 0 <= i < |p.outs| && p.outs[i].FillHalf? && p.outs[i].eventId == e && i < Taken(p, p.outs[i].account);
        assert p'.outs[i] == p.outs[i];
      }
    }
  }

  lemma {:induction false} DoneAmongMore(p: Plant, p': Plant, news: seq<M.Outcome>)
    requires TakenDone(p) && TakenInRange(p) && Grown(p, p', news)
    ensures TakenDone(p')
  {
    hide Done;
    forall j | 0 <= j < |p'.outs| && j < Taken(p', p'.outs[j].account) ensures Done(p'.core, p'.outs[j]) {
      assert Taken(p, p'.outs[j].account) <= |p.outs|;
      assert p'.outs[j] == p.outs[j];
    }
  }

  /** A cancel verdict is said only in answer to a cancel. */
  lemma {:induction false} OnlyCancelsAnswer(cfg: M.ShardConfig, st: M.Shard, m: M.Inbound, i: nat)
    requires i < |M.Handle(cfg, st, m).1| && M.Handle(cfg, st, m).1[i].CancelOutcome?
    ensures m.CancelRequested? && M.Handle(cfg, st, m).1[i].order == m.order
  {
    hide M.Place, M.CancelIn, M.VenueBooks;
    if m.OrderAccepted? && !st.seen.Has(m.order) {
      var fills := M.Place(cfg, m, M.VenueBooks(cfg, m.symbol, M.At(st.books, m.symbol))).fills;
      if i < |M.HalvesOf(fills, m.symbol)| { var k, role := HalfAt(fills, m.symbol, i); }
    }
  }

  lemma {:induction false} NewsAsked(cfg: M.ShardConfig, p: Plant, i: nat)
    requires LogOk(cfg, p) && p.read < |p.inbound|
    requires var news := M.Handle(cfg, p.shard, p.inbound[p.read]).1; i < |news| && news[i].CancelOutcome?
    ensures var id := M.Handle(cfg, p.shard, p.inbound[p.read]).1[i].order;
      id in p.core.orders && Closing(p.core.orders[id].status)
  {
    hide M.Handle, LogTrue;
    assert RowTrue(p.core, p.inbound[p.read]);
    OnlyCancelsAnswer(cfg, p.shard, p.inbound[p.read], i);
  }

  lemma {:induction false} DeskOn(cfg: M.ShardConfig, p: Plant)
    requires DeskSide(cfg, p) && p.read < |p.inbound|
    ensures DeskSide(cfg, Handled(cfg, p))
  {
    hide StoryAfter, Told, M.Handle;
    StoryStep(cfg, p.inbound, p.read);
    ToldIs(cfg, StoryAfter(cfg, p.inbound[..p.read]), p.inbound[p.read]);
  }

  lemma {:induction false} HandledIs(cfg: M.ShardConfig, p: Plant)
    requires p.read < |p.inbound|
    ensures var p' := Handled(cfg, p);
      p'.core == p.core && p'.inbound == p.inbound && p'.sent == p.sent
        && Grown(p, p', M.Handle(cfg, p.shard, p.inbound[p.read]).1)
  {
    hide M.Handle;
  }

  /** Handling the next record keeps the invariant, be it a new order, a copy or a cancel. */
  lemma {:induction false} MatchKeeps(cfg: M.ShardConfig, p: Plant)
    requires PlantOk(cfg, p) && p.read < |p.inbound|
    ensures PlantOk(cfg, Handled(cfg, p))
  {
    var news := M.Handle(cfg, p.shard, p.inbound[p.read]).1;
    hide M.Handle, Handled, Grown, CoreSide, LogOk, OutboxOk, DeskSide, FactsOf;
    HandledIs(cfg, p);
    forall i | 0 <= i < |news| && news[i].CancelOutcome?
      ensures news[i].order in p.core.orders && Closing(p.core.orders[news[i].order].status)
    {
      NewsAsked(cfg, p, i);
    }
    DeskOn(cfg, p);
    MoreOuts(p, Handled(cfg, p), news);
    SameLog(cfg, p, Handled(cfg, p));
  }

  lemma {:induction false} SameLog(cfg: M.ShardConfig, p: Plant, p': Plant)
    requires LogOk(cfg, p) && p'.core == p.core && p'.inbound == p.inbound && p'.sent == p.sent
    ensures LogOk(cfg, p')
  {}
}
