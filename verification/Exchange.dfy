/** Settlement in the exchange of Protocol, its invariant over whole runs, and what a terminal order, a cancel's verdict
    and
    an exchange at rest amount to. */
module Exchange {
  import opened Types
  import opened Ledger
  import opened Funding
  import opened Desk
  import opened DeskRuns
  import opened DeskLogs
  import opened ExactlyOnce
  import opened Protocol
  import Costing
  import M = Matching
  import Money

  // ---- settling -----------------------------------------------------------------------------------------------------

  lemma {:induction false} TakenInIs(terms: Terms, p: Plant, j: nat)
    requires j < |p.outs| && ApplyOutcome(terms, p.core, j, p.outs[j]).Commit?
    ensures TakenIn(terms, p, j) ==
      p.(core := ApplyOutcome(terms, p.core, j, p.outs[j]).core, taken := p.taken[p.outs[j].account := j + 1])
  {
    hide ApplyOutcome;
  }

  /** An account's next outcome not taken in yet. */
  ghost predicate NextUp(p: Plant, j: nat)
  {
    && j < |p.outs| && Taken(p, p.outs[j].account) <= j
    && forall k :: Taken(p, p.outs[j].account) <= k < j ==> p.outs[k].account != p.outs[j].account
  }

  /** One order's row moves on: fills added, a status in keeping with the old one. */
  ghost predicate Advanced(c: Core, c': Core, id: Uuid)
  {
    && id in c.orders && id in c'.orders && c'.orders == c.orders[id := c'.orders[id]] && c'.outbox == c.outbox
    && var o, o' := c.orders[id], c'.orders[id];
    && o' == o.(filledQty := o'.filledQty, filledNotional := o'.filledNotional, status := o'.status)
    && (o.status == Rejected <==> o'.status == Rejected) && (Closing(o.status) ==> Closing(o'.status))
    && (o'.status == PendingCancel ==> o.status == PendingCancel)
  }

  lemma {:induction false} AdvancedFacts(c: Core, c': Core, id: Uuid)
    requires Advanced(c, c', id)
    ensures FactsOf(c') == FactsOf(c)
    ensures forall m :: RowTrue(c, m) ==> RowTrue(c', m)
    ensures OutboxOk(c) ==> OutboxOk(c')
  {
    forall x | x in FactsOf(c) ensures x in FactsOf(c') && FactsOf(c')[x] == FactsOf(c)[x] {}
    assert FactsOf(c') == FactsOf(c);
    hide FactsOk, Ordered;
    if OutboxOk(c) {
      forall x | x in c'.orders && c'.orders[x].status == PendingCancel ensures CancelOf(x, c'.orders[x]) in c'.outbox {
        assert CancelOf(x, c.orders[x]) in c.outbox;
      }
    }
  }

  lemma {:induction false} AdvancedLog(cfg: M.ShardConfig, p: Plant, p': Plant, id: Uuid)
    requires LogOk(cfg, p) && DeskSide(cfg, p) && Advanced(p.core, p'.core, id)
    requires p' == p.(core := p'.core, taken := p'.taken)
    ensures LogOk(cfg, p') && DeskSide(cfg, p')
  {
    AdvancedFacts(p.core, p'.core, id);
    hide FactsOf, RowTrue, LogTrue, StoryAfter, Advanced;
    assert p'.core.outbox == p.core.outbox by { SameOutbox(p.core, p'.core, id); }
  }

  lemma {:induction false} SameOutbox(c: Core, c': Core, id: Uuid)
    requires Advanced(c, c', id)
    ensures c'.outbox == c.outbox
  {}

  lemma {:induction false} AdvancedAsked(p: Plant, p': Plant, id: Uuid)
    requires AllAsked(p) && Advanced(p.core, p'.core, id) && p'.outs == p.outs
    ensures AllAsked(p')
  {}

  /** What the core knows of an outcome the desk has said. */
  lemma {:induction false} OutKnownToCore(cfg: M.ShardConfig, p: Plant, j: nat)
    requires LogOk(cfg, p) && DeskSide(cfg, p) && AllAsked(p) && j < |p.outs|
    ensures var m := p.outs[j];
      && Answers(p.core, m) && Addressed(p.core, m) && m.order in FactsOf(p.core)
      && p.core.orders[m.order].account == m.account
      && (m.FillHalf? ==> m.qty > 0)
  {
    DeskSound(cfg, p);
    assert OutTrue(FactsOf(p.core), FactsOf(p.core).Keys, p.outs[j]);
    hide LogOk, DeskSide, StoryOk, OutsOk, HalvesApart, M.Conclusive;
  }

  lemma {:induction false} OverAfter(outs: seq<M.Outcome>, t: nat, j: nat, id: Uuid)
    requires t <= j < |outs|
    requires forall k :: t <= k < j ==> outs[k].order != id
    ensures FilledOf(outs[..j + 1], id) == FilledOf(outs[..t], id) +
      if outs[j].FillHalf? && outs[j].order == id then outs[j].qty else 0
    ensures Finished(outs[..t], id) ==> Finished(outs[..j + 1], id)
    ensures M.Final(outs[j]) && outs[j].order == id ==> Finished(outs[..j + 1], id)
  {
    assert outs[..j + 1] == outs[..t] + (outs[t..j] + [outs[j]]);
    hide FilledOf, Finished;
    FilledJoin(outs[..t], outs[t..j] + [outs[j]], id);
    FilledJoin(outs[t..j], [outs[j]], id);
    FilledNone(outs[t..j], id);
    OneFilled(outs[j], id);
    if Finished(outs[..t], id) { FinishedLater(outs, t, j + 1, id); }
    if M.Final(outs[j]) && outs[j].order == id { FinishedAt(outs, j, id); }
  }

  lemma {:induction false} FinishedAt(outs: seq<M.Outcome>, j: nat, id: Uuid)
    requires j < |outs| && M.Final(outs[j]) && outs[j].order == id
    ensures Finished(outs[..j + 1], id)
  {
    assert outs[..j + 1][j] == outs[j];
  }

  /** The row of an order of the account, cut at its next outcome. */
  lemma {:induction false} RowThrough(cfg: M.ShardConfig, p: Plant, j: nat, id: Uuid)
    requires LogOk(cfg, p) && DeskSide(cfg, p) && AllAsked(p) && RowsSettled(p) && j < |p.outs| && NextUp(p, j)
    requires id in FactsOf(p.core) && p.core.orders[id].account == p.outs[j].account
    ensures var o, now := p.core.orders[id], p.outs[..j + 1];
      && FilledOf(now, id) == o.filledQty + (if p.outs[j].FillHalf? && p.outs[j].order == id then p.outs[j].qty else 0)
      && (Terminal(o.status) ==> o.filledQty >= o.qty || Finished(now, id))
      && (M.Final(p.outs[j]) && p.outs[j].order == id ==> Finished(now, id))
  {
    var t := Taken(p, p.outs[j].account);
    forall k | t <= k < j ensures p.outs[k].order != id { OutKnownToCore(cfg, p, k); }
    assert RowSettled(p, id, p.core.orders[id]);
    hide LogOk, DeskSide, AllAsked, FilledOf, Finished;
    OverAfter(p.outs, t, j, id);
  }

  ghost predicate MovesOn(p: Plant, p': Plant, j: nat)
    requires j < |p.outs|
  {
    p'.outs == p.outs && p'.taken == p.taken[p.outs[j].account := j + 1] && Advanced(p.core, p'.core, p.outs[j].order)
  }

  lemma {:induction false} OtherRow(cfg: M.ShardConfig, p: Plant, p': Plant, j: nat, id: Uuid)
    requires LogOk(cfg, p) && DeskSide(cfg, p) && AllAsked(p) && RowsSettled(p) && j < |p.outs| && NextUp(p, j)
    requires MovesOn(p, p', j)
    requires id in p.core.orders && id != p.outs[j].order && id in FactsOf(p.core)
    requires RowSettled(p, id, p.core.orders[id])
    ensures id in p'.core.orders && RowSettled(p', id, p'.core.orders[id])
  {
    hide FilledOf, Finished, LogOk, DeskSide, AllAsked, FactsOf, RowsSettled;
    if p.core.orders[id].account == p.outs[j].account { RowThrough(cfg, p, j, id); }
  }

  /** Every row is settled through the account's new cut, if the outcome's own row is. */
  lemma {:induction false} RowsTakenIn(cfg: M.ShardConfig, p: Plant, p': Plant, j: nat)
    requires LogOk(cfg, p) && DeskSide(cfg, p) && AllAsked(p) && RowsSettled(p) && j < |p.outs| && NextUp(p, j)
    requires MovesOn(p, p', j)
    requires var id := p.outs[j].order; id in FactsOf(p.core) && RowSettled(p', id, p'.core.orders[id])
    ensures RowsSettled(p')
  {
    hide FilledOf, Finished, LogOk, DeskSide, AllAsked, RowTrue, OutboxOk, NextUp;
    AdvancedFacts(p.core, p'.core, p.outs[j].order);
    forall id | id in FactsOf(p'.core) ensures RowSettled(p', id, p'.core.orders[id]) {
      if id != p.outs[j].order {
        assert RowSettled(p, id, p.core.orders[id]);
        OtherRow(cfg, p, p', j, id);
      }
    }
  }

  lemma {:induction false} RangeTakenIn(p: Plant, p': Plant, j: nat)
    requires TakenInRange(p) && j < |p.outs| && NextUp(p, j) && p'.outs == p.outs
    requires p'.taken == p.taken[p.outs[j].account := j + 1]
    ensures TakenInRange(p')
    ensures forall a :: Taken(p, a) <= Taken(p', a)
  {
    forall a ensures Taken(p', a) <= |p'.outs| && Taken(p, a) <= Taken(p', a) { assert Taken(p, a) <= |p.outs|; }
  }

  /** Earlier outcomes stay taken in, the next one is. */
  lemma {:induction false} DoneTakenIn(cfg: M.ShardConfig, terms: Terms, p: Plant, j: nat)
    requires LogOk(cfg, p) && DeskSide(cfg, p) && CoreSide(p) && j < |p.outs| && NextUp(p, j)
    requires ApplyOutcome(terms, p.core, j, p.outs[j]).Commit?
    ensures TakenDone(TakenIn(terms, p, j)) && AllTidy(TakenIn(terms, p, j).core)
  {
    var m, p' := p.outs[j], TakenIn(terms, p, j);
    assert AllAsked(p) && TakenDone(p) && AllTidy(p.core);
    TakenInIs(terms, p, j);
    hide LogOk, DeskSide, CoreSide, AllTidy, ApplyOutcome, Done, Answers, Addressed, FactsOf, AllAsked, TakenIn;
    OutKnownToCore(cfg, p, j);
    if m.FillHalf? { HalfDone(terms, p.core, j, m); } else { VerdictDone(terms, p.core, j, m); }
    forall i | 0 <= i < |p.outs| && i < Taken(p', p.outs[i].account) ensures Done(p'.core, p.outs[i]) {
      if i != j {
        assert i < Taken(p, p.outs[i].account) && Done(p.core, p.outs[i]);
        EarlierTakenIn(cfg, terms, p, i, j);
      }
    }
  }

  lemma {:induction false} EarlierTakenIn(cfg: M.ShardConfig, terms: Terms, p: Plant, i: nat, j: nat)
    requires LogOk(cfg, p) && DeskSide(cfg, p) && CoreSide(p) && j < |p.outs| && NextUp(p, j)
    requires i < |p.outs| && i < Taken(p, p.outs[i].account) && Done(p.core, p.outs[i])
    ensures Done(After(p.core, ApplyOutcome(terms, p.core, j, p.outs[j])), p.outs[i])
  {
    var m := p.outs[j];
    OutKnownToCore(cfg, p, j);
    OutKnownToCore(cfg, p, i);
    DeskSound(cfg, p);
    hide LogOk, DeskSide, AllTidy, Funded, RowsSettled, EventsTaken, ApplyOutcome, Done, OutsOk, StoryOk, HalvesApart,
      OutTrue, FactsOf, Addressed;
    if m.FillHalf? {
      assert p.outs[i].order == m.order ==> i < j;
      StaysDoneAfterHalf(terms, p.core, j, m, p.outs[i]);
    } else {
      StaysDoneAfterVerdict(terms, p.core, j, m, p.outs[i]);
    }
  }

  // ---- settling: a half
  // ------------------------------------------------------------------------------------------------

  lemma {:induction false} HalfRow(c: Core, m: M.Outcome, notional: int, fee: int)
    requires m.FillHalf? && m.account in c.clocks && m.order in c.orders && SettleHalf(c, m, notional, fee).Commit?
    ensures var c', o := SettleHalf(c, m, notional, fee).core, c.orders[m.order];
      && c'.orders == c.orders[m.order :=
           o.(filledQty := o.filledQty + m.qty, filledNotional := o.filledNotional + notional,
                                           status := FilledStatus(o, m.qty))]
      && c'.outbox == c.outbox && |c'.txns| == |c.txns| + 1 && c.txns <= c'.txns && c'.txns[|c.txns|].event == m.eventId
  {
    hide Posted, Moved, HalfFillLegs, Costing.SettleRow, ApplyBuy, ApplySell;
  }

  /** A half met for the first time, of an order that is not over. */
  lemma {:induction false} NewHalfIs(terms: Terms, c: Core, i: nat, m: M.Outcome)
    requires m.FillHalf? && ApplyFillHalf(terms, c, i, m).Commit? && !HasEvent(c.txns, m.eventId)
    requires m.order in c.orders && !Terminal(c.orders[m.order].status)
    ensures var c' := ApplyFillHalf(terms, c, i, m).core;
      && Advanced(c, c', m.order) && c'.orders[m.order].filledQty == c.orders[m.order].filledQty + m.qty
      && (Terminal(c'.orders[m.order].status) ==> c'.orders[m.order].filledQty >= c.orders[m.order].qty)
      && |c'.txns| == |c.txns| + 1 && c.txns <= c'.txns && c'.txns[|c.txns|].event == m.eventId
  {
    hide Costing.ChargeFor, Money.Notional, SettleHalf, HasEvent;
    var ch := Costing.ChargeFor(m.qty, m.price, c.orders[m.order].filledNotional, FeeRate(terms, m.role));
    HalfRow(c.(offset := i + 1), m, ch.notional, ch.fee);
  }

  lemma {:induction false} HalfIsNew(cfg: M.ShardConfig, p: Plant, j: nat)
    requires LogOk(cfg, p) && DeskSide(cfg, p) && EventsTaken(p) && j < |p.outs| && NextUp(p, j) && p.outs[j].FillHalf?
    ensures !HasEvent(p.core.txns, p.outs[j].eventId)
  {
    DeskSound(cfg, p);
    HalfEvents(cfg, p, j);
    hide LogOk, DeskSide, StoryOk, OutsOk, M.Conclusive, FactsOf, HalvesApart, EventTaken, NextUp;
    forall k | 0 <= k < |p.core.txns| ensures p.core.txns[k].event != p.outs[j].eventId {
      assert EventTaken(p, p.core.txns[k].event);
      OtherEvent(p, j, p.core.txns[k].event);
    }
  }

  lemma {:induction false} OtherEvent(p: Plant, j: nat, e: EventId)
    requires HalvesApart(p.outs) && EventTaken(p, e) && j < |p.outs| && NextUp(p, j) && p.outs[j].FillHalf?
    requires p.outs[j].eventId.FillEvent?
    ensures e != p.outs[j].eventId
  {
    if e.FillEvent? {
      var i :| 0 <= i < |p.outs| && p.outs[i].FillHalf? && p.outs[i].eventId == e && i < Taken(p, p.outs[i].account);
      assert i != j;
      assert i < j || j < i;
    }
  }

  lemma {:induction false} HalfEvents(cfg: M.ShardConfig, p: Plant, j: nat)
    requires LogOk(cfg, p) && DeskSide(cfg, p) && j < |p.outs| && p.outs[j].FillHalf?
    ensures p.outs[j].eventId.FillEvent?
  {
    LogPrefix(cfg, FactsOf(p.core), p.inbound, p.read);
    StreamSound(cfg, FactsOf(p.core), p.inbound[..p.read]);
    hide LogTrue, StoryAfter, FactsOf, RowTrue, HalvesApart, M.Conclusive, OutTrue;
  }

  /** The row of an order still to be filled is not over. */
  lemma {:induction false} HalfFindsOpen(cfg: M.ShardConfig, p: Plant, j: nat)
    requires LogOk(cfg, p) && DeskSide(cfg, p) && RowsSettled(p) && AllAsked(p) && TakenInRange(p) && j < |p.outs|
    requires NextUp(p, j) && p.outs[j].FillHalf?
    requires p.outs[j].order in p.core.orders
    ensures !Terminal(p.core.orders[p.outs[j].order].status)
  {
    var id := p.outs[j].order;
    OutKnownToCore(cfg, p, j);
    DeskSound(cfg, p);
    assert RowSettled(p, id, p.core.orders[id]);
    hide LogOk, DeskSide, StoryOk, FilledOf, Finished, HalvesApart, OutTrue, OutsOk, StoryAfter, AllAsked, Addressed,
      Answers;
    if Terminal(p.core.orders[id].status) {
      OverInStream(FactsOf(p.core), StoryAfter(cfg, p.inbound[..p.read]), Taken(p, p.outs[j].account), id);
    }
  }

  lemma {:induction false} EventsTakenIn(p: Plant, p': Plant, j: nat)
    requires EventsTaken(p) && TakenInRange(p) && j < |p.outs| && NextUp(p, j) && p.outs[j].FillHalf?
    requires p'.outs == p.outs && p'.taken == p.taken[p.outs[j].account := j + 1]
    requires p.core.txns <= p'.core.txns && |p'.core.txns| <= |p.core.txns| + 1
    requires |p'.core.txns| > |p.core.txns| ==> p'.core.txns[|p.core.txns|].event == p.outs[j].eventId
    ensures EventsTaken(p')
  {
    RangeTakenIn(p, p', j);
    forall k | 0 <= k < |p'.core.txns| ensures EventTaken(p', p'.core.txns[k].event) {
      if k < |p.core.txns| {
        assert EventTaken(p, p.core.txns[k].event) && p'.core.txns[k] == p.core.txns[k];
      } else {
        assert p'.outs[j].eventId == p'.core.txns[k].event && j < Taken(p', p'.outs[j].account);
      }
    }
  }

  /** What a half does to its own row and the transactions. */
  lemma {:induction false} HalfTaken(cfg: M.ShardConfig, terms: Terms, p: Plant, j: nat)
    requires LogOk(cfg, p) && DeskSide(cfg, p) && CoreSide(p) && j < |p.outs| && NextUp(p, j)
    requires p.outs[j].FillHalf? && ApplyOutcome(terms, p.core, j, p.outs[j]).Commit?
    ensures var m, c, c' := p.outs[j], p.core, TakenIn(terms, p, j).core;
      && Advanced(c, c', m.order) && c'.orders[m.order].filledQty == c.orders[m.order].filledQty + m.qty
      && !Terminal(c.orders[m.order].status)
      && (Terminal(c'.orders[m.order].status) ==> c'.orders[m.order].filledQty >= c.orders[m.order].qty)
      && |c'.txns| == |c.txns| + 1 && c.txns <= c'.txns && c'.txns[|c.txns|].event == m.eventId
  {
    TakenInIs(terms, p, j);
    hide AllTidy, Funded, LogOk, DeskSide, TakenInRange, RowsSettled, EventsTaken, TakenDone, AllAsked, Answers,
      Addressed, FactsOf, Advanced, ApplyFillHalf;
    OutKnownToCore(cfg, p, j);
    InOrders(p.core, p.outs[j].order);
    HalfIsNew(cfg, p, j);
    HalfFindsOpen(cfg, p, j);
    NewHalfIs(terms, p.core, j, p.outs[j]);
  }

  lemma {:induction false} SettleHalfKeeps(cfg: M.ShardConfig, terms: Terms, p: Plant, j: nat)
    requires PlantOk(cfg, p) && Sane(cfg, terms) && j < |p.outs| && NextUp(p, j) && p.outs[j].FillHalf?
    requires ApplyOutcome(terms, p.core, j, p.outs[j]).Commit?
    ensures PlantOk(cfg, TakenIn(terms, p, j))
  {
    hide ApplyOutcome, ProperConfig, OutboxOk, LogOk, DeskSide, AllTidy, Funded, TakenInRange, RowsSettled, EventsTaken,
      TakenDone, AllAsked, NextUp,
      TakenIn, Advanced;
    HalfTaken(cfg, terms, p, j);
    TakenInIs(terms, p, j);
    RestOfSettling(cfg, terms, p, j);
    HalfRows(cfg, p, TakenIn(terms, p, j), j);
    EventsTakenIn(p, TakenIn(terms, p, j), j);
  }

  lemma {:induction false} HalfRows(cfg: M.ShardConfig, p: Plant, p': Plant, j: nat)
    requires LogOk(cfg, p) && DeskSide(cfg, p) && AllAsked(p) && RowsSettled(p) && j < |p.outs| && NextUp(p, j)
    requires MovesOn(p, p', j) && p.outs[j].FillHalf?
    requires var o, o' := p.core.orders[p.outs[j].order], p'.core.orders[p.outs[j].order];
      o'.filledQty == o.filledQty + p.outs[j].qty && (Terminal(o'.status) ==> o'.filledQty >= o.qty)
    ensures RowsSettled(p')
  {
    var id := p.outs[j].order;
    hide LogOk, DeskSide, AllAsked, RowsSettled, FilledOf, Finished, FactsOf, Answers, Addressed;
    OutKnownToCore(cfg, p, j);
    RowThrough(cfg, p, j, id);
    hide NextUp;
    OwnRow(p, p', j);
    RowsTakenIn(cfg, p, p', j);
  }

  lemma {:induction false} InOrders(c: Core, id: Uuid)
    requires id in FactsOf(c)
    ensures id in c.orders && FactsOf(c)[id] == MessageOf(id, c.orders[id])
  {}

  lemma {:induction false} OwnRow(p: Plant, p': Plant, j: nat)
    requires j < |p.outs| && NextUp(p, j) && MovesOn(p, p', j)
    requires p.outs[j].order in p.core.orders && p.core.orders[p.outs[j].order].account == p.outs[j].account
    requires var o, id := p'.core.orders[p.outs[j].order], p.outs[j].order;
      FilledOf(p.outs[..j + 1], id) == o.filledQty
        && (Terminal(o.status) ==> o.filledQty >= o.qty || Finished(p.outs[..j + 1], id))
    ensures RowSettled(p', p.outs[j].order, p'.core.orders[p.outs[j].order])
  {
    hide FilledOf, Finished;
  }

  lemma {:induction false} FundedTakenIn(terms: Terms, c: Core, j: nat, m: M.Outcome)
    requires Funded(c) && Addressed(c, m) && terms.takerBps <= Money.BPS && terms.makerBps <= Money.BPS
    requires ApplyOutcome(terms, c, j, m).Commit?
    ensures Funded(ApplyOutcome(terms, c, j, m).core)
  {
    hide Funded, Addressed, ApplyOutcome;
    ActKeeps(terms, c, Receive(j, m));
  }

  /** What is kept alike for halves and verdicts. */
  lemma {:induction false} RestOfSettling(cfg: M.ShardConfig, terms: Terms, p: Plant, j: nat)
    requires OutboxOk(p.core) && LogOk(cfg, p) && DeskSide(cfg, p) && CoreSide(p)
    requires terms.takerBps <= Money.BPS && terms.makerBps <= Money.BPS && j < |p.outs| && NextUp(p, j)
    requires ApplyOutcome(terms, p.core, j, p.outs[j]).Commit?
    requires Advanced(p.core, TakenIn(terms, p, j).core, p.outs[j].order)
    ensures var p' := TakenIn(terms, p, j);
      && OutboxOk(p'.core) && LogOk(cfg, p') && DeskSide(cfg, p') && AllTidy(p'.core) && Funded(p'.core)
      && TakenInRange(p')
      && TakenDone(p') && AllAsked(p')
  {
    var m, p' := p.outs[j], TakenIn(terms, p, j);
    TakenInIs(terms, p, j);
    assert Funded(p.core) && TakenInRange(p) && AllAsked(p);
    hide *;
    OutKnownToCore(cfg, p, j);
    AdvancedFacts(p.core, p'.core, m.order);
    AdvancedLog(cfg, p, p', m.order);
    AdvancedAsked(p, p', m.order);
    RangeTakenIn(p, p', j);
    DoneTakenIn(cfg, terms, p, j);
    FundedTakenIn(terms, p.core, j, m);
  }

  // ---- settling: a verdict
  // ---------------------------------------------------------------------------------------------

  lemma {:induction false} VerdictRow(terms: Terms, c: Core, i: nat, m: M.Outcome)
    requires !m.FillHalf? && m.order in c.orders && c.orders[m.order].status != Rejected && Answers(c, m)
    requires ApplyOutcome(terms, c, i, m).Commit?
    ensures var c' := ApplyOutcome(terms, c, i, m).core;
      && Advanced(c, c', m.order) && c'.txns == c.txns && c'.orders[m.order].filledQty == c.orders[m.order].filledQty
      && (Terminal(c'.orders[m.order].status) ==> Terminal(c.orders[m.order].status) || M.Final(m))
  {
    hide ApplyOutcome, Release;
    var o := c.orders[m.order];
    var c1 := c.(offset := i + 1, orders := c.orders[m.order := o.(status := NewStatus(o, m))]);
    VerdictIs(terms, c, i, m);
    ReleaseQuiet(c1, m.order);
    ReleaseOutbox(c1, m.order);
    assert c1.orders[m.order := c1.orders[m.order]] == c1.orders;
  }

  lemma {:induction false} ReleaseOutbox(c: Core, id: Uuid)
    ensures Release(c, id).outbox == c.outbox
  {}

  lemma {:induction false} SettleVerdictKeeps(cfg: M.ShardConfig, terms: Terms, p: Plant, j: nat)
    requires PlantOk(cfg, p) && Sane(cfg, terms) && j < |p.outs| && NextUp(p, j) && !p.outs[j].FillHalf?
    requires ApplyOutcome(terms, p.core, j, p.outs[j]).Commit?
    ensures PlantOk(cfg, TakenIn(terms, p, j))
  {
    var m, p' := p.outs[j], TakenIn(terms, p, j);
    TakenInIs(terms, p, j);
    hide AllTidy, Funded, OutboxOk, LogOk, DeskSide, TakenInRange, RowsSettled, EventsTaken, TakenDone, AllAsked,
      ApplyOutcome, Answers, Addressed, ProperConfig,
      Done, Advanced, NextUp, TakenIn;
    OutKnownToCore(cfg, p, j);
    VerdictRow(terms, p.core, j, m);
    RowThrough(cfg, p, j, m.order);
    hide FactsOf;
    OwnRow(p, p', j);
    RowsTakenIn(cfg, p, p', j);
    RestOfSettling(cfg, terms, p, j);
    SameEvents(p, p', j);
  }

  lemma {:induction false} SameEvents(p: Plant, p': Plant, j: nat)
    requires EventsTaken(p) && TakenInRange(p) && j < |p.outs| && NextUp(p, j)
    requires p'.outs == p.outs && p'.taken == p.taken[p.outs[j].account := j + 1] && p'.core.txns == p.core.txns
    ensures EventsTaken(p')
  {
    RangeTakenIn(p, p', j);
    forall k | 0 <= k < |p'.core.txns|
      ensures EventTaken(p', p'.core.txns[k].event)
    {
      assert EventTaken(p, p.core.txns[k].event);
    }
  }

  /** Taking in an account's next outcome keeps the invariant. */
  lemma {:induction false} SettleKeeps(cfg: M.ShardConfig, terms: Terms, p: Plant, a: Uuid)
    requires PlantOk(cfg, p) && Sane(cfg, terms)
    ensures PlantOk(cfg, Settled(terms, p, a))
  {
    hide PlantOk, ApplyOutcome, Sane;
    if Taken(p, a) <= |p.outs| && NextFor(p.outs, a, Taken(p, a)) < |p.outs| {
      var j := NextFor(p.outs, a, Taken(p, a));
      assert NextUp(p, j);
      if ApplyOutcome(terms, p.core, j, p.outs[j]).Commit? {
        if p.outs[j].FillHalf? { SettleHalfKeeps(cfg, terms, p, j); } else { SettleVerdictKeeps(cfg, terms, p, j); }
      }
    }
  }

  // ---- settling again
  // --------------------------------------------------------------------------------------------------

  /** Only the stored offset differs. */
  lemma {:induction false} OffsetOnly(cfg: M.ShardConfig, p: Plant, x: nat)
    requires PlantOk(cfg, p)
    ensures PlantOk(cfg, p.(core := p.core.(offset := x)))
  {
    var c' := p.core.(offset := x);
    Unmoved(p.core, c');
    assert NoFillEvents(p.core, c');
    assert DeskSide(cfg, p.(core := c')) && TakenDone(p.(core := c')) by {
      hide StoryAfter, OutboxOk, LogOk, AllTidy, Funded;
    }
    hide OutboxOk, LogOk, DeskSide, AllTidy, Funded, TakenInRange, RowsSettled, EventsTaken, AllAsked, TakenDone, Kept,
      Announced, NoFillEvents;
    OutboxKept(p.core, c');
    LogKept(cfg, p, c');
    SameTidy(p.core, c');
    OrdersOnly(p.core, c');
    StillInRange(p, p.(core := c'));
    RowsKept(cfg, p, c');
    EventsKept(p, c');
    AskedKept(p, c');
  }

  lemma {:induction false} DoneAt(p: Plant, j: nat)
    requires CoreSide(p) && j < |p.outs| && j < Taken(p, p.outs[j].account)
    ensures AllTidy(p.core) && Done(p.core, p.outs[j])
  {
    hide AllTidy, Done, Funded, RowsSettled, EventsTaken, AllAsked;
  }

  /** An outcome delivered again changes nothing but the stored offset, so the invariant stays. */
  lemma {:induction false} AgainKeeps(cfg: M.ShardConfig, terms: Terms, p: Plant, j: nat, offset: nat)
    requires PlantOk(cfg, p) && j < |p.outs| && j < Taken(p, p.outs[j].account)
    ensures PlantOk(cfg, p.(core := After(p.core, ApplyOutcome(terms, p.core, offset, p.outs[j]))))
  {
    hide OutboxOk, LogOk, DeskSide, CoreSide, ApplyOutcome, AllTidy, Done;
    DoneAt(p, j);
    RepeatIsNoOp(terms, p.core, offset, p.outs[j]);
    hide *;
    OffsetOnly(cfg, p, After(p.core, ApplyOutcome(terms, p.core, offset, p.outs[j])).offset);
  }

  // ---- whole runs
  // ------------------------------------------------------------------------------------------------------

  lemma {:induction false} StartPlantOk(cfg: M.ShardConfig, terms: Terms)
    requires Sane(cfg, terms)
    ensures PlantOk(cfg, Start(cfg))
  {
    assert Start(cfg).inbound[..0] == [];
    assert AllTidy(Empty());
    EmptyFunded();
    hide Funded, AllTidy;
  }

  lemma {:induction false} StepKeeps(cfg: M.ShardConfig, terms: Terms, p: Plant, e: Move)
    requires PlantOk(cfg, p) && Sane(cfg, terms) && RealMove(e)
    requires InWindow(Step(cfg, terms, p, e).inbound, cfg.dedupWindow)
    ensures PlantOk(cfg, Step(cfg, terms, p, e))
  {
    hide PlantOk, Sane, InWindow, Handled, Settled, Act, ApplyOutcome, RealAction;
    match e
    case Operate(a) => if !a.Receive? { OperateKeeps(cfg, terms, p, a); }
    case Relay(k) => if k < |p.core.outbox| && k <= p.sent { RelayKeeps(cfg, p, k); }
    case Match => if p.read < |p.inbound| { MatchKeeps(cfg, p); }
    case SettleNext(a) => SettleKeeps(cfg, terms, p, a);
    case SettleAgain(j, offset) => if j < |p.outs| && j < Taken(p, p.outs[j].account) {
      AgainKeeps(cfg, terms, p, j, offset);
    }
  }

  lemma {:induction false} StepLogs(cfg: M.ShardConfig, terms: Terms, p: Plant, e: Move, window: nat)
    requires InWindow(Step(cfg, terms, p, e).inbound, window)
    ensures InWindow(p.inbound, window)
  {
    var p' := Step(cfg, terms, p, e);
    assert p.inbound <= p'.inbound by { hide M.Handle, ApplyOutcome, Act; }
    forall i, j | 0 <= i < j < |p.inbound| && Copies(p.inbound[i], p.inbound[j])
      ensures j - i <= window
    {
      assert p'.inbound[i] == p.inbound[i] && p'.inbound[j] == p.inbound[j];
    }
  }

  /** Every reachable state of the exchange keeps the invariant. */
  lemma {:induction false} RunOk(cfg: M.ShardConfig, terms: Terms, moves: seq<Move>)
    requires Lawful(cfg, terms, moves)
    ensures PlantOk(cfg, Run(cfg, terms, moves))
    decreases |moves|
  {
    hide PlantOk, Sane, RealMove, InWindow, Step;
    if moves == [] { StartPlantOk(cfg, terms); } else {
      var before := moves[..|moves| - 1];
      StepLogs(cfg, terms, Run(cfg, terms, before), moves[|moves| - 1], cfg.dedupWindow);
      RunOk(cfg, terms, before);
      StepKeeps(cfg, terms, Run(cfg, terms, before), moves[|moves| - 1]);
    }
  }

  // ---- a terminal order is over --------------------------------------------------------------------------------

  ghost predicate RestsNowhere(st: M.Shard, id: Uuid)
  {
    forall s, v :: s in st.books && v in st.books[s] ==> !st.books[s][v].Live(id)
  }

  ghost predicate NoFillLeft(p: Plant, id: Uuid, a: Uuid)
  {
    forall j :: Taken(p, a) <= j < |p.outs| && p.outs[j].FillHalf? ==> p.outs[j].order != id
  }

  lemma {:induction false} FinishedLater(outs: seq<M.Outcome>, t: nat, u: nat, id: Uuid)
    requires t <= u <= |outs| && Finished(outs[..t], id)
    ensures Finished(outs[..u], id)
  {
    var i :| 0 <= i < t && M.Final(outs[..t][i]) && outs[..t][i].order == id;
    assert outs[..u][i] == outs[i];
  }

  lemma {:induction false} FilledParts(outs: seq<M.Outcome>, t: nat, id: Uuid)
    requires t <= |outs|
    ensures FilledOf(outs, id) == FilledOf(outs[..t], id) + FilledOf(outs[t..], id)
  {
    assert outs == outs[..t] + outs[t..];
    FilledJoin(outs[..t], outs[t..], id);
  }

  lemma {:induction false} FilledSomething(outs: seq<M.Outcome>, id: Uuid)
    requires forall i :: 0 <= i < |outs| && outs[i].FillHalf? ==> outs[i].qty > 0
    ensures FilledOf(outs, id) >= 0
    ensures FilledOf(outs, id) == 0 ==> forall i :: 0 <= i < |outs| && outs[i].FillHalf? ==> outs[i].order != id
  {
    if outs != [] {
      assert forall i :: 0 <= i < |outs[1..]| ==> outs[1..][i] == outs[i + 1];
      FilledSomething(outs[1..], id);
    }
  }

  /** A whole stream, cut where a row stands, that is final for an order or fills it: nothing of the order comes after
      the cut, and it is final or full in the whole stream. */
  lemma {:induction false} OverInStream(facts: Facts, y: Story, t: nat, id: Uuid)
    requires OutsOk(facts, y) && id in facts && t <= |y.outs|
    requires Finished(y.outs[..t], id) || FilledOf(y.outs[..t], id) >= facts[id].qty
    ensures Finished(y.outs, id) || FilledOf(y.outs, id) >= facts[id].qty
    ensures forall j :: t <= j < |y.outs| && y.outs[j].FillHalf? ==> y.outs[j].order != id
  {
    hide FilledOf, Finished, OutTrue;
    forall i | 0 <= i < |y.outs[t..]| && y.outs[t..][i].FillHalf?
      ensures y.outs[t..][i].qty > 0
    {
      assert y.outs[t..][i] == y.outs[t + i];
    }
    FilledParts(y.outs, t, id);
    FilledSomething(y.outs[t..], id);
    if Finished(y.outs[..t], id) {
      FinishedLater(y.outs, t, |y.outs|, id);
      assert y.outs[..|y.outs|] == y.outs;
      NothingAfterFinal(y.outs, t, id);
    } else {
      forall j | t <= j < |y.outs| && y.outs[j].FillHalf?
        ensures y.outs[j].order != id
      {
        assert y.outs[t..][j - t] == y.outs[j];
      }
    }
  }

  lemma {:induction false} NeverHeard(facts: Facts, y: Story, id: Uuid)
    requires OutsOk(facts, y) && id !in facts
    ensures forall j :: 0 <= j < |y.outs| ==> y.outs[j].order != id
  {
    hide FilledOf;
    forall j | 0 <= j < |y.outs| ensures y.outs[j].order != id { assert OutTrue(facts, y.ids, y.outs[j]); }
  }

  lemma {:induction false} NotLive(cfg: M.ShardConfig, facts: Facts, y: Story, s: Text, v: Text, id: Uuid)
    requires StoryOk(cfg, facts, y) && s in y.shard.books && v in y.shard.books[s]
    requires id in facts ==> Finished(y.outs, id) || FilledOf(y.outs, id) >= facts[id].qty
    ensures !y.shard.books[s][v].Live(id)
  {
    hide FilledOf, Finished, OutsOk, MarketOk, RestOf, BookTrue;
    var m := y.shard.books[s];
    assert VenuesOk(cfg, facts, s, m, y.ids) && Room(facts, m, y.outs);
    assert M.BookSound(cfg, s, v, m[v], y.ids);
    RestIsLive(m[v], id);
  }

  lemma {:induction false} NothingAfterFinal(outs: seq<M.Outcome>, t: nat, id: Uuid)
    requires M.Conclusive(outs) && t <= |outs| && Finished(outs[..t], id)
    ensures forall j :: t <= j < |outs| && outs[j].FillHalf? ==> outs[j].order != id
  {
    var i :| 0 <= i < t && M.Final(outs[..t][i]) && outs[..t][i].order == id;
    assert outs[..t][i] == outs[i];
  }

  /** In every reachable state, an order the core holds as terminal is over everywhere: it is in no book, no execution
      of it is
      left to settle, and what its reservation did not consume has been given back. */
  lemma {:induction false} TerminalIsOver(cfg: M.ShardConfig, terms: Terms, moves: seq<Move>, id: Uuid)
    requires Lawful(cfg, terms, moves)
    ensures var p := Run(cfg, terms, moves);
      id in p.core.orders && Terminal(p.core.orders[id].status) ==>
        && RestsNowhere(p.shard, id) && NoFillLeft(p, id, p.core.orders[id].account)
        && (id in p.core.reservations ==>
              var row := p.core.reservations[id].row; row.consumed + row.released == row.reserved && row.Open() == 0)
  {
    hide Run, PlantOk, Lawful;
    RunOk(cfg, terms, moves);
    var p := Run(cfg, terms, moves);
    if id in p.core.orders && Terminal(p.core.orders[id].status) {
      OverEverywhere(cfg, p, id);
      SpentWhole(cfg, p, id);
    }
  }

  lemma {:induction false} SpentWhole(cfg: M.ShardConfig, p: Plant, id: Uuid)
    requires PlantOk(cfg, p) && id in p.core.orders && Terminal(p.core.orders[id].status)
    ensures Spent(p.core, id)
  {
    hide Funded, OutboxOk, LogOk, DeskSide, RowsSettled, EventsTaken, TakenDone, AllAsked;
    TidyAt(p.core, id);
  }

  lemma {:induction false} OverEverywhere(cfg: M.ShardConfig, p: Plant, id: Uuid)
    requires PlantOk(cfg, p) && id in p.core.orders && Terminal(p.core.orders[id].status)
    ensures RestsNowhere(p.shard, id) && NoFillLeft(p, id, p.core.orders[id].account)
  {
    var y, facts := StoryAfter(cfg, p.inbound[..p.read]), FactsOf(p.core);
    hide AllTidy, Funded, OutboxOk, LogOk, EventsTaken, TakenDone, AllAsked, StoryOk, StoryAfter, OutsOk, HalvesApart,
      M.Conclusive, OutTrue, FilledOf, Finished;
    DeskSound(cfg, p);
    if id in facts {
      assert RowSettled(p, id, p.core.orders[id]);
      OverInStream(facts, y, Taken(p, p.core.orders[id].account), id);
    } else {
      NeverHeard(facts, y, id);
    }
    forall s, v | s in p.shard.books && v in p.shard.books[s]
      ensures !p.shard.books[s][v].Live(id)
    {
      NotLive(cfg, facts, y, s, v, id);
    }
  }

  /** Once a cancel's verdict has been taken in, its order is terminal: no execution can follow, nothing stays reserved.
      */
  lemma {:induction false} VerdictEndsOrder(cfg: M.ShardConfig, terms: Terms, moves: seq<Move>, j: nat)
    requires Lawful(cfg, terms, moves)
    requires var p := Run(cfg, terms, moves);
      j < |p.outs| && p.outs[j].CancelOutcome? && j < Taken(p, p.outs[j].account)
    ensures var p, id := Run(cfg, terms, moves), Run(cfg, terms, moves).outs[j].order;
      && id in p.core.orders && Terminal(p.core.orders[id].status) && Spent(p.core, id)
      && RestsNowhere(p.shard, id) && NoFillLeft(p, id, p.core.orders[id].account)
  {
    hide Run, PlantOk, Lawful;
    RunOk(cfg, terms, moves);
    var p := Run(cfg, terms, moves);
    VerdictDoneAt(cfg, p, j);
    OverEverywhere(cfg, p, p.outs[j].order);
    SpentWhole(cfg, p, p.outs[j].order);
  }

  lemma {:induction false} VerdictDoneAt(cfg: M.ShardConfig, p: Plant, j: nat)
    requires PlantOk(cfg, p) && j < |p.outs| && p.outs[j].CancelOutcome? && j < Taken(p, p.outs[j].account)
    ensures p.outs[j].order in p.core.orders && Terminal(p.core.orders[p.outs[j].order].status)
  {
    hide OutboxOk, LogOk, DeskSide, AllTidy;
    DoneAt(p, j);
  }

  /** An order's row counts exactly the executions taken in for its account, never more than the order's size; cash and
      positions cover every reservation throughout. */
  lemma {:induction false} RowsCountFills(cfg: M.ShardConfig, terms: Terms, moves: seq<Move>, id: Uuid)
    requires Lawful(cfg, terms, moves)
    ensures var p := Run(cfg, terms, moves);
      && Funded(p.core)
      && (id in FactsOf(p.core) ==>
            var o := p.core.orders[id];
            && Taken(p, o.account) <= |p.outs|
            && 0 <= o.filledQty == FilledOf(p.outs[..Taken(p, o.account)], id) <= FilledOf(p.outs, id) <= o.qty)
  {
    hide Run, PlantOk, Lawful;
    RunOk(cfg, terms, moves);
    var p := Run(cfg, terms, moves);
    assert Funded(p.core) by { FundedIn(cfg, p); }
    if id in FactsOf(p.core) { CountsFills(cfg, p, id); }
  }

  lemma {:induction false} FundedIn(cfg: M.ShardConfig, p: Plant)
    requires PlantOk(cfg, p)
    ensures Funded(p.core)
  {
    hide Funded, OutboxOk, LogOk, DeskSide, AllTidy, RowsSettled, EventsTaken, TakenDone, AllAsked;
  }

  lemma {:induction false} CountsFills(cfg: M.ShardConfig, p: Plant, id: Uuid)
    requires PlantOk(cfg, p) && id in FactsOf(p.core)
    ensures id in p.core.orders && var o := p.core.orders[id];
      && Taken(p, o.account) <= |p.outs|
      && 0 <= o.filledQty == FilledOf(p.outs[..Taken(p, o.account)], id) <= FilledOf(p.outs, id) <= o.qty
  {
    var t := Taken(p, p.core.orders[id].account);
    hide AllTidy, Funded, OutboxOk, LogOk, EventsTaken, TakenDone, AllAsked, StoryOk, StoryAfter, HalvesApart, FilledOf,
      Finished;
    DeskSound(cfg, p);
    assert RowSettled(p, id, p.core.orders[id]);
    assert FilledOf(p.outs[..t], id) == p.core.orders[id].filledQty;
    forall i | 0 <= i < |p.outs| && p.outs[i].FillHalf?
      ensures p.outs[i].qty > 0
    {
      assert OutTrue(FactsOf(p.core), FactsOf(p.core).Keys, p.outs[i]);
    }
    hide OutTrue, FactsOf, M.Conclusive, RowSettled, DeskSide;
    PrefixFilled(p.outs, t, id);
  }

  lemma {:induction false} PrefixFilled(outs: seq<M.Outcome>, t: nat, id: Uuid)
    requires t <= |outs| && forall i :: 0 <= i < |outs| && outs[i].FillHalf? ==> outs[i].qty > 0
    ensures 0 <= FilledOf(outs[..t], id) <= FilledOf(outs, id)
  {
    hide FilledOf;
    FilledParts(outs, t, id);
    FilledSomething(outs[..t], id);
    FilledSomething(outs[t..], id);
  }

  // ---- at rest
  // -------------------------------------------------------------------------------------------------------

  /** Nothing is on its way: every row is published and handled, every outcome taken in. */
  ghost predicate AtRest(p: Plant)
  {
    p.sent == |p.core.outbox| && p.read == |p.inbound| && forall j :: 0 <= j < |p.outs| ==>
      j < Taken(p, p.outs[j].account)
  }

  /** A cancel is always answered: when everything on its way has arrived, no order still waits for a verdict. */
  lemma {:induction false} NoCancelIsLost(cfg: M.ShardConfig, terms: Terms, moves: seq<Move>, id: Uuid)
    requires Lawful(cfg, terms, moves) && AtRest(Run(cfg, terms, moves))
    ensures id in Run(cfg, terms, moves).core.orders ==> Run(cfg, terms, moves).core.orders[id].status != PendingCancel
  {
    hide Run, PlantOk, Lawful;
    RunOk(cfg, terms, moves);
    var p := Run(cfg, terms, moves);
    if id in p.core.orders { AnsweredAtRest(cfg, p, id); }
  }

  lemma {:induction false} AnsweredAtRest(cfg: M.ShardConfig, p: Plant, id: Uuid)
    requires PlantOk(cfg, p) && AtRest(p) && id in p.core.orders
    ensures p.core.orders[id].status != PendingCancel
  {
    hide CoreSide, AllTidy, Funded, StoryAfter, LogTrue, RowTrue;
    if p.core.orders[id].status == PendingCancel {
      var row := CancelOf(id, p.core.orders[id]);
      assert row in p.core.outbox;
      var k :| 0 <= k < |p.core.outbox| && p.core.outbox[k] == row;
      assert p.core.outbox[k] in p.inbound;
      var n :| 0 <= n < |p.inbound| && p.inbound[n] == row;
      assert p.inbound[..p.read] == p.inbound;
      var j := CancelAnswered(cfg, p.inbound, n);
      VerdictDoneAt(cfg, p, j);
      assert false;
    }
  }
}
