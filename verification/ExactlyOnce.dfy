/** Settling an at-least-once log: internal/engine/outcomes.go. Repeats written to the log again, restarts from the
    durable
    offset and rewinds leave what a single delivery of each outcome leaves. */
module ExactlyOnce {
  import opened Types
  import opened Ledger
  import opened Funding
  import opened Recovery
  import opened Repeats
  import opened Matching
  import Costing
  import Money

  /** A client operation, or the delivery of the record at an offset of the log, for the first time or again. */
  datatype Delivery = Client(action: Action) | Deliver(offset: nat)

  /** The core and how many leading records of the log it has taken in. */
  datatype Progress = Progress(core: Core, high: nat)

  ghost function Delivered(terms: Terms, log: seq<Tagged>, p: Progress, i: nat): Progress
    requires i < |log|
  {
    var tx := ApplyOutcome(terms, p.core, i, log[i].outcome);
    Progress(After(p.core, tx), if tx.Commit? && i == p.high then p.high + 1 else p.high)
  }

  ghost function PlayOne(terms: Terms, log: seq<Tagged>, p: Progress, e: Delivery): Progress
  {
    match e
    case Client(a) => if a.Receive? then p else p.(core := Act(terms, p.core, a))
    case Deliver(i) => if i < |log| && i <= p.high then Delivered(terms, log, p, i) else p
  }

  ghost function Play(terms: Terms, log: seq<Tagged>, events: seq<Delivery>): Progress
    decreases |events|
  {
    if events == [] then Progress(Empty(), 0)
      else PlayOne(terms, log, Play(terms, log, events[..|events| - 1]), events[|events| - 1])
  }

  /** The record at an offset is met for the first time: not taken in yet, and no copy of an earlier one. */
  ghost predicate FirstTime(terms: Terms, log: seq<Tagged>, before: seq<Delivery>, i: nat)
  {
    i < |log| && i == Play(terms, log, before).high && log[i] !in log[..i]
  }

  /** The same events against the log without its repeats: nothing is delivered twice. */
  ghost function Distilled(terms: Terms, log: seq<Tagged>, events: seq<Delivery>): seq<Delivery>
    decreases |events|
  {
    if events == [] then []
    else
      var before, e := events[..|events| - 1], events[|events| - 1];
      Distilled(terms, log, before) +
      (match e
       case Client(_) => [e]
       case Deliver(i) => if FirstTime(terms, log, before, i) then [Deliver(|Deduped(log[..i])|)] else [])
  }

  /** Every delivery is of the next record not taken in yet. */
  ghost predicate NothingTwice(terms: Terms, log: seq<Tagged>, events: seq<Delivery>)
    decreases |events|
  {
    events == [] ||
    var before, e := events[..|events| - 1], events[|events| - 1];
    NothingTwice(terms, log, before) && (e.Deliver? ==> e.offset == Play(terms, log, before).high)
  }

  function Untagged(s: seq<Tagged>): (r: seq<Outcome>)
    ensures |r| == |s| && forall i :: 0 <= i < |s| ==> r[i] == s[i].outcome
  {
    seq(|s|, i requires 0 <= i < |s| => s[i].outcome)
  }

  predicate Closing(s: Status) { Terminal(s) || s == PendingCancel }

  /** The outcome is about an order the core has, and a cancel verdict answers a request the core made. */
  predicate Answers(c: Core, m: Outcome)
  {
    m.order in c.orders && (m.CancelOutcome? ==> Closing(c.orders[m.order].status))
  }

  /** Outcomes reach the core only after what caused them. */
  ghost predicate Causal(terms: Terms, log: seq<Tagged>, events: seq<Delivery>)
    decreases |events|
  {
    events == [] ||
    var before, e := events[..|events| - 1], events[|events| - 1];
    && Causal(terms, log, before)
    && (e.Deliver? && FirstTime(terms, log, before, e.offset) ==>
         Answers(Play(terms, log, before).core, log[e.offset].outcome))
  }

  // ---- what repeats rely on --------------------------------------------------------------------------------

  /** A finished order has given back what it did not spend; a working one's status says whether it has traded. */
  predicate Tidy(o: OrderRow, spent: bool)
  {
    && o.filledQty >= 0 && (Terminal(o.status) ==> spent)
    && (o.status == Accepted ==> o.filledQty == 0) && (o.status == PartiallyFilled ==> o.filledQty > 0)
  }

  predicate Spent(c: Core, id: Uuid)
  {
    id in c.reservations ==> c.reservations[id].row.Spent() == c.reservations[id].row.reserved
  }

  ghost predicate AllTidy(c: Core)
  {
    (forall id :: id in c.orders ==> Tidy(c.orders[id], Spent(c, id))) && forall id :: id in c.reservations ==>
      id in c.orders
  }

  /** The outcome has been taken in. */
  predicate Done(c: Core, m: Outcome)
  {
    && m.order in c.orders
    && (m.FillHalf? ==> HasEvent(c.txns, m.eventId))
    && (m.Verdict? && m.disposition != Rested ==> Closing(c.orders[m.order].status))
    && (m.CancelOutcome? ==> Terminal(c.orders[m.order].status))
  }

  lemma {:induction false} ReleaseNothing(c: Core, id: Uuid)
    requires AllTidy(c)
    ensures Release(c, id) == c
  {
    if id in c.orders && Terminal(c.orders[id].status) && id in c.reservations {
      assert Tidy(c.orders[id], Spent(c, id));
      var r := c.reservations[id];
      assert r.(row := r.row.(released := r.row.reserved - r.row.consumed)) == r;
      assert c.reservations[id := r] == c.reservations;
    }
  }

  /** Taking in an outcome again changes nothing but the offset. */
  lemma {:induction false} RepeatIsNoOp(terms: Terms, c: Core, i: nat, m: Outcome)
    requires AllTidy(c) && Done(c, m)
    ensures After(c, ApplyOutcome(terms, c, i, m)) == c.(offset := After(c, ApplyOutcome(terms, c, i, m)).offset)
  {
    hide Costing.ChargeFor, Money.Notional, SettleHalf, Release, AllTidy;
    if !m.FillHalf? && m.account in c.clocks {
      var c0 := c.(offset := i + 1);
      TidyAt(c, m.order);
      assert AllTidy(c0) by { SameTidy(c, c0); }
      ReleaseNothing(c0, m.order);
      var o := c.orders[m.order];
      assert c.orders[m.order := o] == c.orders;
      if m.Verdict? {
        if !Terminal(o.status) && o.status != PendingCancel {
          assert o.(status := DispositionStatus(m.disposition, o)) == o;
        }
      } else {
        assert o.(status := CancelStatus(m.cancelled, o)) == o;
      }
    }
  }

  lemma {:induction false} TidyAt(c: Core, id: Uuid)
    requires AllTidy(c) && id in c.orders
    ensures Tidy(c.orders[id], Spent(c, id))
  {}

  lemma {:induction false} SameTidy(c: Core, c': Core)
    requires AllTidy(c) && c'.orders == c.orders && c'.reservations == c.reservations
    ensures AllTidy(c')
  {
    forall id | id in c'.orders ensures Tidy(c'.orders[id], Spent(c', id)) { assert Tidy(c.orders[id], Spent(c, id)); }
  }

  // ---- steps keep it ---------------------------------------------------------------------------------------

  /** One order and its reservation change. */
  lemma {:induction false} OneOrder(c: Core, c': Core, id: Uuid)
    requires AllTidy(c) && id in c'.orders && Tidy(c'.orders[id], Spent(c', id))
    requires c'.orders == c.orders[id := c'.orders[id]]
    requires forall x :: x != id ==>
      (x in c'.reservations <==> x in c.reservations)
        && (x in c.reservations ==> c'.reservations[x] == c.reservations[x])
    ensures AllTidy(c')
  {
    forall x | x in c'.orders ensures Tidy(c'.orders[x], Spent(c', x)) {
      if x != id { assert Tidy(c.orders[x], Spent(c, x)); }
    }
  }

  lemma {:induction false} PlaceTidy(terms: Terms, c: Core, id: Uuid, r: Request, ref: Option<int>)
    requires AllTidy(c)
    ensures var c' := After(c, Submit(terms, c, id, r, ref));
      AllTidy(c') && forall x :: x in c.orders ==> x in c'.orders && c'.orders[x] == c.orders[x]
  {
    hide Costing.SizeReservation, RiskOk, Accept, AllTidy;
    AcceptTidy(terms, c, id, r, if r.typ == Market && ref.Some? then ref.value else 0);
  }

  lemma {:induction false} AcceptTidy(terms: Terms, c: Core, id: Uuid, r: Request, ref: int)
    requires AllTidy(c)
    ensures var c' := After(c, Accept(terms, c, id, r, ref));
      AllTidy(c') && forall x :: x in c.orders ==> x in c'.orders && c'.orders[x] == c.orders[x]
  {
    hide Costing.SizeReservation, RiskOk;
    var c' := After(c, Accept(terms, c, id, r, ref));
    if c' != c {
      assert id !in c.orders && id !in c.reservations;
      OneOrder(c, c', id);
    }
  }

  lemma {:induction false} CancelTidy(c: Core, id: Uuid)
    requires AllTidy(c)
    ensures var c' := After(c, RequestCancel(c, id));
      && AllTidy(c') && c'.orders.Keys == c.orders.Keys
      && forall x :: x in c.orders && Closing(c.orders[x].status) ==> c'.orders[x] == c.orders[x]
  {
    var c' := After(c, RequestCancel(c, id));
    if c' != c {
      assert Tidy(c.orders[id], Spent(c, id));
      OneOrder(c, c', id);
    }
  }

  /** Client operations keep the order book of the core tidy and undo nothing that outcomes have done. */
  lemma {:induction false} ClientKeeps(terms: Terms, c: Core, a: Action, m: Outcome)
    requires AllTidy(c) && !a.Receive?
    ensures AllTidy(Act(terms, c, a)) && (Done(c, m) ==> Done(Act(terms, c, a), m))
  {
    hide AllTidy, Deposit, SeedShares, Submit, RequestCancel, HasEvent;
    var c' := Act(terms, c, a);
    match a
    case OpenAccount(_) => SameTidy(c, c');
    case DepositCash(account, amount) =>
      DepositOnly(c, account, amount);
      SameTidy(c, c');
    case Seed(account, symbol, qty, price) =>
      SeedOnly(c, account, symbol, qty, price);
      SameTidy(c, c');
    case Place(id, r, ref) =>
      PlaceTidy(terms, c, id, r, ref);
      SubmitQuiet(terms, c, id, r, ref);
    case Withdraw(id) =>
      CancelTidy(c, id);
      CancelQuiet(c, id);
  }

  lemma {:induction false} StillThere(txns: seq<Txn>, more: seq<Txn>, e: EventId)
    requires HasEvent(txns, e)
    ensures HasEvent(txns + more, e)
  {
    var i :| 0 <= i < |txns| && txns[i].event == e;
    assert (txns + more)[i].event == e;
  }

  lemma {:induction false} DepositOnly(c: Core, a: Uuid, amount: int)
    ensures var c' := After(c, Deposit(c, a, amount));
      c'.orders == c.orders && c'.reservations == c.reservations && forall e :: HasEvent(c.txns, e) ==>
        HasEvent(c'.txns, e)
  {
    hide Posted, Moved, HasEvent;
    forall t: Txn, e | HasEvent(c.txns, e) ensures HasEvent(c.txns + [t], e) { StillThere(c.txns, [t], e); }
  }

  lemma {:induction false} SeedOnly(c: Core, a: Uuid, symbol: Text, qty: int, price: int)
    ensures var c' := After(c, SeedShares(c, a, symbol, qty, price));
      c'.orders == c.orders && c'.reservations == c.reservations && forall e :: HasEvent(c.txns, e) ==>
        HasEvent(c'.txns, e)
  {
    hide Posted, Moved, HasEvent, BuyingPower, Money.Notional, SeedLegs;
    forall t: Txn, e | HasEvent(c.txns, e) ensures HasEvent(c.txns + [t], e) { StillThere(c.txns, [t], e); }
  }

  /** A new half settles its own order and leaves the others as they were. */
  lemma {:induction false} HalfTouches(c: Core, m: Outcome, notional: int, fee: int)
    requires AllTidy(c) && m.FillHalf? && m.qty > 0 && m.account in c.clocks && m.order in c.orders
    requires SettleHalf(c, m, notional, fee).Commit?
    ensures var c' := SettleHalf(c, m, notional, fee).core;
      && AllTidy(c') && c'.orders == c.orders[m.order := c'.orders[m.order]]
      && (exists t :: c'.txns == c.txns + [t] && t.event == m.eventId)
  {
    hide Posted, Moved, HalfFillLegs, Costing.SettleRow, ApplyBuy, ApplySell;
    var c' := SettleHalf(c, m, notional, fee).core;
    assert Tidy(c.orders[m.order], Spent(c, m.order));
    assert c'.txns == c.txns + [Txn(m.account, c.clocks[m.account], FillHalfTxn, m.eventId, Some(m.order),
                                    Posted(HalfFillLegs(m.symbol, m.qty, notional, fee, m.buying)))];
    OneOrder(c, c', m.order);
  }

  lemma {:induction false} HalfKeeps(terms: Terms, c: Core, i: nat, m: Outcome)
    requires AllTidy(c) && m.FillHalf? && m.qty > 0 && m.order in c.orders
    ensures var tx := ApplyFillHalf(terms, c, i, m);
      && AllTidy(After(c, tx)) && After(c, tx).orders.Keys == c.orders.Keys
      && (tx.Commit? ==> Done(tx.core, m))
      && (forall x :: x in c.orders && x != m.order ==> After(c, tx).orders[x] == c.orders[x])
      && forall e :: HasEvent(c.txns, e) ==> HasEvent(After(c, tx).txns, e)
  {
    hide Costing.ChargeFor, Money.Notional, SettleHalf, AllTidy, HasEvent;
    var tx := ApplyFillHalf(terms, c, i, m);
    if tx.Commit? {
      var c0 := c.(offset := i + 1);
      SameTidy(c, c0);
      if !HasEvent(c.txns, m.eventId) {
        var ch := Costing.ChargeFor(m.qty, m.price, c.orders[m.order].filledNotional, FeeRate(terms, m.role));
        HalfTouches(c0, m, ch.notional, ch.fee);
        var t :| tx.core.txns == c.txns + [t] && t.event == m.eventId;
        LastEvent(c.txns, t);
        forall e | HasEvent(c.txns, e) ensures HasEvent(tx.core.txns, e) { StillThere(c.txns, [t], e); }
      }
    }
  }

  lemma {:induction false} LastEvent(txns: seq<Txn>, t: Txn)
    ensures HasEvent(txns + [t], t.event)
  {
    assert (txns + [t])[|txns|] == t;
  }

  /** A status that fits what the order has filled. */
  predicate Fitting(o: OrderRow)
  {
    o.filledQty >= 0 && (o.status == Accepted ==> o.filledQty == 0) && (o.status == PartiallyFilled ==> o.filledQty > 0)
  }

  /** A new status for one order, and its reservation released if that finishes it. */
  lemma {:induction false} StatusKeeps(c: Core, id: Uuid, offset: nat, status: Status)
    requires AllTidy(c) && id in c.orders && Fitting(c.orders[id].(status := status))
    requires Terminal(c.orders[id].status) ==> status == c.orders[id].status
    ensures var c1 := c.(offset := offset, orders := c.orders[id := c.orders[id].(status := status)]);
      AllTidy(Release(c1, id)) && Release(c1, id).orders == c1.orders
  {
    var c1 := c.(offset := offset, orders := c.orders[id := c.orders[id].(status := status)]);
    assert Tidy(c.orders[id], Spent(c, id));
    ReleaseQuiet(c1, id);
    OneOrder(c, Release(c1, id), id);
  }

  function NewStatus(o: OrderRow, m: Outcome): Status
    requires !m.FillHalf?
  {
    if m.CancelOutcome? then CancelStatus(m.cancelled, o)
    else if Closing(o.status) then o.status
    else DispositionStatus(m.disposition, o)
  }

  lemma {:induction false} VerdictIs(terms: Terms, c: Core, i: nat, m: Outcome)
    requires !m.FillHalf? && m.order in c.orders
    ensures ApplyOutcome(terms, c, i, m) ==
      if m.account !in c.clocks then Abort(NoSuchAccount)
      else Commit(Release(c.(offset := i + 1, orders :=
        c.orders[m.order := c.orders[m.order].(status := NewStatus(c.orders[m.order], m))]), m.order))
  {
    hide Release, CancelStatus, DispositionStatus, Terminal;
    var o := c.orders[m.order];
    assert c.orders[m.order := o.(status := o.status)] == c.orders;
  }

  /** A disposition or a cancel verdict settles its own order. */
  lemma {:induction false} VerdictKeeps(terms: Terms, c: Core, i: nat, m: Outcome)
    requires AllTidy(c) && !m.FillHalf? && Answers(c, m)
    ensures var tx := ApplyOutcome(terms, c, i, m);
      && AllTidy(After(c, tx)) && After(c, tx).orders.Keys == c.orders.Keys
      && (tx.Commit? ==> Done(tx.core, m))
      && (forall x :: x in c.orders && x != m.order ==> After(c, tx).orders[x] == c.orders[x])
      && (Terminal(c.orders[m.order].status) ==> Terminal(After(c, tx).orders[m.order].status))
      && (Closing(c.orders[m.order].status) ==> Closing(After(c, tx).orders[m.order].status))
  {
    hide AllTidy, ApplyOutcome, Release, NewStatus;
    var o := c.orders[m.order];
    NewStatusFits(c, m);
    VerdictIs(terms, c, i, m);
    if m.account in c.clocks { StatusKeeps(c, m.order, i + 1, NewStatus(o, m)); }
  }

  /** What a verdict leaves an order it may speak of with. */
  lemma {:induction false} NewStatusFits(c: Core, m: Outcome)
    requires AllTidy(c) && !m.FillHalf? && Answers(c, m)
    ensures var o := c.orders[m.order];
      var s := NewStatus(o, m);
      && Fitting(o.(status := s)) && (Terminal(o.status) ==> s == o.status) && (Closing(o.status) ==> Closing(s))
      && (m.Verdict? && m.disposition != Rested ==> Closing(s)) && (m.CancelOutcome? ==> Terminal(s))
  {
    TidyAt(c, m.order);
    hide AllTidy;
  }

  // ---- whole runs ----------------------------------------------------------------------------------------

  ghost predicate AllDone(c: Core, stream: seq<Tagged>, high: nat)
    requires high <= |stream|
  {
    forall k :: 0 <= k < high ==> Done(c, stream[k].outcome)
  }

  ghost predicate Healthy(stream: seq<Tagged>, p: Progress)
  {
    p.high <= |stream| && AllTidy(p.core) && AllDone(p.core, stream, p.high)
  }

  lemma {:induction false} ClientHealthy(terms: Terms, stream: seq<Tagged>, p: Progress, a: Action)
    requires Healthy(stream, p) && !a.Receive?
    ensures Healthy(stream, p.(core := Act(terms, p.core, a)))
  {
    hide AllTidy, Done, Act;
    ClientTidy(terms, p.core, a);
    forall k | 0 <= k < p.high
      ensures Done(Act(terms, p.core, a), stream[k].outcome)
    {
      ClientKeeps(terms, p.core, a, stream[k].outcome);
    }
  }

  lemma {:induction false} ClientTidy(terms: Terms, c: Core, a: Action)
    requires AllTidy(c) && !a.Receive?
    ensures AllTidy(Act(terms, c, a))
  {
    ClientKeeps(terms, c, a, Verdict(0, 0, [], Rested, 0, NoReason));
  }

  /** Taking in the next outcome keeps every earlier one taken in. */
  lemma {:induction false} FirstDelivery(terms: Terms, stream: seq<Tagged>, p: Progress)
    requires Healthy(stream, p) && Conclusive(Untagged(stream)) && p.high < |stream|
    requires Answers(p.core, stream[p.high].outcome)
    ensures Healthy(stream, Delivered(terms, stream, p, p.high))
  {
    hide AllTidy, ApplyOutcome, Answers, Done, Conclusive;
    NextIsDone(terms, stream, p);
    forall k | 0 <= k < p.high
      ensures Done(After(p.core, ApplyOutcome(terms, p.core, p.high, stream[p.high].outcome)), stream[k].outcome)
    {
      EarlierStays(terms, stream, p, k);
    }
  }

  lemma {:induction false} NextIsDone(terms: Terms, stream: seq<Tagged>, p: Progress)
    requires Healthy(stream, p) && Conclusive(Untagged(stream)) && p.high < |stream|
    requires Answers(p.core, stream[p.high].outcome)
    ensures var m, tx := stream[p.high].outcome, ApplyOutcome(terms, p.core, p.high, stream[p.high].outcome);
      AllTidy(After(p.core, tx)) && (tx.Commit? ==> Done(tx.core, m))
  {
    var m := stream[p.high].outcome;
    assert Untagged(stream)[p.high] == m && (m.FillHalf? ==> m.qty > 0);
    hide AllTidy, ApplyOutcome, Answers, Done, Conclusive, AllDone;
    if m.FillHalf? { HalfDone(terms, p.core, p.high, m); } else { VerdictDone(terms, p.core, p.high, m); }
  }

  lemma {:induction false} EarlierStays(terms: Terms, stream: seq<Tagged>, p: Progress, k: nat)
    requires Healthy(stream, p) && Conclusive(Untagged(stream)) && k < p.high < |stream|
    requires Answers(p.core, stream[p.high].outcome)
    ensures Done(After(p.core, ApplyOutcome(terms, p.core, p.high, stream[p.high].outcome)), stream[k].outcome)
  {
    var m := stream[p.high].outcome;
    assert Untagged(stream)[k] == stream[k].outcome && Untagged(stream)[p.high] == m;
    assert Done(p.core, stream[k].outcome);
    hide AllTidy, ApplyOutcome, Answers, Done;
    if m.FillHalf? { StaysDoneAfterHalf(terms, p.core, p.high, m, stream[k].outcome); }
    else { StaysDoneAfterVerdict(terms, p.core, p.high, m, stream[k].outcome); }
  }

  lemma {:induction false} VerdictDone(terms: Terms, c: Core, i: nat, m: Outcome)
    requires AllTidy(c) && !m.FillHalf? && Answers(c, m)
    ensures AllTidy(After(c, ApplyOutcome(terms, c, i, m)))
    ensures ApplyOutcome(terms, c, i, m).Commit? ==> Done(ApplyOutcome(terms, c, i, m).core, m)
  {
    hide AllTidy, ApplyOutcome, Done;
    VerdictKeeps(terms, c, i, m);
  }

  lemma {:induction false} HalfDone(terms: Terms, c: Core, i: nat, m: Outcome)
    requires AllTidy(c) && m.FillHalf? && m.qty > 0 && Answers(c, m)
    ensures AllTidy(After(c, ApplyOutcome(terms, c, i, m)))
    ensures ApplyOutcome(terms, c, i, m).Commit? ==> Done(ApplyOutcome(terms, c, i, m).core, m)
  {
    hide AllTidy, ApplyFillHalf, HasEvent;
    HalfKeeps(terms, c, i, m);
  }

  lemma {:induction false} StaysDoneAfterHalf(terms: Terms, c: Core, i: nat, m: Outcome, earlier: Outcome)
    requires AllTidy(c) && m.FillHalf? && m.qty > 0 && Answers(c, m) && Done(c, earlier)
    requires Final(earlier) ==> earlier.order != m.order
    ensures Done(After(c, ApplyOutcome(terms, c, i, m)), earlier)
  {
    hide AllTidy, ApplyFillHalf, HasEvent;
    HalfKeeps(terms, c, i, m);
  }

  lemma {:induction false} StaysDoneAfterVerdict(terms: Terms, c: Core, i: nat, m: Outcome, earlier: Outcome)
    requires AllTidy(c) && !m.FillHalf? && Answers(c, m) && Done(c, earlier)
    ensures Done(After(c, ApplyOutcome(terms, c, i, m)), earlier)
  {
    hide AllTidy, ApplyDisposition, ApplyCancelOutcome, HasEvent;
    VerdictKeeps(terms, c, i, m);
    VerdictQuiet(terms, c, i, m);
  }

  /** No operation looks at the stored offset. */
  lemma {:induction false} OffsetBlind(terms: Terms, c: Core, x: nat, i: nat, m: Outcome)
    ensures ApplyOutcome(terms, c.(offset := x), i, m) == ApplyOutcome(terms, c, i, m)
  {
    assert c.(offset := x).(offset := i + 1) == c.(offset := i + 1);
    hide Costing.ChargeFor, Money.Notional, SettleHalf, Release, HasEvent;
  }

  lemma {:induction false} ClientOffsetBlind(terms: Terms, c: Core, x: nat, a: Action)
    requires !a.Receive?
    ensures Act(terms, c.(offset := x), a) == Act(terms, c, a).(offset := x) && Act(terms, c, a).offset == c.offset
  {
    hide Deposit, SeedShares, Submit, RequestCancel;
    match a
    case OpenAccount(_) =>
    case DepositCash(account, amount) => DepositBlind(c, x, account, amount);
    case Seed(account, symbol, qty, price) => SeedBlind(c, x, account, symbol, qty, price);
    case Place(id, r, ref) => SubmitBlind(terms, c, x, id, r, ref);
    case Withdraw(id) => CancelBlind(c, x, id);
  }

  /** Two transactions with the same end but for the offset, which neither moves. */
  ghost predicate SameBut(c: Core, x: nat, tx: Tx, blind: Tx)
  {
    After(c.(offset := x), blind) == After(c, tx).(offset := x) && After(c, tx).offset == c.offset
  }

  lemma {:induction false} DepositBlind(c: Core, x: nat, a: Uuid, amount: int)
    ensures SameBut(c, x, Deposit(c, a, amount), Deposit(c.(offset := x), a, amount))
  {
    hide Posted, Moved, HasEvent;
  }

  lemma {:induction false} SeedBlind(c: Core, x: nat, a: Uuid, symbol: Text, qty: int, price: int)
    ensures SameBut(c, x, SeedShares(c, a, symbol, qty, price), SeedShares(c.(offset := x), a, symbol, qty, price))
  {
    assert BuyingPower(c.(offset := x), a) == BuyingPower(c, a);
    hide Posted, Moved, HasEvent, SeedLegs, Money.Notional, BuyingPower;
  }

  lemma {:induction false} CancelBlind(c: Core, x: nat, id: Uuid)
    ensures SameBut(c, x, RequestCancel(c, id), RequestCancel(c.(offset := x), id))
  {}

  lemma {:induction false} SubmitBlind(terms: Terms, c: Core, x: nat, id: Uuid, r: Request, ref: Option<int>)
    ensures SameBut(c, x, Submit(terms, c, id, r, ref), Submit(terms, c.(offset := x), id, r, ref))
  {
    hide Accept;
    AcceptBlind(terms, c, x, id, r, if r.typ == Market && ref.Some? then ref.value else 0);
  }

  lemma {:induction false} AcceptBlind(terms: Terms, c: Core, x: nat, id: Uuid, r: Request, ref: int)
    ensures SameBut(c, x, Accept(terms, c, id, r, ref), Accept(terms, c.(offset := x), id, r, ref))
  {
    var s := Costing.SizeReservation(r.side, r.typ, r.qty, r.limitPrice, ref, terms);
    hide Costing.SizeReservation, InsertOrder, Reserve;
    if s.Sizing? {
      RiskBlind(c, x, r, s.kind, s.amount);
      hide RiskOk;
      InsertBlind(c, x, id, r, RowFor(r, ref, Rejected));
      InsertBlind(c, x, id, r, RowFor(r, ref, Accepted));
      var inserted := InsertOrder(c, id, r, RowFor(r, ref, Accepted));
      if inserted.Commit? { ReserveBlind(inserted.core, x, id, r, s); }
    }
  }

  /** A transaction that carries the offset through. */
  function Shifted(tx: Tx, x: nat): Tx { if tx.Commit? then Commit(tx.core.(offset := x)) else tx }

  lemma {:induction false} InsertBlind(c: Core, x: nat, id: Uuid, r: Request, row: OrderRow)
    ensures InsertOrder(c.(offset := x), id, r, row) == Shifted(InsertOrder(c, id, r, row), x)
    ensures InsertOrder(c, id, r, row).Commit? ==> InsertOrder(c, id, r, row).core.offset == c.offset
  {}

  lemma {:induction false} ReserveBlind(c: Core, x: nat, id: Uuid, r: Request, s: Costing.Sizing)
    requires s.Sizing?
    ensures Reserve(c.(offset := x), id, r, s) == Shifted(Reserve(c, id, r, s), x)
    ensures Reserve(c, id, r, s).Commit? ==> Reserve(c, id, r, s).core.offset == c.offset
  {}

  lemma {:induction false} RiskBlind(c: Core, x: nat, r: Request, kind: Costing.ResKind, amount: int)
    ensures RiskOk(c.(offset := x), r, kind, amount) == RiskOk(c, r, kind, amount)
  {}

  lemma {:induction false} OutcomeDone(c: Core, log: seq<Tagged>, high: nat, i: nat)
    requires i < |log| && high <= |log| && (i < high || log[i] in log[..high])
    requires |Deduped(log[..high])| <= |Deduped(log)| && AllDone(c, Deduped(log), |Deduped(log[..high])|)
    ensures Done(c, log[i].outcome)
  {
    hide Done, Deduped;
    DedupedPrefix(log, high);
    DedupedHas(log[..high]);
    var d := Deduped(log[..high]);
    assert log[i] in log[..high] by { if i < high { assert log[..high][i] == log[i]; } }
    var k :| 0 <= k < |d| && d[k] == log[i];
    assert Deduped(log)[k] == log[i];
  }

  /** A run over a log and the distilled run over the log without repeats. */
  ghost predicate Together(log: seq<Tagged>, p: Progress, q: Progress)
  {
    && p.high <= |log| && q.high == |Deduped(log[..p.high])| && p.core == q.core.(offset := p.core.offset)
    && Healthy(Deduped(log), q) && p.core.offset <= p.high
  }

  /** The two runs stay equal but for the stored offset, which never passes what was taken in. */
  lemma {:induction false} RunsAgree(terms: Terms, log: seq<Tagged>, events: seq<Delivery>)
    requires Conclusive(Untagged(Deduped(log))) && Causal(terms, log, events)
    ensures Together(log, Play(terms, log, events), Play(terms, Deduped(log), Distilled(terms, log, events)))
    ensures NothingTwice(terms, Deduped(log), Distilled(terms, log, events))
    decreases |events|
  {
    hide PlayOne, Together, Deduped;
    if events == [] {
      StartTogether(log);
      assert Distilled(terms, log, events) == [];
    } else {
      var before, e := events[..|events| - 1], events[|events| - 1];
      RunsAgree(terms, log, before);
      var p, q := Play(terms, log, before), Play(terms, Deduped(log), Distilled(terms, log, before));
      var more := if e.Client? then [e]
        else if FirstTime(terms, log, before, e.offset) then [Deliver(|Deduped(log[..e.offset])|)] else [];
      var d := Distilled(terms, log, before) + more;
      assert if more == [] then d == Distilled(terms, log, before) else d[..|d| - 1] == Distilled(terms, log, before);
      match e {
        case Client(a) => ClientAgrees(terms, log, p, q, a);
        case Deliver(i) =>
          if FirstTime(terms, log, before, i) {
            assert |Deduped(log[..i])| == q.high by { HighIs(log, p, q); }
            NewAgrees(terms, log, p, q);
          } else {
            RepeatAgrees(terms, log, p, q, i);
          }
      }
    }
  }

  lemma {:induction false} HighIs(log: seq<Tagged>, p: Progress, q: Progress)
    requires Together(log, p, q)
    ensures p.high <= |log| && q.high == |Deduped(log[..p.high])|
  {}

  lemma {:induction false} StartTogether(log: seq<Tagged>)
    ensures Together(log, Progress(Empty(), 0), Progress(Empty(), 0))
  {
    assert Deduped(log[..0]) == [];
  }

  lemma {:induction false} ClientAgrees(terms: Terms, log: seq<Tagged>, p: Progress, q: Progress, a: Action)
    requires Together(log, p, q)
    ensures Together(log, PlayOne(terms, log, p, Client(a)), PlayOne(terms, Deduped(log), q, Client(a)))
  {
    hide AllTidy, Act, AllDone, Deduped;
    if !a.Receive? {
      ClientOffsetBlind(terms, q.core, p.core.offset, a);
      ClientOffsetBlind(terms, p.core, p.core.offset, a);
      ClientHealthy(terms, Deduped(log), q, a);
    }
  }

  /** The next record, met for the first time, goes to both runs. */
  lemma {:induction false} NewAgrees(terms: Terms, log: seq<Tagged>, p: Progress, q: Progress)
    requires Together(log, p, q) && Conclusive(Untagged(Deduped(log))) && p.high < |log|
    requires log[p.high] !in log[..p.high]
    requires Answers(p.core, log[p.high].outcome)
    ensures Together(log, PlayOne(terms, log, p, Deliver(p.high)), PlayOne(terms, Deduped(log), q, Deliver(q.high)))
  {
    hide AllTidy, ApplyOutcome, AllDone, Conclusive, Deduped;
    var i, k, m := p.high, q.high, log[p.high].outcome;
    DedupedStep(log, i);
    OffsetBlind(terms, q.core, p.core.offset, i, m);
    AnyOffset(terms, q.core, i, k, m);
    OffsetAfter(terms, p.core, i, m);
    OffsetAfter(terms, q.core, k, m);
    FirstDelivery(terms, Deduped(log), q);
  }

  /** A record taken in before, or a copy of one, changes nothing but the offset. */
  lemma {:induction false} RepeatAgrees(terms: Terms, log: seq<Tagged>, p: Progress, q: Progress, i: nat)
    requires Together(log, p, q) && !(i < |log| && i == p.high && log[i] !in log[..i])
    ensures Together(log, PlayOne(terms, log, p, Deliver(i)), q)
  {
    hide AllTidy, ApplyOutcome, AllDone, Deduped;
    if i < |log| && i <= p.high {
      var m := log[i].outcome;
      DedupedPrefix(log, p.high);
      OutcomeDone(q.core, log, p.high, i);
      OffsetBlind(terms, q.core, p.core.offset, i, m);
      OffsetAfter(terms, p.core, i, m);
      RepeatIsNoOp(terms, q.core, i, m);
      if i == p.high { DedupedStep(log, i); }
    }
  }

  /** The offset a record is delivered under ends up in the stored offset and nowhere else. */
  lemma {:induction false} AnyOffset(terms: Terms, c: Core, i: nat, k: nat, m: Outcome)
    ensures var x, y := ApplyOutcome(terms, c, i, m), ApplyOutcome(terms, c, k, m);
      x.Commit? == y.Commit? && (x.Commit? ==> x.core == y.core.(offset := i + 1)) && (x.Abort? ==> x == y)
  {
    hide Costing.ChargeFor, Money.Notional, SettleHalf, Release, HasEvent, CancelStatus, DispositionStatus, Terminal;
    if m.FillHalf? {
      if m.account in c.clocks && m.order in c.orders {
        var ch := Costing.ChargeFor(m.qty, m.price, c.orders[m.order].filledNotional, FeeRate(terms, m.role));
        if ch.Charge? { SettleShifts(c.(offset := k + 1), i + 1, m, ch.notional, ch.fee); }
      }
    } else {
      ReleaseShifts(c, i + 1, k + 1, m.order);
    }
  }

  lemma {:induction false} ReleaseShifts(c: Core, x: nat, y: nat, id: Uuid)
    ensures forall orders ::
      Release(c.(offset := x, orders := orders), id) == Release(c.(offset := y, orders := orders), id).(offset := x)
    ensures Release(c.(offset := x), id) == Release(c.(offset := y), id).(offset := x)
  {}

  lemma {:induction false} SettleShifts(c: Core, x: nat, m: Outcome, notional: int, fee: int)
    requires m.FillHalf? && m.account in c.clocks && m.order in c.orders
    ensures SettleHalf(c.(offset := x), m, notional, fee) == Shifted(SettleHalf(c, m, notional, fee), x)
  {
    hide Costing.SettleRow, WriteTxn, MovePosition, Settle, Ledger.Advance;
    var t := Txn(m.account, c.clocks[m.account], FillHalfTxn, m.eventId, Some(m.order),
      HalfFillLegs(m.symbol, m.qty, notional, fee, m.buying));
    var h := Holding(m.account, m.symbol);
    WriteShifts(c, x, t);
    var c1 := WriteTxn(c, t);
    MoveShifts(c1, x, h, m.qty, notional, fee, m.buying);
    var c2 := MovePosition(c1, h, m.qty, notional, fee, m.buying);
    RowShifts(c2, x, m.order, c.orders[m.order].filledQty, m.qty, notional, fee, m.buying);
    WriteTouches(c, t);
    match Settle(c2, m.order, c.orders[m.order].filledQty, m.qty, notional, fee, m.buying) {
      case Abort(_) =>
      case Commit(c3) => AdvanceShifts(c3, x, m.order, m.qty, notional);
    }
  }

  lemma {:induction false} WriteTouches(c: Core, t: Txn)
    requires t.account in c.clocks
    ensures WriteTxn(c, t).orders == c.orders
    ensures forall h, q, n, f, b :: MovePosition(WriteTxn(c, t), h, q, n, f, b).orders == c.orders
    ensures forall h, q, n, f, b, id, p ::
      (var tx := Settle(MovePosition(WriteTxn(c, t), h, q, n, f, b), id, p, q, n, f, b); tx.Commit? ==>
        tx.core.orders == c.orders)
  {
    hide Posted, Moved, Costing.SettleRow, ApplyBuy, ApplySell;
  }

  lemma {:induction false} WriteShifts(c: Core, x: nat, t: Txn)
    requires t.account in c.clocks
    ensures WriteTxn(c.(offset := x), t) == WriteTxn(c, t).(offset := x)
  {
    hide Posted, Moved;
  }

  lemma {:induction false} MoveShifts(c: Core, x: nat, h: Holding, qty: int, notional: int, fee: int, buying: bool)
    ensures MovePosition(c.(offset := x), h, qty, notional, fee, buying) ==
      MovePosition(c, h, qty, notional, fee, buying).(offset := x)
  {
    hide ApplyBuy, ApplySell;
  }

  lemma {:induction false} RowShifts(c: Core, x: nat, id: Uuid, prior: int, qty: int, notional: int, fee: int,
      buying: bool)
    ensures Settle(c.(offset := x), id, prior, qty, notional, fee, buying) ==
      Shifted(Settle(c, id, prior, qty, notional, fee, buying), x)
  {
    hide Costing.SettleRow;
  }

  lemma {:induction false} AdvanceShifts(c: Core, x: nat, id: Uuid, qty: int, notional: int)
    requires id in c.orders
    ensures Ledger.Advance(c.(offset := x), id, qty, notional) == Shifted(Ledger.Advance(c, id, qty, notional), x)
  {
    hide FilledStatus;
  }

  /** A committed record leaves its successor's offset. */
  lemma {:induction false} OffsetAfter(terms: Terms, c: Core, i: nat, m: Outcome)
    ensures After(c, ApplyOutcome(terms, c, i, m)).offset ==
      if ApplyOutcome(terms, c, i, m).Commit? then i + 1 else c.offset
  {
    forall y, id ensures Release(y, id).offset == y.offset {}
    hide Costing.ChargeFor, Money.Notional, SettleHalf, Release, HasEvent, DispositionStatus, CancelStatus, Terminal;
    if m.FillHalf? && ApplyFillHalf(terms, c, i, m).Commit? && !HasEvent(c.txns, m.eventId) {
      var ch := Costing.ChargeFor(m.qty, m.price, c.orders[m.order].filledNotional, FeeRate(terms, m.role));
      SettleOffset(c.(offset := i + 1), m, ch.notional, ch.fee);
    }
  }

  lemma {:induction false} SettleOffset(c: Core, m: Outcome, notional: int, fee: int)
    requires m.FillHalf? && m.account in c.clocks && m.order in c.orders && SettleHalf(c, m, notional, fee).Commit?
    ensures SettleHalf(c, m, notional, fee).core.offset == c.offset
  {
    hide Costing.SettleRow, Posted, Moved, HalfFillLegs, ApplyBuy, ApplySell, FilledStatus;
  }

  /** Whatever the log repeats and whatever is delivered again, after restarts or rewinds, interleaved with any client
      operations: the postings, balances, positions, reservations, statuses and filled amounts are those of delivering
      each outcome of the log without repeats once. */
  lemma {:induction false} SettledExactlyOnce(terms: Terms, log: seq<Tagged>, events: seq<Delivery>)
    requires Conclusive(Untagged(Deduped(log))) && Causal(terms, log, events)
    ensures var once := Distilled(terms, log, events);
      && Play(terms, log, events).high <= |log|
      && NothingTwice(terms, Deduped(log), once)
      && Play(terms, log, events).core.(offset := 0) == Play(terms, Deduped(log), once).core.(offset := 0)
      && Play(terms, Deduped(log), once).high == |Deduped(log[..Play(terms, log, events).high])|
  {
    RunsAgree(terms, log, events);
  }

  /** The durable offset never skips a record: a restart from it resumes at or before the first one not taken in. */
  lemma {:induction false} DurableOffsetIsSafe(terms: Terms, log: seq<Tagged>, events: seq<Delivery>)
    requires Conclusive(Untagged(Deduped(log))) && Causal(terms, log, events)
    ensures Play(terms, log, events).core.offset <= Play(terms, log, events).high <= |log|
  {
    RunsAgree(terms, log, events);
  }
}
