/** The trading core's transactions step by step: internal/engine/{engine,submit,cancel,outcomes,position}.go. Each
    method
    works on a copy of the tables and installs it only when the body ends without an error. */
module Engine {
  import opened Types
  import opened Ledger
  import opened Sums
  import Costing
  import Matching
  import Money

  /** A method's outcome against the transaction that specifies it. */
  ghost predicate Ran(before: Core, tx: Tx, now: Core, err: Option<Why>)
  {
    now == After(before, tx) && err == if tx.Commit? then None else Some(tx.why)
  }

  /** `positionState`, with its methods on the fields. */
  class PositionState {
    var Qty: int
    var Basis: int
    var Realized: int

    function View(): Position
      reads this
    {
      Position(Qty, Basis, Realized)
    }

    constructor (p: Position)
      ensures View() == p
    {
      Qty, Basis, Realized := p.qty, p.basis, p.realized;
    }

    method applyBuy(qty: int, cost: int)
      modifies this
      ensures View() == ApplyBuy(old(View()), qty, cost)
    {
      Qty := Qty + qty;
      Basis := Basis + cost;
    }

    method applySell(qty: int, proceeds: int)
      modifies this
      ensures View() == ApplySell(old(View()), qty, proceeds)
    {
      var costOut := 0;
      if Qty <= 0 {
        costOut := 0;
      } else if qty >= Qty {
        costOut := Basis;
      } else {
        costOut := Truncated(Money.Wrap64(Basis * qty), Qty);
      }
      Realized := Realized + (proceeds - costOut);
      Qty := Qty - qty;
      Basis := Basis - costOut;
    }

    method apply(deltaQty: int, cashLeg: int)
      modifies this
      ensures View() == ApplyDelta(old(View()), deltaQty, cashLeg)
    {
      if deltaQty >= 0 {
        applyBuy(deltaQty, -cashLeg);
      } else {
        applySell(-deltaQty, cashLeg);
      }
    }
  }

  /** `writeTxn`: skip zero legs, post the others, move the balance projection by what they moved. */
  method Write(c: Core, t: Txn) returns (tx: Core)
    requires t.account in c.clocks
    ensures tx == WriteTxn(c, t)
  {
    var posted: seq<Leg> := [];
    var dCash, dFees := 0, 0;
    var i := 0;
    while i < |t.legs|
      invariant 0 <= i <= |t.legs| && posted + Posted(t.legs[i..]) == Posted(t.legs)
      invariant dCash + Moved(t.legs[i..], CashAcct) == Moved(t.legs, CashAcct)
      invariant dFees + Moved(t.legs[i..], FeesAcct) == Moved(t.legs, FeesAcct)
    {
      var l := t.legs[i];
      assert t.legs[i..][0] == l && t.legs[i..][1..] == t.legs[i + 1..];
      if l.amount != 0 {
        posted := posted + [l];
        if l.kind == CashAcct { dCash := dCash + l.amount; }
        if l.kind == FeesAcct { dFees := dFees + l.amount; }
      }
      i := i + 1;
    }
    assert posted == Posted(t.legs);
    tx := c.(txns := c.txns + [t.(legs := posted)]);
    if dCash != 0 || dFees != 0 {
      var b := BalanceOf(tx, t.account);
      tx := tx.(balances := tx.balances[t.account := Balance(b.cash + dCash, b.fees + dFees)]);
    }
    tx := tx.(clocks := tx.clocks[t.account := tx.clocks[t.account] + 1]);
  }

  /** The aggregate of the balance and share-availability queries. */
  method SumOpen(rs: map<Uuid, Reservation>, account: Uuid, kind: Costing.ResKind, symbol: Text) returns (total: int)
    ensures total == Sum(OpenIn(rs, account, kind, symbol))
  {
    total := 0;
    var rest := OpenIn(rs, account, kind, symbol);
    while rest != map[]
      invariant total + Sum(rest) == Sum(OpenIn(rs, account, kind, symbol))
      decreases |rest|
    {
      var id :| id in rest;
      SumRemove(rest, id);
      total := total + rest[id];
      rest := rest - {id};
    }
  }

  class Engine {
    const terms: Terms
    var db: Core

    constructor (terms: Terms, db: Core)
      ensures this.terms == terms && this.db == db
    {
      this.terms := terms;
      this.db := db;
    }

    method Deposit(a: Uuid, amount: int) returns (err: Option<Why>)
      modifies this`db
      ensures Ran(old(db), Ledger.Deposit(old(db), a, amount), db, err)
    {
      hide WriteTxn;
      if amount <= 0 { return Some(InvalidAmount); }
      if a !in db.clocks { return Some(NoSuchAccount); }
      var seqNo := db.clocks[a];
      if HasEvent(db.txns, LedgerEvent(a, seqNo)) { return Some(KeyConflict); }
      var tx := Write(db, Txn(a, seqNo, DepositTxn, LedgerEvent(a, seqNo), None,
                              [Leg(CashAcct, [], amount), Leg(ExternalAcct, [], -amount)]));
      db := tx;
      err := None;
    }

    method SeedShares(a: Uuid, symbol: Text, qty: int, price: int) returns (err: Option<Why>)
      modifies this`db
      ensures Ran(old(db), Ledger.SeedShares(old(db), a, symbol, qty, price), db, err)
    {
      hide WriteTxn, Money.Notional;
      if qty <= 0 { return Some(InvalidAmount); }
      var cost := Money.Notional(qty, price);
      if cost.None? { return Some(Overflow); }
      var basis := cost.value;
      if a !in db.clocks { return Some(NoSuchAccount); }
      var seqNo := db.clocks[a];
      var reserved := SumOpen(db.reservations, a, Costing.Cash, []);
      if BalanceOf(db, a).cash - reserved < basis { return Some(InsufficientBuyingPower); }
      if HasEvent(db.txns, LedgerEvent(a, seqNo)) { return Some(KeyConflict); }
      var tx := Write(db, Txn(a, seqNo, DepositTxn, LedgerEvent(a, seqNo), None, SeedLegs(symbol, qty, basis)));
      var p := new PositionState(PositionOf(tx, Holding(a, symbol)));
      p.applyBuy(qty, basis);
      tx := tx.(positions := tx.positions[Holding(a, symbol) := p.View()]);
      db := tx;
      err := None;
    }

    /** `riskCheck`, under the account's lock. */
    method RiskCheck(c: Core, r: Request, kind: Costing.ResKind, amount: int) returns (ok: bool)
      ensures ok <==> RiskOk(c, r, kind, amount)
    {
      if kind == Costing.Cash {
        var reserved := SumOpen(c.reservations, r.account, Costing.Cash, []);
        return BalanceOf(c, r.account).cash - reserved >= amount;
      }
      var reserved := SumOpen(c.reservations, r.account, Costing.Shares, r.symbol);
      ok := PositionOf(c, Holding(r.account, r.symbol)).qty - reserved >= amount;
    }

    method Submit(id: Uuid, r: Request, ref: Option<int>) returns (err: Option<Why>)
      modifies this`db
      ensures Ran(old(db), Ledger.Submit(terms, old(db), id, r, ref), db, err)
    {
      hide Accept;
      if r.qty <= 0 { return Some(InvalidOrder); }
      if r.typ == Limit && r.limitPrice <= 0 { return Some(InvalidOrder); }
      if r.clientId == [] { return Some(InvalidOrder); }
      var stamped := 0;
      if r.typ == Market {
        if ref.None? { return Some(NoReference); }
        stamped := ref.value;
      }
      err := AcceptOrder(id, r, stamped);
    }

    method AcceptOrder(id: Uuid, r: Request, ref: int) returns (err: Option<Why>)
      modifies this`db
      ensures Ran(old(db), Accept(terms, old(db), id, r, ref), db, err)
    {
      hide Costing.SizeReservation, RiskOk;
      var tx := db;
      if r.account !in tx.clocks { return Some(NoSuchAccount); }
      if ClientKey(r.account, r.clientId) in tx.clients { return None; }
      var s := Costing.SizeReservation(r.side, r.typ, r.qty, r.limitPrice, ref, terms);
      if s.Overflow? { return Some(Overflow); }
      var ok := RiskCheck(tx, r, s.kind, s.amount);
      if id in tx.orders { return Some(KeyConflict); }
      tx := tx.(orders := tx.orders[id := RowFor(r, ref, if ok then Accepted else Rejected)],
                clients := tx.clients[ClientKey(r.account, r.clientId) := id]);
      if ok {
        var reservation := ReservationFor(r, s);
        if id in tx.reservations { return Some(KeyConflict); }
        if !reservation.row.Legal() { return Some(CheckViolation); }
        tx := tx.(reservations := tx.reservations[id := reservation]);
        tx := tx.(outbox := tx.outbox + [MessageFor(id, r, ref)]);
      }
      db := tx;
      err := None;
    }

    method RequestCancel(id: Uuid) returns (err: Option<Why>)
      modifies this`db
      ensures Ran(old(db), Ledger.RequestCancel(old(db), id), db, err)
    {
      var tx := db;
      if id !in tx.orders { return Some(NoSuchOrder); }
      var account, symbol := tx.orders[id].account, tx.orders[id].symbol;
      if account !in tx.clocks { return Some(NoSuchAccount); }
      var status := tx.orders[id].status;
      if Terminal(status) { return None; }
      if status == PendingCancel { return None; }
      tx := tx.(orders := tx.orders[id := tx.orders[id].(status := PendingCancel)]);
      tx := tx.(outbox := tx.outbox + [Matching.CancelRequested(id, account, symbol)]);
      db := tx;
      err := None;
    }

    method ApplyFillHalf(offset: nat, m: Matching.Outcome) returns (err: Option<Why>)
      requires m.FillHalf?
      modifies this`db
      ensures Ran(old(db), Ledger.ApplyFillHalf(terms, old(db), offset, m), db, err)
    {
      hide Money.Notional, Money.FeeBps, SettleHalf;
      var n := Money.Notional(m.qty, m.price);
      if n.None? { return Some(Overflow); }
      var notional := n.value;
      var tx := db.(offset := offset + 1);
      if m.account !in tx.clocks { return Some(NoSuchAccount); }
      if m.order !in tx.orders { return Some(NoSuchOrder); }
      var priorNotional := tx.orders[m.order].filledNotional;
      var feeBps := terms.makerBps;
      if m.role == Taker { feeBps := terms.takerBps; }
      var feeBefore := Money.FeeBps(priorNotional, feeBps);
      var feeAfter := Money.FeeBps(Money.Wrap64(priorNotional + notional), feeBps);
      if feeBefore.None? || feeAfter.None? { return Some(Overflow); }
      var fee := Money.Wrap64(feeAfter.value - feeBefore.value);
      if HasEvent(tx.txns, m.eventId) {
        db := tx;
        return None;
      }
      var done := SettleNew(tx, m, notional, fee);
      if done.Abort? { return Some(done.why); }
      db := done.core;
      err := None;
    }

    method ApplyDisposition(offset: nat, m: Matching.Outcome) returns (err: Option<Why>)
      requires m.Verdict?
      modifies this`db
      ensures Ran(old(db), Ledger.ApplyDisposition(old(db), offset, m), db, err)
    {
      var tx := db.(offset := offset + 1);
      if m.account !in tx.clocks { return Some(NoSuchAccount); }
      if m.order in tx.orders && !Terminal(tx.orders[m.order].status) && tx.orders[m.order].status != PendingCancel {
        var o := tx.orders[m.order];
        var status := Status.Cancelled;
        if m.disposition == Complete {
          status := Filled;
        } else if m.disposition == Rested {
          status := if o.filledQty > 0 then PartiallyFilled else Accepted;
        }
        tx := tx.(orders := tx.orders[m.order := o.(status := status)]);
      }
      tx := ReleaseIfTerminal(tx, m.order);
      db := tx;
      err := None;
    }

    method ApplyCancelOutcome(offset: nat, m: Matching.Outcome) returns (err: Option<Why>)
      requires m.CancelOutcome?
      modifies this`db
      ensures Ran(old(db), Ledger.ApplyCancelOutcome(old(db), offset, m), db, err)
    {
      var tx := db.(offset := offset + 1);
      if m.account !in tx.clocks { return Some(NoSuchAccount); }
      if m.order in tx.orders {
        var o := tx.orders[m.order];
        var status := o.status;
        if m.cancelled {
          if !Terminal(o.status) { status := Status.Cancelled; }
        } else if o.status == PendingCancel {
          status := if o.filledQty >= o.qty then Filled else Status.Cancelled;
        }
        tx := tx.(orders := tx.orders[m.order := o.(status := status)]);
      }
      tx := ReleaseIfTerminal(tx, m.order);
      db := tx;
      err := None;
    }

    method ApplyOutcome(offset: nat, m: Matching.Outcome) returns (err: Option<Why>)
      modifies this`db
      ensures Ran(old(db), Ledger.ApplyOutcome(terms, old(db), offset, m), db, err)
    {
      hide Ledger.ApplyFillHalf, Ledger.ApplyDisposition, Ledger.ApplyCancelOutcome;
      match m
      case FillHalf(_, _, _, _, _, _, _, _, _, _) => err := ApplyFillHalf(offset, m);
      case Verdict(_, _, _, _, _, _) => err := ApplyDisposition(offset, m);
      case CancelOutcome(_, _, _, _, _, _) => err := ApplyCancelOutcome(offset, m);
    }

    /** The consumer's `PumpOnce`: a batch from the reader's position, stopping at the first record that fails. */
    method PumpOnce(log: seq<Matching.Outcome>, at: nat, batch: nat) returns (applied: nat, err: Option<Why>)
      requires at <= |log| && batch > 0
      modifies this`db
      ensures applied <= Min(|log| - at, batch) && (err.None? ==> applied == Min(|log| - at, batch))
      ensures db == ApplyAll(terms, old(db), at, log[at..at + applied])
      ensures err.Some? ==>
        at + applied < |log| && Ledger.ApplyOutcome(terms, db, at + applied, log[at + applied]) == Abort(err.value)
    {
      hide Ledger.ApplyOutcome, ApplyAll;
      var recs := log[at..at + Min(|log| - at, batch)];
      applied, err := 0, None;
      NoneApplied(terms, db, at, recs[..0]);
      while applied < |recs|
        invariant 0 <= applied <= |recs| && db == ApplyAll(terms, old(db), at, recs[..applied]) && err.None?
      {
        OneApplied(terms, old(db), at, recs, applied);
        err := ApplyOutcome(at + applied, recs[applied]);
        if err.Some? {
          assert recs[..applied] == log[at..at + applied];
          return;
        }
        applied := applied + 1;
      }
      assert recs[..applied] == log[at..at + applied];
    }
  }

  /** The rest of `applyFillHalf`, once the event is known to be new: postings, position, reservation, order. */
  method SettleNew(c: Core, m: Matching.Outcome, notional: int, fee: int) returns (r: Tx)
    requires m.FillHalf? && m.account in c.clocks && m.order in c.orders
    ensures r == SettleHalf(c, m, notional, fee)
  {
    hide Settle, Advance, WriteTxn, ApplyBuy, ApplySell;
    var tx := Write(c, Txn(m.account, c.clocks[m.account], FillHalfTxn, m.eventId, Some(m.order),
                           HalfFillLegs(m.symbol, m.qty, notional, fee, m.buying)));
    var h := Holding(m.account, m.symbol);
    var p := new PositionState(PositionOf(tx, h));
    if m.buying { p.applyBuy(m.qty, notional + fee); } else { p.applySell(m.qty, notional - fee); }
    tx := tx.(positions := tx.positions[h := p.View()]);
    var settled := SettleReservation(tx, m.order, c.orders[m.order].filledQty, m.qty, notional, fee, m.buying);
    if settled.Abort? { return settled; }
    SettleKeepsOrders(tx, m.order, c.orders[m.order].filledQty, m.qty, notional, fee, m.buying);
    WriteKeepsOrders(c, Txn(m.account, c.clocks[m.account], FillHalfTxn, m.eventId, Some(m.order),
                            HalfFillLegs(m.symbol, m.qty, notional, fee, m.buying)));
    r := AdvanceOrder(settled.core, m.order, m.qty, notional);
  }

  lemma {:induction false} WriteKeepsOrders(c: Core, t: Txn)
    requires t.account in c.clocks
    ensures WriteTxn(c, t).orders == c.orders
  {}

  lemma {:induction false} SettleKeepsOrders(c: Core, id: Uuid, priorQty: int, qty: int, notional: int, fee: int,
      buying: bool)
    ensures var tx := Settle(c, id, priorQty, qty, notional, fee, buying); tx.Commit? ==> tx.core.orders == c.orders
  {}

  /** `settleReservation`. */
  method SettleReservation(c: Core, id: Uuid, priorQty: int, qty: int, notional: int, fee: int, buying: bool)
      returns (tx: Tx)
    ensures tx == Settle(c, id, priorQty, qty, notional, fee, buying)
  {
    hide Costing.Owed;
    if id !in c.reservations { return Abort(NoReservation); }
    var r := c.reservations[id];
    var row := r.row;
    var cost, release := qty, 0;
    if buying {
      cost := notional + fee;
      if row.unitPrice.Some? {
        release := Costing.Owed(priorQty + qty, row.unitPrice.value, row.feeBps) -
          Costing.Owed(priorQty, row.unitPrice.value, row.feeBps) - cost;
      }
    }
    var headroom := row.reserved - row.consumed - row.released - cost;
    if release > headroom { release := headroom; }
    if release < 0 { release := 0; }
    row := row.(consumed := row.consumed + cost, released := row.released + release);
    if !row.Legal() { return Abort(CheckViolation); }
    tx := Commit(c.(reservations := c.reservations[id := r.(row := row)]));
  }

  /** `advanceOrderFill`. */
  method AdvanceOrder(c: Core, id: Uuid, qty: int, notional: int) returns (tx: Tx)
    requires id in c.orders
    ensures tx == Advance(c, id, qty, notional)
  {
    var o := c.orders[id];
    if !Money.Is64(o.filledQty + qty) || !Money.Is64(o.filledNotional + notional) { return Abort(OutOfRange); }
    var status := PartiallyFilled;
    if o.filledQty + qty >= o.qty {
      status := Filled;
    } else if o.status == PendingCancel {
      status := PendingCancel;
    }
    var filled := o.(filledQty := o.filledQty + qty, filledNotional := o.filledNotional + notional, status := status);
    var next := c.(orders := c.orders[id := filled]);
    next := ReleaseIfTerminal(next, id);
    tx := Commit(next);
  }

  method ReleaseIfTerminal(c: Core, id: Uuid) returns (r: Core)
    ensures r == Release(c, id)
  {
    r := c;
    if id in c.orders && Terminal(c.orders[id].status) && id in c.reservations {
      var res := c.reservations[id];
      if res.row.consumed + res.row.released != res.row.reserved {
        r := c.(reservations :=
          c.reservations[id := res.(row := res.row.(released := res.row.reserved - res.row.consumed))]);
      } else {
        assert c.reservations[id := res.(row := res.row.(released := res.row.reserved - res.row.consumed))] ==
          c.reservations;
      }
    }
  }

  /** Records applied in order from an offset, as long as they commit. */
  function ApplyAll(terms: Terms, c: Core, at: nat, recs: seq<Matching.Outcome>): Core
    decreases |recs|
  {
    if recs == [] then c
    else
      var before := ApplyAll(terms, c, at, recs[..|recs| - 1]);
      After(before, ApplyOutcome(terms, before, at + |recs| - 1, recs[|recs| - 1]))
  }

  lemma {:induction false} NoneApplied(terms: Terms, c: Core, at: nat, recs: seq<Matching.Outcome>)
    requires recs == []
    ensures ApplyAll(terms, c, at, recs) == c
  {}

  lemma {:induction false} OneApplied(terms: Terms, c: Core, at: nat, recs: seq<Matching.Outcome>, k: nat)
    requires k < |recs|
    ensures ApplyAll(terms, c, at, recs[..k + 1]) ==
      (var before := ApplyAll(terms, c, at, recs[..k]); After(before, ApplyOutcome(terms, before, at + k, recs[k])))
  {
    hide ApplyOutcome;
    assert recs[..k + 1][..k] == recs[..k] && recs[..k + 1][k] == recs[k];
  }
}
