/** The tables of one trading core and its transactions: internal/engine. Every operation either commits a whole new
    state or leaves the old one. */
module Ledger {
  import opened Types
  import Costing
  import Matching
  import Money
  import opened Sums

  type Terms = Costing.Terms

  datatype Status = Accepted | PartiallyFilled | Filled | Cancelled | Rejected | PendingCancel | Expired

  predicate Terminal(s: Status) { s == Filled || s == Status.Cancelled || s == Rejected || s == Expired }

  datatype LedgerKind = CashAcct | PositionAcct | FeesAcct | ClearingAcct | ExternalAcct

  /** One posting; the empty symbol is the cash unit. */
  datatype Leg = Leg(kind: LedgerKind, symbol: Text, amount: int)
  datatype TxnKind = DepositTxn | FillHalfTxn

  datatype Txn = Txn(account: Uuid, seqNo: nat, kind: TxnKind, event: EventId, order: Option<Uuid>, legs: seq<Leg>)

  datatype Balance = Balance(cash: int, fees: int)
  datatype Holding = Holding(account: Uuid, symbol: Text)
  datatype Position = Position(qty: int, basis: int, realized: int)
  datatype ClientKey = ClientKey(account: Uuid, clientId: Text)

  datatype OrderRow = OrderRow(
    account: Uuid, symbol: Text, side: Side, typ: OrderType, tif: Tif, qty: int, limitPrice: int, refPrice: int,
    venue: Text, status: Status, filledQty: int, filledNotional: int)

  datatype Reservation = Reservation(account: Uuid, symbol: Text, row: Costing.Row)

  datatype Core = Core(
    clocks: map<Uuid, nat>, balances: map<Uuid, Balance>, positions: map<Holding, Position>,
    orders: map<Uuid, OrderRow>, clients: map<ClientKey, Uuid>, reservations: map<Uuid, Reservation>,
    txns: seq<Txn>, outbox: seq<Matching.Inbound>, offset: nat)

  datatype Why = InvalidAmount | InvalidOrder | NoReference | Overflow | NoSuchAccount | InsufficientBuyingPower
    | NoSuchOrder | KeyConflict | CheckViolation | NoReservation | OutOfRange

  /** A transaction body's end: everything it wrote, or nothing. */
  datatype Tx = Commit(core: Core) | Abort(why: Why)

  function After(c: Core, tx: Tx): Core { if tx.Commit? then tx.core else c }

  // ---- ledger ------------------------------------------------------------------------------------

  predicate HasEvent(txns: seq<Txn>, e: EventId) { exists i :: 0 <= i < |txns| && txns[i].event == e }

  function Posted(legs: seq<Leg>): seq<Leg>
  {
    if legs == [] then [] else (if legs[0].amount == 0 then [] else [legs[0]]) + Posted(legs[1..])
  }

  /** The total a transaction moves in one kind of ledger account. */
  function Moved(legs: seq<Leg>, kind: LedgerKind): int
  {
    if legs == [] then 0 else (if legs[0].kind == kind then legs[0].amount else 0) + Moved(legs[1..], kind)
  }

  function BalanceOf(c: Core, a: Uuid): Balance { if a in c.balances then c.balances[a] else Balance(0, 0) }
  function PositionOf(c: Core, h: Holding): Position { if h in c.positions then c.positions[h] else Position(0, 0, 0) }

  /** `writeTxn` for an event not yet applied: the postings, the balance projection and the account clock together. */
  function WriteTxn(c: Core, t: Txn): Core
    requires t.account in c.clocks
  {
    var b := BalanceOf(c, t.account);
    var dCash, dFees := Moved(t.legs, CashAcct), Moved(t.legs, FeesAcct);
    c.(txns := c.txns + [t.(legs := Posted(t.legs))],
       balances := if dCash != 0 || dFees != 0 then c.balances[t.account := Balance(b.cash + dCash, b.fees + dFees)]
         else c.balances,
       clocks := c.clocks[t.account := c.clocks[t.account] + 1])
  }

  // ---- positions ---------------------------------------------------------------------------------

  /** Go's integer division. */
  function Truncated(a: int, b: int): int
    requires b > 0
  {
    if a >= 0 then a / b else -((-a) / b)
  }

  function ApplyBuy(p: Position, qty: int, cost: int): Position { p.(qty := p.qty + qty, basis := p.basis + cost) }

  /** The basis given up by a sale: none when nothing is held, all of it on a full close, a share of it otherwise. */
  function CostOut(p: Position, qty: int): int
  {
    if p.qty <= 0 then 0
    else if qty >= p.qty then p.basis
    else Truncated(Money.Wrap64(p.basis * qty), p.qty)
  }

  function ApplySell(p: Position, qty: int, proceeds: int): Position
  {
    Position(p.qty - qty, p.basis - CostOut(p, qty), p.realized + proceeds - CostOut(p, qty))
  }

  function ApplyDelta(p: Position, delta: int, cash: int): Position
  {
    if delta >= 0 then ApplyBuy(p, delta, -cash) else ApplySell(p, -delta, cash)
  }

  // ---- reservations --------------------------------------------------------------------------------

  /** What one reservation still holds of a pool: an account's cash, or its shares of a symbol. */
  predicate InPool(r: Reservation, account: Uuid, kind: Costing.ResKind, symbol: Text)
  {
    r.account == account && r.row.kind == kind && (kind == Costing.Shares ==> r.symbol == symbol)
  }

  function OpenIn(rs: map<Uuid, Reservation>, account: Uuid, kind: Costing.ResKind, symbol: Text): map<Uuid, int>
  {
    map id | id in rs && InPool(rs[id], account, kind, symbol) :: rs[id].row.Open()
  }

  /** sum(reserved - consumed - released). */
  ghost function Held(c: Core, account: Uuid, kind: Costing.ResKind, symbol: Text): int
  {
    Sum(OpenIn(c.reservations, account, kind, symbol))
  }

  ghost function BuyingPower(c: Core, a: Uuid): int { BalanceOf(c, a).cash - Held(c, a, Costing.Cash, []) }

  // ---- funding -------------------------------------------------------------------------------------

  function Deposit(c: Core, a: Uuid, amount: int): Tx
  {
    if amount <= 0 then Abort(InvalidAmount)
    else if a !in c.clocks then Abort(NoSuchAccount)
    else
      var event := LedgerEvent(a, c.clocks[a]);
      if HasEvent(c.txns, event) then Abort(KeyConflict)
      else Commit(WriteTxn(c,
        Txn(a, c.clocks[a], DepositTxn, event, None, [Leg(CashAcct, [], amount), Leg(ExternalAcct, [], -amount)])))
  }

  function SeedLegs(symbol: Text, qty: int, basis: int): seq<Leg>
  {
    [Leg(CashAcct, [], -basis), Leg(ExternalAcct, [], basis), Leg(PositionAcct, symbol, qty),
      Leg(ExternalAcct, symbol, -qty)]
  }

  ghost function SeedShares(c: Core, a: Uuid, symbol: Text, qty: int, price: int): Tx
  {
    if qty <= 0 then Abort(InvalidAmount)
    else
      match Money.Notional(qty, price)
      case None => Abort(Overflow)
      case Some(basis) =>
        if a !in c.clocks then Abort(NoSuchAccount)
        else if BuyingPower(c, a) < basis then Abort(InsufficientBuyingPower)
        else
          var event := LedgerEvent(a, c.clocks[a]);
          if HasEvent(c.txns, event) then Abort(KeyConflict)
          else
            var c' := WriteTxn(c, Txn(a, c.clocks[a], DepositTxn, event, None, SeedLegs(symbol, qty, basis)));
            var h := Holding(a, symbol);
            Commit(c'.(positions := c'.positions[h := ApplyBuy(PositionOf(c', h), qty, basis)]))
  }

  // ---- accepting -----------------------------------------------------------------------------------

  datatype Request = Request(
    account: Uuid, clientId: Text, symbol: Text, side: Side, typ: OrderType, tif: Tif, qty: int, limitPrice: int,
      venue: Text)

  function RowFor(r: Request, ref: int, status: Status): OrderRow
  {
    OrderRow(r.account, r.symbol, r.side, r.typ, r.tif, r.qty, r.limitPrice, ref, r.venue, status, 0, 0)
  }

  ghost predicate RiskOk(c: Core, r: Request, kind: Costing.ResKind, amount: int)
  {
    if kind == Costing.Cash then BuyingPower(c, r.account) >= amount
    else PositionOf(c, Holding(r.account, r.symbol)).qty - Held(c, r.account, Costing.Shares, r.symbol) >= amount
  }

  function InsertOrder(c: Core, id: Uuid, r: Request, row: OrderRow): Tx
  {
    if id in c.orders then Abort(KeyConflict)
    else Commit(c.(orders := c.orders[id := row], clients := c.clients[ClientKey(r.account, r.clientId) := id]))
  }

  function MessageFor(id: Uuid, r: Request, ref: int): Matching.Inbound
  {
    Matching.OrderAccepted(id, r.account, r.symbol, r.side, r.typ, r.tif, r.qty, r.limitPrice, ref, r.venue)
  }

  function ReservationFor(r: Request, s: Costing.Sizing): Reservation
    requires s.Sizing?
  {
    Reservation(r.account, if s.kind == Costing.Shares then r.symbol else [],
      Costing.Row(s.kind, s.amount, 0, 0, if s.unitPrice > 0 then Some(s.unitPrice) else None, s.feeBps))
  }

  function Reserve(c: Core, id: Uuid, r: Request, s: Costing.Sizing): Tx
    requires s.Sizing?
  {
    if id in c.reservations then Abort(KeyConflict)
    else if !ReservationFor(r, s).row.Legal() then Abort(CheckViolation)
    else Commit(c.(reservations := c.reservations[id := ReservationFor(r, s)]))
  }

  /** `accept`, with the order id the caller drew and the stamped reference price (0 for a limit order). */
  ghost function Accept(terms: Terms, c: Core, id: Uuid, r: Request, ref: int): Tx
  {
    if r.account !in c.clocks then Abort(NoSuchAccount)
    else if ClientKey(r.account, r.clientId) in c.clients then Commit(c)
    else
      var s := Costing.SizeReservation(r.side, r.typ, r.qty, r.limitPrice, ref, terms);
      if s.Overflow? then Abort(Overflow)
      else if !RiskOk(c, r, s.kind, s.amount) then InsertOrder(c, id, r, RowFor(r, ref, Rejected))
      else
        match InsertOrder(c, id, r, RowFor(r, ref, Accepted))
        case Abort(w) => Abort(w)
        case Commit(c1) =>
          match Reserve(c1, id, r, s)
          case Abort(w) => Abort(w)
          case Commit(c2) => Commit(c2.(outbox := c2.outbox + [MessageFor(id, r, ref)]))
  }

  /** `Submit`: validation, then `accept`; a market order needs a reference price, a limit order carries none. */
  ghost function Submit(terms: Terms, c: Core, id: Uuid, r: Request, ref: Option<int>): Tx
  {
    if r.qty <= 0 || (r.typ == Limit && r.limitPrice <= 0) || r.clientId == [] then Abort(InvalidOrder)
    else if r.typ == Market && ref.None? then Abort(NoReference)
    else Accept(terms, c, id, r, if r.typ == Market then ref.value else 0)
  }

  function RequestCancel(c: Core, id: Uuid): Tx
  {
    if id !in c.orders then Abort(NoSuchOrder)
    else
      var o := c.orders[id];
      if o.account !in c.clocks then Abort(NoSuchAccount)
      else if Terminal(o.status) || o.status == PendingCancel then Commit(c)
      else Commit(c.(orders := c.orders[id := o.(status := PendingCancel)],
                     outbox := c.outbox + [Matching.CancelRequested(id, o.account, o.symbol)]))
  }

  // ---- settling ------------------------------------------------------------------------------------

  function HalfFillLegs(symbol: Text, qty: int, notional: int, fee: int, buying: bool): seq<Leg>
  {
    var sign := if buying then 1 else -1;
    [Leg(CashAcct, [], -sign * notional - fee), Leg(FeesAcct, [], fee), Leg(ClearingAcct, [], sign * notional),
     Leg(PositionAcct, symbol, sign * qty), Leg(ClearingAcct, symbol, -sign * qty)]
  }

  /** `releaseIfTerminal`. */
  function Release(c: Core, id: Uuid): Core
  {
    if id in c.orders && Terminal(c.orders[id].status) && id in c.reservations then
      var r := c.reservations[id];
      c.(reservations := c.reservations[id := r.(row := r.row.(released := r.row.reserved - r.row.consumed))])
    else c
  }

  /** `settleReservation` on the stored row. */
  function Settle(c: Core, id: Uuid, priorQty: int, qty: int, notional: int, fee: int, buying: bool): Tx
  {
    if id !in c.reservations then Abort(NoReservation)
    else
      var r := c.reservations[id];
      var row := Costing.SettleRow(r.row, priorQty, qty, notional, fee, buying);
      if !row.Legal() then Abort(CheckViolation) else Commit(c.(reservations := c.reservations[id := r.(row := row)]))
  }

  function FilledStatus(o: OrderRow, qty: int): Status
  {
    if o.filledQty + qty >= o.qty then Filled
    else if o.status == PendingCancel then PendingCancel
    else PartiallyFilled
  }

  /** `advanceOrderFill`; the columns are bigint. */
  function Advance(c: Core, id: Uuid, qty: int, notional: int): Tx
    requires id in c.orders
  {
    var o := c.orders[id];
    if !Money.Is64(o.filledQty + qty) || !Money.Is64(o.filledNotional + notional) then Abort(OutOfRange)
    else
      Commit(Release(c.(orders :=
        c.orders[id := o.(filledQty := o.filledQty + qty, filledNotional := o.filledNotional + notional,
                                                    status := FilledStatus(o, qty))]), id))
  }

  function MovePosition(c: Core, h: Holding, qty: int, notional: int, fee: int, buying: bool): Core
  {
    var p := PositionOf(c, h);
    c.(positions := c.positions[h := if buying then ApplyBuy(p, qty, notional + fee)
      else ApplySell(p, qty, notional - fee)])
  }

  function FeeRate(terms: Terms, role: Role): int { if role == Taker then terms.takerBps else terms.makerBps }

  /** The half's effect once it is known to be new: postings, position, reservation, order. */
  function SettleHalf(c: Core, m: Matching.Outcome, notional: int, fee: int): Tx
    requires m.FillHalf? && m.account in c.clocks && m.order in c.orders
  {
    var c1 := WriteTxn(c, Txn(m.account, c.clocks[m.account], FillHalfTxn, m.eventId, Some(m.order),
                              HalfFillLegs(m.symbol, m.qty, notional, fee, m.buying)));
    var c2 := MovePosition(c1, Holding(m.account, m.symbol), m.qty, notional, fee, m.buying);
    match Settle(c2, m.order, c.orders[m.order].filledQty, m.qty, notional, fee, m.buying)
    case Abort(w) => Abort(w)
    case Commit(c3) => Advance(c3, m.order, m.qty, notional)
  }

  function ApplyFillHalf(terms: Terms, c: Core, offset: nat, m: Matching.Outcome): Tx
    requires m.FillHalf?
  {
    var c0 := c.(offset := offset + 1);
    if Money.Notional(m.qty, m.price).None? then Abort(Overflow)
    else if m.account !in c.clocks then Abort(NoSuchAccount)
    else if m.order !in c.orders then Abort(NoSuchOrder)
    else
      match Costing.ChargeFor(m.qty, m.price, c.orders[m.order].filledNotional, FeeRate(terms, m.role))
      case ChargeOverflow => Abort(Overflow)
      case Charge(notional, fee) =>
        if HasEvent(c.txns, m.eventId) then Commit(c0) else SettleHalf(c0, m, notional, fee)
  }

  function DispositionStatus(d: Disposition, o: OrderRow): Status
  {
    match d
    case Complete => Filled
    case Rested => if o.filledQty > 0 then PartiallyFilled else Accepted
    case Cancelled => Status.Cancelled
  }

  function ApplyDisposition(c: Core, offset: nat, m: Matching.Outcome): Tx
    requires m.Verdict?
  {
    var c0 := c.(offset := offset + 1);
    if m.account !in c.clocks then Abort(NoSuchAccount)
    else
      var c1 :=
        if m.order in c.orders && !Terminal(c.orders[m.order].status) && c.orders[m.order].status != PendingCancel then
          var o := c.orders[m.order];
          c0.(orders := c.orders[m.order := o.(status := DispositionStatus(m.disposition, o))])
        else c0;
      Commit(Release(c1, m.order))
  }

  function CancelStatus(cancelled: bool, o: OrderRow): Status
  {
    if cancelled then (if Terminal(o.status) then o.status else Status.Cancelled)
    else if o.status != PendingCancel then o.status
    else if o.filledQty >= o.qty then Filled
    else Status.Cancelled
  }

  function ApplyCancelOutcome(c: Core, offset: nat, m: Matching.Outcome): Tx
    requires m.CancelOutcome?
  {
    var c0 := c.(offset := offset + 1);
    if m.account !in c.clocks then Abort(NoSuchAccount)
    else
      var c1 :=
        if m.order in c.orders then
          var o := c.orders[m.order];
          c0.(orders := c.orders[m.order := o.(status := CancelStatus(m.cancelled, o))])
        else c0;
      Commit(Release(c1, m.order))
  }

  /** `applyOutcome`: one record, its offset included. */
  function ApplyOutcome(terms: Terms, c: Core, offset: nat, m: Matching.Outcome): Tx
  {
    match m
    case FillHalf(_, _, _, _, _, _, _, _, _, _) => ApplyFillHalf(terms, c, offset, m)
    case Verdict(_, _, _, _, _, _) => ApplyDisposition(c, offset, m)
    case CancelOutcome(_, _, _, _, _, _) => ApplyCancelOutcome(c, offset, m)
  }

  // ---- operations that leave the ledger alone -------------------------------------------------------

  /** Transactions, balances, positions and account clocks are as they were. */
  ghost predicate SameMoney(c: Core, c': Core)
  {
    c'.txns == c.txns && c'.balances == c.balances && c'.positions == c.positions && c'.clocks == c.clocks
  }

  lemma {:induction false} InsertQuiet(c: Core, id: Uuid, r: Request, row: OrderRow)
    ensures SameMoney(c, After(c, InsertOrder(c, id, r, row)))
  {}

  lemma {:induction false} AcceptQuiet(terms: Terms, c: Core, id: Uuid, r: Request, ref: int)
    ensures SameMoney(c, After(c, Accept(terms, c, id, r, ref)))
  {
    InsertQuiet(c, id, r, RowFor(r, ref, Rejected));
    InsertQuiet(c, id, r, RowFor(r, ref, Accepted));
    hide Costing.SizeReservation, RiskOk, InsertOrder, ReservationFor, Costing.Row.Legal;
  }

  /** Submitting an order, whatever becomes of it, moves no money. */
  lemma {:induction false} SubmitQuiet(terms: Terms, c: Core, id: Uuid, r: Request, ref: Option<int>)
    ensures SameMoney(c, After(c, Submit(terms, c, id, r, ref)))
  {
    hide Accept;
    AcceptQuiet(terms, c, id, r, if r.typ == Market && ref.Some? then ref.value else 0);
  }

  lemma {:induction false} CancelQuiet(c: Core, id: Uuid)
    ensures SameMoney(c, After(c, RequestCancel(c, id)))
  {}

  lemma {:induction false} ReleaseQuiet(c: Core, id: Uuid)
    ensures SameMoney(c, Release(c, id)) && Release(c, id).orders == c.orders
  {}

  lemma {:induction false} DispositionQuiet(c: Core, offset: nat, m: Matching.Outcome)
    requires m.Verdict?
    ensures SameMoney(c, After(c, ApplyDisposition(c, offset, m)))
  {
    hide Release, DispositionStatus, Terminal, SameMoney;
    if m.account in c.clocks {
      var c0 := c.(offset := offset + 1);
      if m.order in c.orders && !Terminal(c.orders[m.order].status) && c.orders[m.order].status != PendingCancel {
        var o := c.orders[m.order];
        ReleaseMoney(c, c0.(orders := c.orders[m.order := o.(status := DispositionStatus(m.disposition, o))]), m.order);
      } else {
        ReleaseMoney(c, c0, m.order);
      }
    }
    assert m.account !in c.clocks ==> SameMoney(c, c) by { MoneyStays(c); }
  }

  lemma {:induction false} MoneyStays(c: Core)
    ensures SameMoney(c, c)
  {}

  lemma {:induction false} ReleaseMoney(c: Core, c': Core, id: Uuid)
    requires c' == c.(orders := c'.orders, offset := c'.offset)
    ensures SameMoney(c, Release(c', id))
  {}

  lemma {:induction false} CancelOutcomeQuiet(c: Core, offset: nat, m: Matching.Outcome)
    requires m.CancelOutcome?
    ensures SameMoney(c, After(c, ApplyCancelOutcome(c, offset, m)))
  {
    hide Release, CancelStatus, SameMoney;
    if m.account in c.clocks {
      var c0 := c.(offset := offset + 1);
      if m.order in c.orders {
        var o := c.orders[m.order];
        ReleaseMoney(c, c0.(orders := c.orders[m.order := o.(status := CancelStatus(m.cancelled, o))]), m.order);
      } else {
        ReleaseMoney(c, c0, m.order);
      }
    }
    assert m.account !in c.clocks ==> SameMoney(c, c) by { MoneyStays(c); }
  }

  /** Dispositions and cancel verdicts settle an order's status and reservation only. */
  lemma {:induction false} VerdictQuiet(terms: Terms, c: Core, offset: nat, m: Matching.Outcome)
    requires !m.FillHalf?
    ensures SameMoney(c, After(c, ApplyOutcome(terms, c, offset, m)))
  {
    hide ApplyDisposition, ApplyCancelOutcome, SameMoney;
    if m.Verdict? { DispositionQuiet(c, offset, m); } else { CancelOutcomeQuiet(c, offset, m); }
  }
}
