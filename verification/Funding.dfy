/** No reachable state of a core is overdrawn: every cent and every share a working order may still spend is there. */
module Funding {
  import opened Types
  import opened Ledger
  import opened Sums
  import Costing
  import Matching
  import Money

  /** Everything that changes a core. Ids are drawn by the caller; outcomes come from the log. */
  datatype Action =
    | OpenAccount(account: Uuid)
    | DepositCash(account: Uuid, amount: int)
    | Seed(account: Uuid, symbol: Text, qty: int, price: int)
    | Place(id: Uuid, request: Request, ref: Option<int>)
    | Withdraw(id: Uuid)
    | Receive(offset: nat, outcome: Matching.Outcome)

  ghost function Act(terms: Terms, c: Core, a: Action): Core
  {
    match a
    case OpenAccount(account) => if account in c.clocks then c else c.(clocks := c.clocks[account := 1])
    case DepositCash(account, amount) => After(c, Deposit(c, account, amount))
    case Seed(account, symbol, qty, price) => After(c, SeedShares(c, account, symbol, qty, price))
    case Place(id, r, ref) => After(c, Submit(terms, c, id, r, ref))
    case Withdraw(id) => After(c, RequestCancel(c, id))
    case Receive(offset, m) => After(c, ApplyOutcome(terms, c, offset, m))
  }

  function Empty(): Core { Core(map[], map[], map[], map[], map[], map[], [], [], 0) }

  ghost function ActAll(terms: Terms, actions: seq<Action>): Core
    decreases |actions|
  {
    if actions == [] then Empty() else Act(terms, ActAll(terms, actions[..|actions| - 1]), actions[|actions| - 1])
  }

  /** An outcome speaks of an order the way the core knows it, about a nonnegative amount. */
  predicate Addressed(c: Core, m: Matching.Outcome)
  {
    m.order in c.orders ==>
      var o := c.orders[m.order];
      && o.account == m.account
      && (m.FillHalf? ==> o.symbol == m.symbol && (m.buying <==> o.side == Buy) && m.qty >= 0 && m.price >= 0)
  }

  ghost predicate AllAddressed(terms: Terms, actions: seq<Action>)
    decreases |actions|
  {
    actions == [] ||
    var before, last := actions[..|actions| - 1], actions[|actions| - 1];
    AllAddressed(terms, before) && (last.Receive? ==> Addressed(ActAll(terms, before), last.outcome))
  }

  // ---- the invariant ---------------------------------------------------------------------------------

  /** A reservation belongs to its order: a BUY holds the account's cash, a SELL its shares of the symbol. */
  predicate Backed(r: Reservation, o: OrderRow)
  {
    && r.account == o.account && r.row.Legal()
    && (r.row.kind == Costing.Cash <==> o.side == Buy) && (r.row.kind == Costing.Shares ==> r.symbol == o.symbol)
  }

  ghost predicate AllBacked(c: Core)
  {
    forall id :: id in c.reservations ==> id in c.orders && Backed(c.reservations[id], c.orders[id])
  }

  ghost predicate CashCovers(c: Core) { forall a :: BalanceOf(c, a).cash >= Held(c, a, Costing.Cash, []) }

  ghost predicate SharesCover(c: Core)
  {
    forall h :: PositionOf(c, h).qty >= Held(c, h.account, Costing.Shares, h.symbol)
  }

  ghost predicate FillsCounted(c: Core)
  {
    forall id :: id in c.orders ==> c.orders[id].filledQty >= 0 && 0 <= c.orders[id].filledNotional <= Money.MAX64
  }

  ghost predicate Funded(c: Core) { AllBacked(c) && CashCovers(c) && SharesCover(c) && FillsCounted(c) }

  // ---- pools -----------------------------------------------------------------------------------------

  lemma {:induction false} HeldNonneg(c: Core, account: Uuid, kind: Costing.ResKind, symbol: Text)
    requires AllBacked(c)
    ensures Held(c, account, kind, symbol) >= 0
  {
    SumNonneg(OpenIn(c.reservations, account, kind, symbol));
  }

  /** Changing what one reservation holds moves its own pool by the difference and no other pool. */
  lemma {:induction false} HeldAfter(c: Core, c': Core, id: Uuid, r: Reservation, account: Uuid, kind: Costing.ResKind,
      symbol: Text)
    requires c'.reservations == c.reservations[id := r]
    requires id in c.reservations ==>
      r == c.reservations[id].(row := r.row) && r.row.kind == c.reservations[id].row.kind
    ensures Held(c', account, kind, symbol) == Held(c, account, kind, symbol)
      + if InPool(r, account, kind, symbol) then r.row.Open() -
        (if id in c.reservations then c.reservations[id].row.Open() else 0) else 0
  {
    var before, after := OpenIn(c.reservations, account, kind, symbol), OpenIn(c'.reservations, account, kind, symbol);
    if InPool(r, account, kind, symbol) {
      assert after == before[id := r.row.Open()];
      SumUpdate(before, id, r.row.Open());
    } else {
      assert after == before;
    }
  }

  lemma {:induction false} HeldSame(c: Core, c': Core)
    requires c'.reservations == c.reservations
    ensures forall a, k, s :: Held(c', a, k, s) == Held(c, a, k, s)
  {}

  // ---- settling one half ---------------------------------------------------------------------------

  /** At rates up to 100% the increment billed is never negative and never more than the notional. */
  lemma {:induction false} ChargeBounded(qty: nat, price: nat, prior: nat, bps: int)
    requires bps <= Money.BPS
    requires var ch := Costing.ChargeFor(qty, price, prior, bps); ch.Charge? && prior + ch.notional <= Money.MAX64
    ensures var ch := Costing.ChargeFor(qty, price, prior, bps); ch.notional >= 0 && 0 <= ch.fee <= ch.notional
  {
    var n := Costing.FloorNotional(qty, price);
    ChargeRate(qty, price, prior, bps);
    Costing.NotionalNonneg(qty, price);
    hide Costing.ChargeFor, Costing.Fee, Costing.FloorNotional, Money.Notional, Money.NotionalCeil;
    if bps > 0 {
      FeeAtMost(prior + n, bps);
      FeeOfSum(prior, n, bps);
    }
    Costing.ChargeInRange(qty, price, prior, bps, prior + n);
  }

  lemma {:induction false} ChargeRate(qty: nat, price: nat, prior: nat, bps: int)
    requires Costing.ChargeFor(qty, price, prior, bps).Charge?
    ensures bps >= 0 && Money.Notional(qty, price) == Some(Costing.ChargeFor(qty, price, prior, bps).notional)
  {}

  lemma {:induction false} FeeOfSum(prior: nat, n: nat, bps: nat)
    requires bps <= Money.BPS
    ensures Costing.Fee(prior + n, bps) <= Costing.Fee(prior, bps) + n
  {
    assert (prior + n) * bps == prior * bps + n * bps;
    Costing.CeilOfSum(prior * bps, n * bps, Money.BPS);
    Costing.CeilOfSum(n * bps, prior * bps, Money.BPS);
    FeeAtMost(n, bps);
  }

  lemma {:induction false} FeeAtMost(n: nat, bps: nat)
    requires bps <= Money.BPS
    ensures Costing.Fee(n, bps) <= n
  {
    Money.MulMono(bps, Money.BPS, n);
  }

  lemma {:induction false} MovedAt(legs: seq<Leg>, i: nat, kind: LedgerKind)
    requires i < |legs|
    ensures Moved(legs[i..], kind) == (if legs[i].kind == kind then legs[i].amount else 0) + Moved(legs[i + 1..], kind)
  {
    assert legs[i..][1..] == legs[i + 1..];
  }

  lemma {:induction false} MovedByHalf(symbol: Text, qty: int, notional: int, fee: int, buying: bool)
    ensures var legs := HalfFillLegs(symbol, qty, notional, fee, buying);
      Moved(legs, CashAcct) == (if buying then -notional else notional) - fee && Moved(legs, FeesAcct) == fee
  {
    var legs := HalfFillLegs(symbol, qty, notional, fee, buying);
    assert legs[0..] == legs && |legs| == 5;
    forall kind | kind == CashAcct || kind == FeesAcct
      ensures Moved(legs, kind) == (if kind == CashAcct then legs[0].amount else legs[1].amount)
    {
      MovedAt(legs, 0, kind);
      MovedAt(legs, 1, kind);
      MovedAt(legs, 2, kind);
      MovedAt(legs, 3, kind);
      MovedAt(legs, 4, kind);
    }
  }

  /** After a row has taken a cost, and been released if its order is over, it holds at least that much less. */
  lemma {:induction false} SettledRow(row: Costing.Row, priorQty: int, qty: int, notional: int, fee: int, buying: bool,
      over: bool)
    returns (last: Costing.Row)
    requires row.Legal() && notional >= 0 && fee >= 0 && qty >= 0
    requires Costing.SettleRow(row, priorQty, qty, notional, fee, buying).Legal()
    ensures var settled := Costing.SettleRow(row, priorQty, qty, notional, fee, buying);
      last == if over then settled.(released := settled.reserved - settled.consumed) else settled
    ensures last.Legal() && last.kind == row.kind
    ensures last.Open() <= row.Open() - (if buying then notional + fee else qty)
  {
    hide Costing.Owed;
    var settled := Costing.SettleRow(row, priorQty, qty, notional, fee, buying);
    last := if over then settled.(released := settled.reserved - settled.consumed) else settled;
  }

  /** What a committed half leaves behind, in one step. */
  lemma {:induction false} HalfSettled(c: Core, m: Matching.Outcome, notional: int, fee: int)
    requires m.FillHalf? && m.account in c.clocks && m.order in c.orders && AllBacked(c)
    requires notional >= 0 && 0 <= fee && m.qty >= 0
    requires SettleHalf(c, m, notional, fee).Commit?
    ensures var c', o := SettleHalf(c, m, notional, fee).core, c.orders[m.order];
      && c'.orders == c.orders[m.order :=
           o.(filledQty := o.filledQty + m.qty, filledNotional := o.filledNotional + notional,
                                           status := FilledStatus(o, m.qty))]
      && Money.Is64(o.filledNotional + notional)
      && m.order in c.reservations && c'.reservations.Keys == c.reservations.Keys
      && var r, r' := c.reservations[m.order], c'.reservations[m.order];
      && c'.reservations == c.reservations[m.order := r'] && r' == r.(row := r'.row) && r'.row.kind == r.row.kind
      && r'.row.Legal()
      && r'.row.Open() <= r.row.Open() - (if m.buying then notional + fee else m.qty)
  {
    hide Costing.SettleRow;
    var o := c.orders[m.order];
    var r := c.reservations[m.order];
    assert Backed(r, o);
    var over := Terminal(FilledStatus(o, m.qty));
    var last := SettledRow(r.row, o.filledQty, m.qty, notional, fee, m.buying, over);
    var c' := SettleHalf(c, m, notional, fee).core;
    hide Posted, Moved, CostOut;
    assert c'.reservations[m.order] == r.(row := last);
  }

  lemma {:induction false} HalfMoves(c: Core, m: Matching.Outcome, notional: int, fee: int)
    requires m.FillHalf? && m.account in c.clocks && m.order in c.orders
    requires SettleHalf(c, m, notional, fee).Commit?
    ensures var c' := SettleHalf(c, m, notional, fee).core;
      && (forall a :: BalanceOf(c', a).cash == BalanceOf(c, a).cash
            + if a == m.account then (if m.buying then -notional else notional) - fee else 0)
      && (forall h :: PositionOf(c', h).qty == PositionOf(c, h).qty
            + if h == Holding(m.account, m.symbol) then (if m.buying then m.qty else -m.qty) else 0)
  {
    MovedByHalf(m.symbol, m.qty, notional, fee, m.buying);
    hide HalfFillLegs, Posted, Moved, Costing.SettleRow, CostOut, FilledStatus;
  }

  lemma {:induction false} HalfKeeps(terms: Terms, c: Core, offset: nat, m: Matching.Outcome)
    requires Funded(c) && m.FillHalf? && Addressed(c, m) && terms.takerBps <= Money.BPS && terms.makerBps <= Money.BPS
    ensures Funded(After(c, ApplyFillHalf(terms, c, offset, m)))
  {
    hide Costing.ChargeFor, Money.Notional, SettleHalf, Held;
    var tx := ApplyFillHalf(terms, c, offset, m);
    HeldSame(c, c.(offset := offset + 1));
    if tx.Commit? && !HasEvent(c.txns, m.eventId) {
      var c0 := c.(offset := offset + 1);
      var prior := c.orders[m.order].filledNotional;
      var ch := Costing.ChargeFor(m.qty, m.price, prior, FeeRate(terms, m.role));
      CommitInRange(c0, m, ch.notional, ch.fee);
      ChargeBounded(m.qty, m.price, prior, FeeRate(terms, m.role));
      NewHalfKeeps(c0, m, ch.notional, ch.fee);
    }
  }

  lemma {:induction false} CommitInRange(c: Core, m: Matching.Outcome, notional: int, fee: int)
    requires m.FillHalf? && m.account in c.clocks && m.order in c.orders && SettleHalf(c, m, notional, fee).Commit?
    ensures Money.Is64(c.orders[m.order].filledNotional + notional)
  {
    hide Posted, Moved, CostOut, Costing.SettleRow;
  }

  lemma {:induction false} NewHalfKeeps(c: Core, m: Matching.Outcome, notional: int, fee: int)
    requires Funded(c) && m.FillHalf? && Addressed(c, m) && m.account in c.clocks && m.order in c.orders
    requires notional >= 0 && 0 <= fee <= notional && SettleHalf(c, m, notional, fee).Commit?
    ensures Funded(SettleHalf(c, m, notional, fee).core)
  {
    HalfSettled(c, m, notional, fee);
    HalfMoves(c, m, notional, fee);
    var c' := SettleHalf(c, m, notional, fee).core;
    var r, r' := c.reservations[m.order], c'.reservations[m.order];
    assert Backed(r, c.orders[m.order]);
    RowsAfter(c, c', m.order, r');
    hide SettleHalf, BalanceOf, PositionOf, Costing.Row.Legal, Costing.Row.Open, FilledStatus, AllBacked, FillsCounted,
      CashCovers, SharesCover;
    CashAfter(c, c', m.order, r', m.account, (if m.buying then -notional else notional) - fee);
    SharesAfter(c, c', m.order, r', Holding(m.account, m.symbol), if m.buying then m.qty else -m.qty);
  }

  lemma {:induction false} RowsAfter(c: Core, c': Core, id: Uuid, r': Reservation)
    requires AllBacked(c) && FillsCounted(c) && id in c.reservations && c'.reservations == c.reservations[id := r']
    requires r' == c.reservations[id].(row := r'.row) && r'.row.kind == c.reservations[id].row.kind && r'.row.Legal()
    requires id in c.orders ==>
      var o, o' := c.orders[id], if id in c'.orders then c'.orders[id] else c.orders[id];
      && c'.orders == c.orders[id := o'] && o'.account == o.account && o'.side == o.side && o'.symbol == o.symbol
      && o'.filledQty >= 0 && 0 <= o'.filledNotional <= Money.MAX64
    ensures AllBacked(c') && FillsCounted(c')
  {
    assert Backed(c.reservations[id], c.orders[id]);
  }

  /** Cash still covers when what an account pays is at most what its reservation gave up. */
  lemma {:induction false} CashAfter(c: Core, c': Core, id: Uuid, r': Reservation, account: Uuid, paid: int)
    requires CashCovers(c) && id in c.reservations && c'.reservations == c.reservations[id := r']
    requires var r := c.reservations[id];
      && r' == r.(row := r'.row) && r'.row.kind == r.row.kind && r.account == account
      && paid >= if r.row.kind == Costing.Cash then r'.row.Open() - r.row.Open() else 0
    requires forall a :: BalanceOf(c', a).cash == BalanceOf(c, a).cash + if a == account then paid else 0
    ensures CashCovers(c')
  {
    hide Held, BalanceOf, Costing.Row.Open;
    forall a ensures BalanceOf(c', a).cash >= Held(c', a, Costing.Cash, []) {
      HeldAfter(c, c', id, r', a, Costing.Cash, []);
      assert BalanceOf(c, a).cash >= Held(c, a, Costing.Cash, []);
    }
  }

  lemma {:induction false} SharesAfter(c: Core, c': Core, id: Uuid, r': Reservation, h: Holding, got: int)
    requires SharesCover(c) && id in c.reservations && c'.reservations == c.reservations[id := r']
    requires var r := c.reservations[id];
      && r' == r.(row := r'.row) && r'.row.kind == r.row.kind && r.account == h.account
      && (r.row.kind == Costing.Shares ==> r.symbol == h.symbol)
      && got >= if r.row.kind == Costing.Shares then r'.row.Open() - r.row.Open() else 0
    requires forall x :: PositionOf(c', x).qty == PositionOf(c, x).qty + if x == h then got else 0
    ensures SharesCover(c')
  {
    hide Held, PositionOf, Costing.Row.Open;
    forall x ensures PositionOf(c', x).qty >= Held(c', x.account, Costing.Shares, x.symbol) {
      HeldAfter(c, c', id, r', x.account, Costing.Shares, x.symbol);
      assert PositionOf(c, x).qty >= Held(c, x.account, Costing.Shares, x.symbol);
    }
  }

  // ---- releasing ---------------------------------------------------------------------------------------

  /** Freeing what a finished order did not spend only ever raises what is available. */
  lemma {:induction false} ReleaseKeeps(c: Core, id: Uuid)
    requires Funded(c)
    ensures Funded(Release(c, id))
  {
    hide Held, BalanceOf, PositionOf;
    if id in c.orders && Terminal(c.orders[id].status) && id in c.reservations {
      var c' := Release(c, id);
      var r, r' := c.reservations[id], c'.reservations[id];
      assert Backed(r, c.orders[id]) && c'.reservations == c.reservations[id := r'];
      assert c.orders[id := c.orders[id]] == c.orders;
      RowsAfter(c, c', id, r');
      SameBalances(c, c');
      CashAfter(c, c', id, r', r.account, 0);
      SharesAfter(c, c', id, r', Holding(r.account, c.orders[id].symbol), 0);
    }
  }

  lemma {:induction false} SameBalances(c: Core, c': Core)
    requires c'.balances == c.balances && c'.positions == c.positions
    ensures forall a :: BalanceOf(c', a) == BalanceOf(c, a)
    ensures forall h :: PositionOf(c', h) == PositionOf(c, h)
  {}

  /** Anything that leaves balances, positions and reservations alone, and does not rewrite what orders are, keeps
      the invariant. */
  lemma {:induction false} OrdersOnly(c: Core, c': Core)
    requires Funded(c) && c'.balances == c.balances && c'.positions == c.positions && c'.reservations == c.reservations
    requires forall id :: id in c.orders ==> id in c'.orders && SameOrder(c.orders[id], c'.orders[id])
    requires forall id :: id in c'.orders && id !in c.orders ==>
      c'.orders[id].filledQty == 0 && c'.orders[id].filledNotional == 0
    ensures Funded(c')
  {
    hide Held, BalanceOf, PositionOf;
    SameBalances(c, c');
    HeldSame(c, c');
    forall id | id in c'.reservations ensures id in c'.orders && Backed(c'.reservations[id], c'.orders[id]) {
      assert Backed(c.reservations[id], c.orders[id]);
    }
  }

  predicate SameOrder(o: OrderRow, o': OrderRow) { o' == o.(status := o'.status) }

  lemma {:induction false} VerdictKeeps(terms: Terms, c: Core, offset: nat, m: Matching.Outcome)
    requires Funded(c) && !m.FillHalf?
    ensures Funded(After(c, ApplyOutcome(terms, c, offset, m)))
  {
    hide Funded, Release;
    if m.account in c.clocks {
      var c0 := c.(offset := offset + 1);
      var status :=
        if m.order !in c.orders then Accepted
        else if m.Verdict? then
          (if !Terminal(c.orders[m.order].status) && c.orders[m.order].status != PendingCancel
           then DispositionStatus(m.disposition, c.orders[m.order]) else c.orders[m.order].status)
        else CancelStatus(m.cancelled, c.orders[m.order]);
      var c1 := if m.order in c.orders then c0.(orders := c.orders[m.order := c.orders[m.order].(status := status)])
        else c0;
      OrdersOnly(c, c1);
      ReleaseKeeps(c1, m.order);
      if m.order in c.orders && status == c.orders[m.order].status {
        assert c.orders[m.order := c.orders[m.order].(status := status)] == c.orders;
      }
    }
  }

  // ---- funding and accepting ---------------------------------------------------------------------------

  /** Moving cash and shares at one account, with the reservations as they were. */
  lemma {:induction false} PoolsKeep(c: Core, c': Core, a: Uuid, h: Holding)
    requires Funded(c) && c'.reservations == c.reservations && c'.orders == c.orders && h.account == a
    requires forall x :: x != a ==> BalanceOf(c', x) == BalanceOf(c, x)
    requires forall x :: x != h ==> PositionOf(c', x) == PositionOf(c, x)
    requires BalanceOf(c', a).cash >= Held(c, a, Costing.Cash, []) && PositionOf(c', h).qty >= PositionOf(c, h).qty
    ensures Funded(c')
  {
    hide Held, BalanceOf, PositionOf;
    HeldSame(c, c');
  }

  lemma {:induction false} DepositKeeps(c: Core, a: Uuid, amount: int)
    requires Funded(c)
    ensures Funded(After(c, Deposit(c, a, amount)))
  {
    if Deposit(c, a, amount).Commit? {
      var legs := [Leg(CashAcct, [], amount), Leg(ExternalAcct, [], -amount)];
      assert legs[0..] == legs;
      forall kind | kind == CashAcct || kind == FeesAcct
        ensures Moved(legs, kind) == (if kind == CashAcct then amount else 0)
      {
        MovedAt(legs, 0, kind);
        MovedAt(legs, 1, kind);
      }
      hide Posted, Moved, Held;
      assert BalanceOf(c, a).cash >= Held(c, a, Costing.Cash, []);
      PoolsKeep(c, Deposit(c, a, amount).core, a, Holding(a, []));
    }
  }

  lemma {:induction false} SeedKeeps(c: Core, a: Uuid, symbol: Text, qty: int, price: int)
    requires Funded(c)
    ensures Funded(After(c, SeedShares(c, a, symbol, qty, price)))
  {
    var tx := SeedShares(c, a, symbol, qty, price);
    if tx.Commit? {
      var basis := Money.Notional(qty, price).value;
      SeedMoves(symbol, qty, basis);
      hide Posted, Moved, Held, SeedLegs, Money.Notional;
      PoolsKeep(c, tx.core, a, Holding(a, symbol));
    }
  }

  lemma {:induction false} SeedMoves(symbol: Text, qty: int, basis: int)
    ensures Moved(SeedLegs(symbol, qty, basis), CashAcct) == -basis
    ensures Moved(SeedLegs(symbol, qty, basis), FeesAcct) == 0
  {
    var legs := SeedLegs(symbol, qty, basis);
    assert legs[0..] == legs && |legs| == 4;
    forall kind | kind == CashAcct || kind == FeesAcct
      ensures Moved(legs, kind) == (if kind == CashAcct then -basis else 0)
    {
      MovedAt(legs, 0, kind);
      MovedAt(legs, 1, kind);
      MovedAt(legs, 2, kind);
      MovedAt(legs, 3, kind);
    }
  }

  /** Reserving what the risk check found available. */
  lemma {:induction false} ReserveKeeps(terms: Terms, c: Core, id: Uuid, r: Request, ref: int)
    requires Funded(c) && Accept(terms, c, id, r, ref).Commit? && r.account in c.clocks
    requires ClientKey(r.account, r.clientId) !in c.clients
    ensures Funded(Accept(terms, c, id, r, ref).core)
  {
    var s := Costing.SizeReservation(r.side, r.typ, r.qty, r.limitPrice, ref, terms);
    SizedKind(r, ref, terms);
    hide Costing.SizeReservation;
    var status := if RiskOk(c, r, s.kind, s.amount) then Accepted else Rejected;
    var c1 := c.(orders := c.orders[id := RowFor(r, ref, status)],
                 clients := c.clients[ClientKey(r.account, r.clientId) := id]);
    assert Funded(c1) by { OrdersOnly(c, c1); }
    if status == Accepted {
      var c2 := c1.(reservations := c1.reservations[id := ReservationFor(r, s)],
                    outbox := c1.outbox + [MessageFor(id, r, ref)]);
      assert Accept(terms, c, id, r, ref) == Commit(c2);
      ReservedKeeps(c1, c2, id, ReservationFor(r, s), Holding(r.account, r.symbol));
    }
  }

  lemma {:induction false} SizedKind(r: Request, ref: int, terms: Terms)
    ensures var s := Costing.SizeReservation(r.side, r.typ, r.qty, r.limitPrice, ref, terms);
      s.Sizing? ==> (s.kind == Costing.Cash <==> r.side == Buy)
  {}

  lemma {:induction false} ReservedKeeps(c: Core, c': Core, id: Uuid, r: Reservation, h: Holding)
    requires Funded(c) && id in c.orders && id !in c.reservations && Backed(r, c.orders[id])
    requires h == Holding(r.account, c.orders[id].symbol)
    requires c' == c.(reservations := c.reservations[id := r], outbox := c'.outbox) && r.row.Open() == r.row.reserved
    requires r.row.kind == Costing.Cash ==> BuyingPower(c, r.account) >= r.row.reserved
    requires r.row.kind == Costing.Shares ==>
      PositionOf(c, h).qty - Held(c, r.account, Costing.Shares, h.symbol) >= r.row.reserved
    ensures Funded(c')
  {
    hide Held, BalanceOf, PositionOf;
    SameBalances(c, c');
    forall a ensures BalanceOf(c', a).cash >= Held(c', a, Costing.Cash, []) {
      HeldAfter(c, c', id, r, a, Costing.Cash, []);
      assert BalanceOf(c, a).cash >= Held(c, a, Costing.Cash, []);
    }
    forall x ensures PositionOf(c', x).qty >= Held(c', x.account, Costing.Shares, x.symbol) {
      HeldAfter(c, c', id, r, x.account, Costing.Shares, x.symbol);
      assert PositionOf(c, x).qty >= Held(c, x.account, Costing.Shares, x.symbol);
    }
  }

  lemma {:induction false} SubmitKeeps(terms: Terms, c: Core, id: Uuid, r: Request, ref: Option<int>)
    requires Funded(c)
    ensures Funded(After(c, Submit(terms, c, id, r, ref)))
  {
    hide Accept, Funded;
    var tx := Submit(terms, c, id, r, ref);
    var stamped := if r.typ == Market && ref.Some? then ref.value else 0;
    if tx.Commit? {
      AcceptKeeps(terms, c, id, r, stamped);
    }
  }

  lemma {:induction false} AcceptKeeps(terms: Terms, c: Core, id: Uuid, r: Request, ref: int)
    requires Funded(c)
    ensures Funded(After(c, Accept(terms, c, id, r, ref)))
  {
    hide Funded, Costing.SizeReservation, RiskOk;
    if Accept(terms, c, id, r, ref).Commit? && !(ClientKey(r.account, r.clientId) in c.clients) {
      ReserveKeeps(terms, c, id, r, ref);
    }
  }

  lemma {:induction false} CancelKeeps(c: Core, id: Uuid)
    requires Funded(c)
    ensures Funded(After(c, RequestCancel(c, id)))
  {
    hide Funded;
    OrdersOnly(c, After(c, RequestCancel(c, id)));
  }

  lemma {:induction false} OpenKeeps(c: Core, a: Uuid)
    requires Funded(c)
    ensures Funded(c.(clocks := c.clocks[a := 1]))
  {
    hide Funded;
    OrdersOnly(c, c.(clocks := c.clocks[a := 1]));
  }

  lemma {:induction false} ActKeeps(terms: Terms, c: Core, a: Action)
    requires Funded(c) && terms.takerBps <= Money.BPS && terms.makerBps <= Money.BPS
    requires a.Receive? ==> Addressed(c, a.outcome)
    ensures Funded(Act(terms, c, a))
  {
    hide Funded, Deposit, SeedShares, Submit, RequestCancel, ApplyFillHalf, ApplyDisposition, ApplyCancelOutcome,
      Addressed;
    match a
    case OpenAccount(account) => OpenKeeps(c, account);
    case DepositCash(account, amount) => DepositKeeps(c, account, amount);
    case Seed(account, symbol, qty, price) => SeedKeeps(c, account, symbol, qty, price);
    case Place(id, r, ref) => SubmitKeeps(terms, c, id, r, ref);
    case Withdraw(id) => CancelKeeps(c, id);
    case Receive(offset, m) => if m.FillHalf? {
      HalfKeeps(terms, c, offset, m);
    } else {
      VerdictKeeps(terms, c, offset, m);
    }
  }

  lemma {:induction false} EmptyFunded()
    ensures Funded(Empty())
  {
    forall a, k, s ensures Held(Empty(), a, k, s) == 0 { assert OpenIn(map[], a, k, s) == map[]; }
  }

  lemma {:induction false} RunFunded(terms: Terms, actions: seq<Action>)
    requires AllAddressed(terms, actions) && terms.takerBps <= Money.BPS && terms.makerBps <= Money.BPS
    ensures Funded(ActAll(terms, actions))
    decreases |actions|
  {
    hide Funded, Act, Addressed;
    if actions == [] { EmptyFunded(); } else {
      RunFunded(terms, actions[..|actions| - 1]);
      ActKeeps(terms, ActAll(terms, actions[..|actions| - 1]), actions[|actions| - 1]);
    }
  }

  /** No overdraft in any reachable state: an account's cash covers its active cash reservations and each position its
      active share reservations, and none of those is negative. */
  lemma {:induction false} NoOverdraft(terms: Terms, actions: seq<Action>, account: Uuid, symbol: Text)
    requires AllAddressed(terms, actions) && terms.takerBps <= Money.BPS && terms.makerBps <= Money.BPS
    ensures var c := ActAll(terms, actions);
      && BalanceOf(c, account).cash >= Held(c, account, Costing.Cash, []) >= 0
      && PositionOf(c, Holding(account, symbol)).qty >= Held(c, account, Costing.Shares, symbol) >= 0
      && forall id :: id in c.reservations ==> c.reservations[id].row.Legal()
  {
    RunFunded(terms, actions);
    hide ActAll, AllAddressed;
    var c := ActAll(terms, actions);
    HeldNonneg(c, account, Costing.Cash, []);
    HeldNonneg(c, account, Costing.Shares, symbol);
    assert PositionOf(c, Holding(account, symbol)).qty >= Held(c, Holding(account, symbol).account, Costing.Shares,
      symbol);
    forall id | id in c.reservations
      ensures c.reservations[id].row.Legal()
    {
      assert Backed(c.reservations[id], c.orders[id]);
    }
  }
}
