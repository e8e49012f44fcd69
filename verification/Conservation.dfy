/** Value is neither made nor lost: every transaction balances in each unit, and what is still in clearing is exactly
    the
    half-settled fills, in whatever order halves reach the accounts and partitions. */
module Conservation {
  import opened Types
  import opened Ledger
  import opened Funding
  import opened Sums
  import Costing
  import Matching
  import Money

  // ---- totals over transactions ----------------------------------------------------------------------

  /** What can be totalled: clearing postings of a unit, all postings of a unit, settled halves of a fill. */
  datatype Measure = ClearingIn(unit: Text) | PostedIn(unit: Text) | HalvesOf(fill: FillId)

  function LegTotal(legs: seq<Leg>, m: Measure): int
  {
    if legs == [] then 0
    else
      (match m
       case ClearingIn(u) => if legs[0].kind == ClearingAcct && legs[0].symbol == u then legs[0].amount else 0
       case PostedIn(u) => if legs[0].symbol == u then legs[0].amount else 0
       case HalvesOf(_) => 0)
      + LegTotal(legs[1..], m)
  }

  function Weigh(t: Txn, m: Measure): int
  {
    match m
    case HalvesOf(f) => if t.event.FillEvent? && t.event.fill == f then 1 else 0
    case _ => LegTotal(t.legs, m)
  }

  function Total(txns: seq<Txn>, m: Measure): int
  {
    if txns == [] then 0 else Total(txns[..|txns| - 1], m) + Weigh(txns[|txns| - 1], m)
  }

  lemma {:induction false} PostedTotal(legs: seq<Leg>, m: Measure)
    ensures LegTotal(Posted(legs), m) == LegTotal(legs, m)
  {
    if legs != [] {
      PostedTotal(legs[1..], m);
      if legs[0].amount != 0 {
        assert Posted(legs)[1..] == Posted(legs[1..]);
      } else {
        assert Posted(legs) == Posted(legs[1..]);
      }
    }
  }

  lemma {:induction false} LegAt(legs: seq<Leg>, i: nat, m: Measure)
    requires i < |legs|
    ensures LegTotal(legs[i..], m) == LegTotal([legs[i]], m) + LegTotal(legs[i + 1..], m)
  {
    assert legs[i..][1..] == legs[i + 1..];
  }

  lemma {:induction false} TwoLegs(legs: seq<Leg>, m: Measure)
    requires |legs| == 2
    ensures LegTotal(legs, m) == LegTotal([legs[0]], m) + LegTotal([legs[1]], m)
  {
    assert legs[0..] == legs;
    LegAt(legs, 0, m);
    LegAt(legs, 1, m);
  }

  lemma {:induction false} FourLegs(legs: seq<Leg>, m: Measure)
    requires |legs| == 4
    ensures LegTotal(legs, m) ==
      LegTotal([legs[0]], m) + LegTotal([legs[1]], m) + LegTotal([legs[2]], m) + LegTotal([legs[3]], m)
  {
    assert legs[0..] == legs;
    LegAt(legs, 0, m);
    LegAt(legs, 1, m);
    LegAt(legs, 2, m);
    LegAt(legs, 3, m);
  }

  lemma {:induction false} FiveLegs(legs: seq<Leg>, m: Measure)
    requires |legs| == 5
    ensures LegTotal(legs, m) ==
      LegTotal([legs[0]], m) + LegTotal([legs[1]], m) + LegTotal([legs[2]], m) + LegTotal([legs[3]], m) +
        LegTotal([legs[4]], m)
  {
    FourLegs(legs[1..], m);
    assert legs[0..] == legs;
    LegAt(legs, 0, m);
  }

  // ---- what each transaction contributes ---------------------------------------------------------------

  /** Who takes part in a fill on one side, and whether that side buys. */
  function HalfAccount(f: Fill, role: Role): Uuid { if role == Taker then f.takerAccount else f.makerAccount }
  predicate HalfBuys(f: Fill, role: Role) { (role == Taker) == (f.takerSide == Buy) }

  /** One half's signed clearing legs: the notional against the shares. */
  function HalfClearing(f: Fill, role: Role, unit: Text): int
  {
    var sign := if HalfBuys(f, role) then 1 else -1;
    if unit == [] then (if Money.Notional(f.qty, f.price).Some? then sign * Money.Notional(f.qty, f.price).value else 0)
    else if unit == f.id.symbol then -sign * f.qty
    else 0
  }

  /** The message is one half of an execution the books made. */
  predicate OfMarket(m: Matching.Outcome, market: map<FillId, Fill>)
  {
    m.FillHalf? ==>
      && m.eventId.FillEvent? && m.eventId.fill in market && m.eventId.role == m.role
      && var f := market[m.eventId.fill];
      && f.id == m.eventId.fill && f.id.symbol == m.symbol && m.symbol != []
      && m == Matching.HalfOf(f, m.symbol, m.role)
  }

  ghost predicate TxnOk(t: Txn, market: map<FillId, Fill>)
  {
    && (forall u :: LegTotal(t.legs, PostedIn(u)) == 0)
    && (t.kind == DepositTxn ==> t.event.LedgerEvent? && forall u :: LegTotal(t.legs, ClearingIn(u)) == 0)
    && (t.kind == FillHalfTxn ==>
          && t.event.FillEvent? && t.event.fill in market
          && t.account == HalfAccount(market[t.event.fill], t.event.role)
          && forall u :: LegTotal(t.legs, ClearingIn(u)) == HalfClearing(market[t.event.fill], t.event.role, u))
  }

  ghost predicate LedgerOk(txns: seq<Txn>, market: map<FillId, Fill>)
  {
    (forall i :: 0 <= i < |txns| ==> TxnOk(txns[i], market))
    && forall i, j :: 0 <= i < j < |txns| ==> txns[i].event != txns[j].event
  }

  lemma {:induction false} DepositLegsOk(amount: int, u: Text)
    ensures var legs := Posted([Leg(CashAcct, [], amount), Leg(ExternalAcct, [], -amount)]);
      LegTotal(legs, PostedIn(u)) == 0 && LegTotal(legs, ClearingIn(u)) == 0
  {
    var legs := [Leg(CashAcct, [], amount), Leg(ExternalAcct, [], -amount)];
    TwoLegs(legs, PostedIn(u));
    TwoLegs(legs, ClearingIn(u));
    PostedTotal(legs, PostedIn(u));
    PostedTotal(legs, ClearingIn(u));
    hide Posted;
  }

  lemma {:induction false} SeedLegsOk(symbol: Text, qty: int, basis: int, u: Text)
    ensures var legs := Posted(SeedLegs(symbol, qty, basis));
      LegTotal(legs, PostedIn(u)) == 0 && LegTotal(legs, ClearingIn(u)) == 0
  {
    var legs := SeedLegs(symbol, qty, basis);
    PostedTotal(legs, PostedIn(u));
    PostedTotal(legs, ClearingIn(u));
    FourLegs(legs, PostedIn(u));
    FourLegs(legs, ClearingIn(u));
    hide Posted;
  }

  lemma {:induction false} HalfLegsOk(symbol: Text, qty: int, notional: int, fee: int, buying: bool, u: Text)
    requires symbol != []
    ensures var legs, sign := Posted(HalfFillLegs(symbol, qty, notional, fee, buying)), if buying then 1 else -1;
      && LegTotal(legs, PostedIn(u)) == 0
      && LegTotal(legs, ClearingIn(u)) == if u == [] then sign * notional else if u == symbol then -sign * qty else 0
  {
    var legs := HalfFillLegs(symbol, qty, notional, fee, buying);
    PostedTotal(legs, PostedIn(u));
    PostedTotal(legs, ClearingIn(u));
    FiveLegs(legs, PostedIn(u));
    FiveLegs(legs, ClearingIn(u));
    hide Posted;
    if buying {
      assert legs[2].amount == notional && legs[4].amount == -qty;
    } else {
      assert legs[2].amount == -notional && legs[4].amount == qty;
    }
  }

  /** The only way a step changes the ledger: one more transaction, for an event not applied before. */
  ghost predicate AppendsAtMostOne(txns: seq<Txn>, txns': seq<Txn>, market: map<FillId, Fill>, account: Uuid)
  {
    || txns' == txns
    || exists t ::
      txns' == txns + [t] && TxnOk(t, market) && !HasEvent(txns, t.event)
      && (t.kind == FillHalfTxn ==> t.account == account)
  }

  function AccountOf(a: Action): Uuid
  {
    match a
    case OpenAccount(account) => account
    case DepositCash(account, _) => account
    case Seed(account, _, _, _) => account
    case Place(_, r, _) => r.account
    case Withdraw(_) => NIL
    case Receive(_, m) => m.account
  }

  lemma {:induction false} ActAppends(terms: Terms, c: Core, a: Action, market: map<FillId, Fill>)
    requires a.Receive? ==> OfMarket(a.outcome, market)
    ensures AppendsAtMostOne(c.txns, Act(terms, c, a).txns, market, AccountOf(a))
  {
    hide TxnOk, Deposit, SeedShares, ApplyFillHalf, ApplyDisposition, ApplyCancelOutcome, Submit, RequestCancel,
      OfMarket;
    match a
    case DepositCash(account, amount) => DepositAppends(c, account, amount, market);
    case Seed(account, symbol, qty, price) => SeedAppends(c, account, symbol, qty, price, market);
    case Receive(offset, m) => if m.FillHalf? {
      HalfAppends(terms, c, offset, m, market);
    } else {
      VerdictQuiet(terms, c, offset, m);
    }
    case OpenAccount(_) =>
    case Place(id, r, ref) => SubmitQuiet(terms, c, id, r, ref);
    case Withdraw(id) => CancelQuiet(c, id);
  }

  lemma {:induction false} DepositAppends(c: Core, a: Uuid, amount: int, market: map<FillId, Fill>)
    ensures AppendsAtMostOne(c.txns, After(c, Deposit(c, a, amount)).txns, market, a)
  {
    if Deposit(c, a, amount).Commit? {
      forall u ensures var legs := Posted([Leg(CashAcct, [], amount), Leg(ExternalAcct, [], -amount)]);
        LegTotal(legs, PostedIn(u)) == 0 && LegTotal(legs, ClearingIn(u)) == 0 { DepositLegsOk(amount, u); }
      hide Posted, LegTotal;
      var legs := Posted([Leg(CashAcct, [], amount), Leg(ExternalAcct, [], -amount)]);
      var t := Txn(a, c.clocks[a], DepositTxn, LedgerEvent(a, c.clocks[a]), None, legs);
      assert TxnOk(t, market) && Deposit(c, a, amount).core.txns == c.txns + [t];
    }
  }

  lemma {:induction false} SeedAppends(c: Core, a: Uuid, symbol: Text, qty: int, price: int, market: map<FillId, Fill>)
    ensures AppendsAtMostOne(c.txns, After(c, SeedShares(c, a, symbol, qty, price)).txns, market, a)
  {
    hide Posted, LegTotal, SeedLegs, Money.Notional, BuyingPower;
    var tx := SeedShares(c, a, symbol, qty, price);
    if tx.Commit? {
      var basis := Money.Notional(qty, price).value;
      var t := Txn(a, c.clocks[a], DepositTxn, LedgerEvent(a, c.clocks[a]), None, Posted(SeedLegs(symbol, qty, basis)));
      forall u
        ensures LegTotal(t.legs, PostedIn(u)) == 0 && LegTotal(t.legs, ClearingIn(u)) == 0
      {
        SeedLegsOk(symbol, qty, basis, u);
      }
      assert TxnOk(t, market) && tx.core.txns == c.txns + [t];
    }
  }

  lemma {:induction false} HalfAppends(terms: Terms, c: Core, offset: nat, m: Matching.Outcome,
      market: map<FillId, Fill>)
    requires m.FillHalf? && OfMarket(m, market)
    ensures AppendsAtMostOne(c.txns, After(c, ApplyFillHalf(terms, c, offset, m)).txns, market, m.account)
  {
    hide Posted, LegTotal, Moved, Costing.SettleRow, HalfFillLegs, CostOut;
    var tx := ApplyFillHalf(terms, c, offset, m);
    if tx.Commit? && !HasEvent(c.txns, m.eventId) {
      var ch := Costing.ChargeFor(m.qty, m.price, c.orders[m.order].filledNotional, FeeRate(terms, m.role));
      ChargedNotional(m.qty, m.price, c.orders[m.order].filledNotional, FeeRate(terms, m.role));
      hide Costing.ChargeFor, Money.Notional;
      var t := Txn(m.account, c.clocks[m.account], FillHalfTxn, m.eventId, Some(m.order),
                   Posted(HalfFillLegs(m.symbol, m.qty, ch.notional, ch.fee, m.buying)));
      forall u ensures LegTotal(t.legs, PostedIn(u)) == 0
        && LegTotal(t.legs, ClearingIn(u)) == HalfClearing(market[m.eventId.fill], m.role, u)
      {
        HalfLegsOk(m.symbol, m.qty, ch.notional, ch.fee, m.buying, u);
      }
      SettleTxns(c.(offset := offset + 1), m, ch.notional, ch.fee);
      assert TxnOk(t, market) && tx.core.txns == c.txns + [t];
    }
  }

  lemma {:induction false} ChargedNotional(qty: int, price: int, prior: int, bps: int)
    requires Costing.ChargeFor(qty, price, prior, bps).Charge?
    ensures Money.Notional(qty, price) == Some(Costing.ChargeFor(qty, price, prior, bps).notional)
  {}

  lemma {:induction false} SettleTxns(c: Core, m: Matching.Outcome, notional: int, fee: int)
    requires m.FillHalf? && m.account in c.clocks && m.order in c.orders && SettleHalf(c, m, notional, fee).Commit?
    ensures SettleHalf(c, m, notional, fee).core.txns ==
      c.txns + [Txn(m.account, c.clocks[m.account], FillHalfTxn, m.eventId,
      Some(m.order), Posted(HalfFillLegs(m.symbol, m.qty, notional, fee, m.buying)))]
  {
    hide Posted, Moved, Costing.SettleRow, HalfFillLegs, CostOut;
  }

  ghost predicate AllOfMarket(actions: seq<Action>, market: map<FillId, Fill>)
  {
    forall i :: 0 <= i < |actions| && actions[i].Receive? ==> OfMarket(actions[i].outcome, market)
  }

  /** In every reachable state each transaction balances in every unit, clears what its half must, and no event has
      been applied twice. */
  lemma {:induction false} LedgerAlwaysOk(terms: Terms, actions: seq<Action>, market: map<FillId, Fill>)
    requires AllOfMarket(actions, market)
    ensures LedgerOk(ActAll(terms, actions).txns, market)
    decreases |actions|
  {
    hide Act, TxnOk, OfMarket;
    if actions != [] {
      var before := ActAll(terms, actions[..|actions| - 1]);
      LedgerAlwaysOk(terms, actions[..|actions| - 1], market);
      ActAppends(terms, before, actions[|actions| - 1], market);
    }
  }

  lemma {:induction false} TotalBalanced(txns: seq<Txn>, market: map<FillId, Fill>, u: Text)
    requires LedgerOk(txns, market)
    ensures Total(txns, PostedIn(u)) == 0
  {
    hide LegTotal, HalfClearing;
    if txns != [] {
      assert TxnOk(txns[|txns| - 1], market);
      TotalBalanced(txns[..|txns| - 1], market, u);
    }
  }

  /** All postings of a core sum to zero in every unit. */
  lemma {:induction false} PostingsBalance(terms: Terms, actions: seq<Action>, market: map<FillId, Fill>, u: Text)
    requires AllOfMarket(actions, market)
    ensures Total(ActAll(terms, actions).txns, PostedIn(u)) == 0
  {
    LedgerAlwaysOk(terms, actions, market);
    TotalBalanced(ActAll(terms, actions).txns, market, u);
  }

  // ---- partitions ---------------------------------------------------------------------------------------

  /** Every partition runs its own actions; an account belongs to exactly one partition. */
  ghost predicate Partitioned(runs: seq<seq<Action>>, owner: Uuid -> int)
  {
    forall p, i :: 0 <= p < |runs| && 0 <= i < |runs[p]| && runs[p][i].Receive? ==>
      owner(runs[p][i].outcome.account) == p
  }

  /** The ledgers of all partitions, one after another. */
  ghost function Joint(terms: Terms, runs: seq<seq<Action>>): seq<Txn>
    decreases |runs|
  {
    if runs == [] then [] else Joint(terms, runs[..|runs| - 1]) + ActAll(terms, runs[|runs| - 1]).txns
  }

  ghost predicate FillsOwned(txns: seq<Txn>, owner: Uuid -> int, p: int)
  {
    forall i :: 0 <= i < |txns| && txns[i].kind == FillHalfTxn ==> owner(txns[i].account) == p
  }

  lemma {:induction false} RunOwned(terms: Terms, actions: seq<Action>, owner: Uuid -> int, p: int,
      market: map<FillId, Fill>)
    requires forall i :: 0 <= i < |actions| && actions[i].Receive? ==> owner(actions[i].outcome.account) == p
    requires AllOfMarket(actions, market)
    ensures FillsOwned(ActAll(terms, actions).txns, owner, p)
    decreases |actions|
  {
    hide Act, OfMarket, TxnOk;
    if actions != [] {
      var before, last := actions[..|actions| - 1], actions[|actions| - 1];
      RunOwned(terms, before, owner, p, market);
      ActAppends(terms, ActAll(terms, before), last, market);
      if !last.Receive? { NoHalf(terms, ActAll(terms, before), last, market); }
    }
  }

  lemma {:induction false} NoHalf(terms: Terms, c: Core, a: Action, market: map<FillId, Fill>)
    requires !a.Receive?
    ensures forall i :: |c.txns| <= i < |Act(terms, c, a).txns| ==> Act(terms, c, a).txns[i].kind == DepositTxn
  {
    hide Posted, Moved, RiskOk, SeedLegs, Costing.SizeReservation, Money.Notional, Submit, RequestCancel, BuyingPower;
    match a
    case Place(id, r, ref) => SubmitQuiet(terms, c, id, r, ref);
    case Withdraw(id) => CancelQuiet(c, id);
    case _ =>
  }

  /** The fill events applied somewhere, with what they put into clearing. */
  ghost function Applied(txns: seq<Txn>, u: Text): map<EventId, int>
  {
    if txns == [] then map[]
    else
      var t := txns[|txns| - 1];
      if t.kind == FillHalfTxn then Applied(txns[..|txns| - 1], u)[t.event := LegTotal(t.legs, ClearingIn(u))]
      else Applied(txns[..|txns| - 1], u)
  }

  ghost predicate EventsApart(txns: seq<Txn>)
  {
    forall i, j :: 0 <= i < j < |txns| && txns[i].kind == FillHalfTxn && txns[j].kind == FillHalfTxn ==>
      txns[i].event != txns[j].event
  }

  ghost predicate AllTxnsOk(txns: seq<Txn>, market: map<FillId, Fill>)
  {
    forall i :: 0 <= i < |txns| ==> TxnOk(txns[i], market)
  }

  lemma {:induction false} AppliedIs(txns: seq<Txn>, u: Text, market: map<FillId, Fill>)
    requires EventsApart(txns) && AllTxnsOk(txns, market)
    ensures Sum(Applied(txns, u)) == Total(txns, ClearingIn(u))
    ensures forall e :: e in Applied(txns, u) <==>
      exists i :: 0 <= i < |txns| && txns[i].kind == FillHalfTxn && txns[i].event == e
    ensures forall e :: e in Applied(txns, u) ==>
      e.FillEvent? && e.fill in market && Applied(txns, u)[e] == HalfClearing(market[e.fill], e.role, u)
  {
    hide HalfClearing, LegTotal;
    if txns != [] {
      var n := |txns| - 1;
      var t := txns[n];
      AppliedIs(txns[..n], u, market);
      assert TxnOk(t, market);
      if t.kind == FillHalfTxn {
        SumUpdate(Applied(txns[..n], u), t.event, LegTotal(t.legs, ClearingIn(u)));
        forall i | 0 <= i < n && txns[..n][i].kind == FillHalfTxn
          ensures txns[..n][i].event != t.event
        {
          assert txns[..n][i] == txns[i];
        }
      }
      forall e
        ensures e in Applied(txns, u) <==>
          exists i :: 0 <= i < |txns| && txns[i].kind == FillHalfTxn && txns[i].event == e
      {
        if i :| 0 <= i < n && txns[..n][i].kind == FillHalfTxn && txns[..n][i].event == e { assert txns[i].event == e; }
        if i :| 0 <= i < |txns| && txns[i].kind == FillHalfTxn && txns[i].event == e {
          if i < n { assert txns[..n][i].event == e; }
        }
      }
    }
  }

  function Partner(e: EventId): EventId
    requires e.FillEvent?
  {
    FillEvent(e.fill, if e.role == Taker then Maker else Taker)
  }

  /** The halves whose counterpart has not been settled. */
  ghost function Unpaired(m: map<EventId, int>): map<EventId, int>
    requires FillsOnly(m)
  {
    map e | e in m && Partner(e) !in m :: m[e]
  }

  ghost predicate FillsOnly(m: map<EventId, int>) { forall e :: e in m ==> e.FillEvent? }

  ghost predicate Opposed(m: map<EventId, int>)
    requires FillsOnly(m)
  {
    forall e :: e in m && Partner(e) in m ==> m[Partner(e)] == -m[e]
  }

  lemma {:induction false} WithoutPair(m: map<EventId, int>, e: EventId)
    requires FillsOnly(m) && Opposed(m) && e in m && Partner(e) in m
    ensures var rest := m - {e, Partner(e)};
      FillsOnly(rest) && Opposed(rest) && Unpaired(rest) == Unpaired(m) && |rest| < |m|
      && Sum(m) == Sum(rest)
  {
    var p := Partner(e);
    SumRemove(m, e);
    SumRemove(m - {e}, p);
    assert m - {e} - {p} == m - {e, p};
    hide Sum;
  }

  /** Opposite halves cancel, so only the unpaired ones count. */
  lemma {:induction false} PairsCancel(m: map<EventId, int>)
    requires FillsOnly(m) && Opposed(m)
    ensures Sum(m) == Sum(Unpaired(m))
    decreases |m|
  {
    hide Sum, FillsOnly, Opposed;
    if e :| e in m && IsFill(e) && Partner(e) in m {
      WithoutPair(m, e);
      PairsCancel(m - {e, Partner(e)});
    } else {
      NonePaired(m);
    }
  }

  predicate IsFill(e: EventId) { e.FillEvent? }

  lemma {:induction false} NonePaired(m: map<EventId, int>)
    requires FillsOnly(m) && forall e :: e in m && IsFill(e) ==> Partner(e) !in m
    ensures Unpaired(m) == m
  {}

  /** What is in clearing, over all partitions, is the signed sum over the fills settled on one side only. */
  lemma {:induction false} ClearingIsHalfSettled(terms: Terms, runs: seq<seq<Action>>, owner: Uuid -> int,
      market: map<FillId, Fill>, u: Text)
    requires Partitioned(runs, owner) && forall p :: 0 <= p < |runs| ==> AllOfMarket(runs[p], market)
    ensures var applied := Applied(Joint(terms, runs), u);
      && FillsOnly(applied)
      && (forall e :: e in applied ==> e.fill in market && applied[e] == HalfClearing(market[e.fill], e.role, u))
      && Total(Joint(terms, runs), ClearingIn(u)) == Sum(Unpaired(applied))
  {
    JointOk(terms, runs, owner, market);
    AppliedIs(Joint(terms, runs), u, market);
    var applied := Applied(Joint(terms, runs), u);
    forall e | e in applied && Partner(e) in applied ensures applied[Partner(e)] == -applied[e] {
      HalvesOppose(market[e.fill], e.role, u);
    }
    PairsCancel(applied);
  }

  lemma {:induction false} HalvesOppose(f: Fill, role: Role, u: Text)
    ensures HalfClearing(f, if role == Taker then Maker else Taker, u) == -HalfClearing(f, role, u)
  {}

  /** Once every settled half has its counterpart, nothing is left in clearing in any unit. */
  lemma {:induction false} PairedMeansCleared(terms: Terms, runs: seq<seq<Action>>, owner: Uuid -> int,
      market: map<FillId, Fill>, u: Text)
    requires Partitioned(runs, owner) && forall p :: 0 <= p < |runs| ==> AllOfMarket(runs[p], market)
    requires forall e :: e in Applied(Joint(terms, runs), u) && e.FillEvent? ==>
      Partner(e) in Applied(Joint(terms, runs), u)
    ensures Total(Joint(terms, runs), ClearingIn(u)) == 0
  {
    ClearingIsHalfSettled(terms, runs, owner, market, u);
    assert Unpaired(Applied(Joint(terms, runs), u)) == map[];
  }

  lemma {:induction false} JointOk(terms: Terms, runs: seq<seq<Action>>, owner: Uuid -> int, market: map<FillId, Fill>)
    requires Partitioned(runs, owner) && forall p :: 0 <= p < |runs| ==> AllOfMarket(runs[p], market)
    ensures EventsApart(Joint(terms, runs)) && AllTxnsOk(Joint(terms, runs), market)
    ensures forall i :: 0 <= i < |Joint(terms, runs)| && Joint(terms, runs)[i].kind == FillHalfTxn ==> 
      owner(Joint(terms, runs)[i].account) < |runs|
    decreases |runs|
  {
    hide TxnOk, ActAll, OfMarket;
    if runs != [] {
      var n := |runs| - 1;
      JointOk(terms, runs[..n], owner, market);
      LedgerAlwaysOk(terms, runs[n], market);
      RunOwned(terms, runs[n], owner, n, market);
      JoinApart(Joint(terms, runs[..n]), ActAll(terms, runs[n]).txns, owner, n, market);
    }
  }

  /** Two partitions never settle the same half: the half names its account, and the account its partition. */
  lemma {:induction false} JoinApart(a: seq<Txn>, b: seq<Txn>, owner: Uuid -> int, n: int, market: map<FillId, Fill>)
    requires EventsApart(a) && AllTxnsOk(a, market) && LedgerOk(b, market) && FillsOwned(b, owner, n)
    requires forall i :: 0 <= i < |a| && a[i].kind == FillHalfTxn ==> owner(a[i].account) < n
    ensures EventsApart(a + b) && AllTxnsOk(a + b, market)
    ensures forall i :: 0 <= i < |a + b| && (a + b)[i].kind == FillHalfTxn ==> owner((a + b)[i].account) < n + 1
  {
    forall i, j | 0 <= i < |a| && 0 <= j < |b| && a[i].kind == FillHalfTxn && b[j].kind == FillHalfTxn
      ensures a[i].event != b[j].event
    {
      assert TxnOk(a[i], market) && TxnOk(b[j], market);
    }
    hide TxnOk;
  }
}
