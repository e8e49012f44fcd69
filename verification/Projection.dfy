/** The ledger justifies every number the projections show: internal/engine/replay.go, ProjectedState. */
module Projection {
  import opened Types
  import opened Ledger
  import opened Funding
  import opened Conservation
  import opened Replay
  import Costing
  import Matching
  import Money

  /** An account's transactions, in the order they were written. */
  function TxnsOf(txns: seq<Txn>, a: Uuid): seq<Txn>
  {
    if txns == [] then []
    else
      var rest, t := TxnsOf(txns[..|txns| - 1], a), txns[|txns| - 1];
      if t.account == a then rest + [t] else rest
  }

  function Clearing(txns: seq<Txn>): int { Total(txns, ClearingIn([])) }

  function LastSeq(txns: seq<Txn>): int { if txns == [] then 0 else txns[|txns| - 1].seqNo }

  /** What the write path maintains for an account agrees with the replay of its ledger. */
  ghost predicate Agrees(c: Core, a: Uuid, st: ReplayState)
  {
    && st.cash == BalanceOf(c, a).cash && st.fees == BalanceOf(c, a).fees
    && st.clearing == Clearing(TxnsOf(c.txns, a)) && st.seqNo == LastSeq(TxnsOf(c.txns, a))
    && forall s :: Holds(st.positions, s) == PositionOf(c, Holding(a, s))
  }

  /** The account clock: transactions are numbered 1, 2, 3, ... and the next number is the clock. */
  ghost predicate Clocked(c: Core, a: Uuid)
  {
    var ts := TxnsOf(c.txns, a);
    && (forall i :: 0 <= i < |ts| ==> ts[i].seqNo == i + 1 && ts[i].legs != [])
    && (if a in c.clocks then c.clocks[a] == |ts| + 1 else ts == [])
  }

  ghost predicate Mirrored(c: Core)
  {
    forall a :: Clocked(c, a) && Agrees(c, a, Fold(Genesis(), TxnsOf(c.txns, a)))
  }

  lemma {:induction false} TxnsOfAppend(txns: seq<Txn>, t: Txn, a: Uuid)
    ensures TxnsOf(txns + [t], a) == if t.account == a then TxnsOf(txns, a) + [t] else TxnsOf(txns, a)
  {
    assert (txns + [t])[..|txns|] == txns;
  }

  // ---- the deltas of the transactions the system writes ------------------------------------------------

  lemma {:induction false} DeltasAppend(legs: seq<Leg>, l: Leg)
    ensures Deltas(legs + [l]) ==
      if l.kind == PositionAcct then Deltas(legs)[l.symbol := Change(Deltas(legs), l.symbol) + l.amount]
        else Deltas(legs)
  {
    assert (legs + [l])[..|legs|] == legs;
  }

  lemma {:induction false} PostedAppend(legs: seq<Leg>, l: Leg)
    ensures Posted(legs + [l]) == Posted(legs) + if l.amount == 0 then [] else [l]
  {
    if legs == [] { assert [l][1..] == []; } else {
      assert (legs + [l])[1..] == legs[1..] + [l];
      PostedAppend(legs[1..], l);
    }
  }

  /** Posting one more leg: what it adds to the deltas, unless it is zero. */
  lemma {:induction false} NextDelta(legs: seq<Leg>, i: nat)
    requires i < |legs|
    ensures Deltas(Posted(legs[..i + 1])) ==
      if legs[i].kind == PositionAcct && legs[i].amount != 0
      then Deltas(Posted(legs[..i]))[legs[i].symbol :=
        Change(Deltas(Posted(legs[..i])), legs[i].symbol) + legs[i].amount]
      else Deltas(Posted(legs[..i]))
  {
    assert legs[..i + 1] == legs[..i] + [legs[i]];
    PostedAppend(legs[..i], legs[i]);
    DeltasAppend(Posted(legs[..i]), legs[i]);
    assert Posted(legs[..i]) + [] == Posted(legs[..i]);
  }

  lemma {:induction false} HalfDeltas(symbol: Text, qty: int, notional: int, fee: int, buying: bool)
    requires qty != 0
    ensures Deltas(Posted(HalfFillLegs(symbol, qty, notional, fee, buying))) ==
      map[symbol := if buying then qty else -qty]
  {
    var legs := HalfFillLegs(symbol, qty, notional, fee, buying);
    hide Deltas, Posted;
    NextDelta(legs, 0);
    NextDelta(legs, 1);
    NextDelta(legs, 2);
    NextDelta(legs, 3);
    NextDelta(legs, 4);
    NoDeltas(legs[..0]);
    assert legs[..5] == legs;
    assert legs[3].amount == if buying then qty else -qty;
  }

  lemma {:induction false} NoDeltas(legs: seq<Leg>)
    requires legs == []
    ensures Deltas(Posted(legs)) == map[]
  {}

  lemma {:induction false} SeedDeltas(symbol: Text, qty: int, basis: int)
    requires qty != 0
    ensures Deltas(Posted(SeedLegs(symbol, qty, basis))) == map[symbol := qty]
  {
    var legs := SeedLegs(symbol, qty, basis);
    hide Deltas, Posted;
    NextDelta(legs, 0);
    NextDelta(legs, 1);
    NextDelta(legs, 2);
    NextDelta(legs, 3);
    NoDeltas(legs[..0]);
    assert legs[..4] == legs;
  }

  lemma {:induction false} DepositDeltas(amount: int)
    ensures Deltas(Posted([Leg(CashAcct, [], amount), Leg(ExternalAcct, [], -amount)])) == map[]
  {
    var legs := [Leg(CashAcct, [], amount), Leg(ExternalAcct, [], -amount)];
    hide Deltas, Posted;
    NextDelta(legs, 0);
    NextDelta(legs, 1);
    NoDeltas(legs[..0]);
    assert legs[..2] == legs;
  }

  lemma {:induction false} PostedMoves(legs: seq<Leg>, kind: LedgerKind)
    ensures Moved(Posted(legs), kind) == Moved(legs, kind)
  {
    if legs != [] {
      PostedMoves(legs[1..], kind);
      if legs[0].amount != 0 {
        assert Posted(legs)[1..] == Posted(legs[1..]);
      } else {
        assert Posted(legs) == Posted(legs[1..]);
      }
    }
  }

  // ---- one written transaction ---------------------------------------------------------------------------

  function PositionAfter(c: Core, h: Holding, account: Uuid, delta: map<Text, int>, cash: int): Position
  {
    if h.account == account && h.symbol in delta then ApplyDelta(PositionOf(c, h), delta[h.symbol], cash)
      else PositionOf(c, h)
  }

  /** Writing one transaction for an account, with the matching move of one of its positions, keeps the mirror. */
  lemma {:induction false} WriteKeeps(c: Core, c': Core, t: Txn, delta: map<Text, int>)
    requires Mirrored(c) && t.account in c.clocks && t.seqNo == c.clocks[t.account]
    requires var w := WriteTxn(c, t); c'.txns == w.txns && c'.balances == w.balances && c'.clocks == w.clocks
    requires Posted(t.legs) != [] && Deltas(Posted(t.legs)) == delta
    requires forall h :: PositionOf(c', h) == PositionAfter(c, h, t.account, delta, Moved(t.legs, CashAcct))
    ensures Mirrored(c')
  {
    hide Posted, Deltas, Moved, LegTotal, ApplyDelta, Fold, TxnsOf, Total;
    var p := t.(legs := Posted(t.legs));
    forall kind ensures Moved(p.legs, kind) == Moved(t.legs, kind) { PostedMoves(t.legs, kind); }
    forall a ensures Clocked(c', a) && Agrees(c', a, Fold(Genesis(), TxnsOf(c'.txns, a))) {
      TxnsOfAppend(c.txns, p, a);
      assert Clocked(c, a) && Agrees(c, a, Fold(Genesis(), TxnsOf(c.txns, a)));
      if a == t.account {
        ClockTicks(c, c', p);
        StepAgrees(c, c', p, delta);
      }
    }
  }

  lemma {:induction false} ClockTicks(c: Core, c': Core, p: Txn)
    requires Clocked(c, p.account) && p.account in c.clocks && p.seqNo == c.clocks[p.account] && p.legs != []
    requires c'.txns == c.txns + [p] && c'.clocks == c.clocks[p.account := c.clocks[p.account] + 1]
    ensures Clocked(c', p.account)
  {
    TxnsOfAppend(c.txns, p, p.account);
  }

  lemma {:induction false} StepAgrees(c: Core, c': Core, p: Txn, delta: map<Text, int>)
    requires var a := p.account;
      && Agrees(c, a, Fold(Genesis(), TxnsOf(c.txns, a))) && c'.txns == c.txns + [p] && Deltas(p.legs) == delta
      && BalanceOf(c', a).cash == BalanceOf(c, a).cash + Moved(p.legs, CashAcct)
      && BalanceOf(c', a).fees == BalanceOf(c, a).fees + Moved(p.legs, FeesAcct)
      && forall s :: PositionOf(c', Holding(a, s)) == PositionAfter(c, Holding(a, s), a, delta, Moved(p.legs, CashAcct))
    ensures Agrees(c', p.account, Fold(Genesis(), TxnsOf(c'.txns, p.account)))
  {
    hide Deltas, Moved, LegTotal, ApplyDelta, TxnsOf, Fold, Total, BalanceOf, PositionOf;
    var a := p.account;
    var ts, st := TxnsOf(c.txns, a), Fold(Genesis(), TxnsOf(c.txns, a));
    TxnsOfAppend(c.txns, p, a);
    assert (ts + [p])[..|ts|] == ts;
    assert Fold(Genesis(), ts + [p]) == ApplyTxn(st, p) by {
      FoldOne(Genesis(), ts + [p], |ts|);
      assert (ts + [p])[..|ts| + 1] == ts + [p];
    }
    assert Clearing(ts + [p]) == Clearing(ts) + LegTotal(p.legs, ClearingIn([])) by { TotalAppend(ts, p); }
    var next := ApplyTxn(st, p);
    forall s
      ensures Holds(next.positions, s) == PositionOf(c', Holding(a, s))
    {
      assert Holds(st.positions, s) == PositionOf(c, Holding(a, s));
    }
  }

  lemma {:induction false} TotalAppend(ts: seq<Txn>, p: Txn)
    ensures Total(ts + [p], ClearingIn([])) == Total(ts, ClearingIn([])) + LegTotal(p.legs, ClearingIn([]))
  {
    assert (ts + [p])[..|ts|] == ts;
  }

  /** A step that writes no transaction and moves no balance or position keeps the mirror. */
  lemma {:induction false} QuietKeeps(c: Core, c': Core)
    requires Mirrored(c) && SameMoney(c, c')
    ensures Mirrored(c')
  {
    hide Fold, TxnsOf, Clearing, LastSeq;
    forall a ensures Clocked(c', a) && Agrees(c', a, Fold(Genesis(), TxnsOf(c'.txns, a))) {
      assert Clocked(c, a) && Agrees(c, a, Fold(Genesis(), TxnsOf(c.txns, a)));
    }
  }

  lemma {:induction false} DepositKeeps(c: Core, a: Uuid, amount: int)
    requires Mirrored(c)
    ensures Mirrored(After(c, Deposit(c, a, amount)))
  {
    if Deposit(c, a, amount).Commit? {
      var legs := [Leg(CashAcct, [], amount), Leg(ExternalAcct, [], -amount)];
      DepositDeltas(amount);
      assert Posted(legs) != [];
      hide Posted, Moved, Deltas, Mirrored;
      WriteKeeps(c, Deposit(c, a, amount).core,
        Txn(a, c.clocks[a], DepositTxn, LedgerEvent(a, c.clocks[a]), None, legs), map[]);
    }
  }

  lemma {:induction false} HasPosting(legs: seq<Leg>, i: nat)
    requires i < |legs| && legs[i].amount != 0
    ensures Posted(legs) != []
  {
    if i > 0 { HasPosting(legs[1..], i - 1); }
  }

  lemma {:induction false} SeedKeeps(c: Core, a: Uuid, symbol: Text, qty: int, price: int)
    requires Mirrored(c)
    ensures Mirrored(After(c, SeedShares(c, a, symbol, qty, price)))
  {
    hide Posted, Moved, Deltas, Mirrored, SeedLegs, Money.Notional, BuyingPower;
    var tx := SeedShares(c, a, symbol, qty, price);
    if tx.Commit? {
      var basis := Money.Notional(qty, price).value;
      var legs := SeedLegs(symbol, qty, basis);
      SeedDeltas(symbol, qty, basis);
      SeedMoves(symbol, qty, basis);
      assert Posted(legs) != [] by { SeedHasPosting(symbol, qty, basis); }
      WriteKeeps(c, tx.core, Txn(a, c.clocks[a], DepositTxn, LedgerEvent(a, c.clocks[a]), None, legs),
        map[symbol := qty]);
    }
  }

  lemma {:induction false} SeedHasPosting(symbol: Text, qty: int, basis: int)
    requires qty != 0
    ensures Posted(SeedLegs(symbol, qty, basis)) != []
  {
    HasPosting(SeedLegs(symbol, qty, basis), 2);
  }

  lemma {:induction false} HalfHasPosting(symbol: Text, qty: int, notional: int, fee: int, buying: bool)
    requires qty != 0
    ensures Posted(HalfFillLegs(symbol, qty, notional, fee, buying)) != []
  {
    var legs := HalfFillLegs(symbol, qty, notional, fee, buying);
    assert legs[3].amount == if buying then qty else -qty;
    HasPosting(legs, 3);
  }

  lemma {:induction false} HalfKeeps(terms: Terms, c: Core, offset: nat, m: Matching.Outcome)
    requires Mirrored(c) && m.FillHalf? && m.qty > 0
    ensures Mirrored(After(c, ApplyFillHalf(terms, c, offset, m)))
  {
    hide Mirrored, SettleHalf, Costing.ChargeFor, Money.Notional;
    var tx := ApplyFillHalf(terms, c, offset, m);
    if tx.Commit? {
      QuietKeeps(c, c.(offset := offset + 1));
      if !HasEvent(c.txns, m.eventId) {
        var ch := Costing.ChargeFor(m.qty, m.price, c.orders[m.order].filledNotional, FeeRate(terms, m.role));
        NewHalfKeeps(c.(offset := offset + 1), m, ch.notional, ch.fee);
      }
    }
  }

  lemma {:induction false} NewHalfKeeps(c: Core, m: Matching.Outcome, notional: int, fee: int)
    requires Mirrored(c) && m.FillHalf? && m.qty > 0 && m.account in c.clocks && m.order in c.orders
    requires SettleHalf(c, m, notional, fee).Commit?
    ensures Mirrored(SettleHalf(c, m, notional, fee).core)
  {
    hide Mirrored, Posted, Moved, Deltas, HalfFillLegs, Costing.SettleRow, CostOut;
    var legs := HalfFillLegs(m.symbol, m.qty, notional, fee, m.buying);
    HalfDeltas(m.symbol, m.qty, notional, fee, m.buying);
    MovedByHalf(m.symbol, m.qty, notional, fee, m.buying);
    HalfHasPosting(m.symbol, m.qty, notional, fee, m.buying);
    var t := Txn(m.account, c.clocks[m.account], FillHalfTxn, m.eventId, Some(m.order), legs);
    var c' := SettleHalf(c, m, notional, fee).core;
    WriteKeeps(c, c', t, map[m.symbol := if m.buying then m.qty else -m.qty]);
  }

  lemma {:induction false} OpenKeeps(c: Core, a: Uuid)
    requires Mirrored(c) && a !in c.clocks
    ensures Mirrored(c.(clocks := c.clocks[a := 1]))
  {
    hide Fold, TxnsOf, Clearing, LastSeq;
    var c' := c.(clocks := c.clocks[a := 1]);
    forall x ensures Clocked(c', x) && Agrees(c', x, Fold(Genesis(), TxnsOf(c'.txns, x))) {
      assert Clocked(c, x) && Agrees(c, x, Fold(Genesis(), TxnsOf(c.txns, x)));
    }
  }

  lemma {:induction false} ActKeeps(terms: Terms, c: Core, a: Action)
    requires Mirrored(c) && (a.Receive? && a.outcome.FillHalf? ==> a.outcome.qty > 0)
    ensures Mirrored(Act(terms, c, a))
  {
    hide Mirrored, Deposit, SeedShares, Submit, RequestCancel, ApplyFillHalf, ApplyDisposition, ApplyCancelOutcome;
    match a
    case OpenAccount(account) => if account !in c.clocks { OpenKeeps(c, account); }
    case DepositCash(account, amount) => DepositKeeps(c, account, amount);
    case Seed(account, symbol, qty, price) => SeedKeeps(c, account, symbol, qty, price);
    case Place(id, r, ref) =>
      SubmitQuiet(terms, c, id, r, ref);
      QuietKeeps(c, Act(terms, c, a));
    case Withdraw(id) =>
      CancelQuiet(c, id);
      QuietKeeps(c, Act(terms, c, a));
    case Receive(offset, m) =>
      if m.FillHalf? { HalfKeeps(terms, c, offset, m); } else {
        VerdictQuiet(terms, c, offset, m);
        QuietKeeps(c, Act(terms, c, a));
      }
  }

  ghost predicate RealFills(actions: seq<Action>)
  {
    forall i :: 0 <= i < |actions| && actions[i].Receive? && actions[i].outcome.FillHalf? ==> actions[i].outcome.qty > 0
  }

  /** After any history, replaying an account's postings gives the cash, fees, clearing, quantities, cost basis and
      realized P&L that the write path keeps. */
  lemma {:induction false} ProjectionEqualsLedger(terms: Terms, actions: seq<Action>)
    requires RealFills(actions)
    ensures Mirrored(ActAll(terms, actions))
    decreases |actions|
  {
    hide Mirrored, Act;
    if actions == [] { EmptyMirrored(); } else {
      ProjectionEqualsLedger(terms, actions[..|actions| - 1]);
      ActKeeps(terms, ActAll(terms, actions[..|actions| - 1]), actions[|actions| - 1]);
    }
  }

  lemma {:induction false} EmptyMirrored()
    ensures Mirrored(Empty())
  {}

  /** The rows the replay query returns for an account are separable into its transactions. */
  lemma {:induction false} LedgerSeparable(terms: Terms, actions: seq<Action>, a: Uuid)
    requires RealFills(actions)
    ensures Separable(TxnsOf(ActAll(terms, actions).txns, a))
  {
    ProjectionEqualsLedger(terms, actions);
    var c := ActAll(terms, actions);
    assert Clocked(c, a);
  }

  // ---- cost basis -----------------------------------------------------------------------------------------

  /** The cash legs of the transactions that traded a symbol. */
  function TradeCash(txns: seq<Txn>, s: Text): int
  {
    if txns == [] then 0
    else
      var t := txns[|txns| - 1];
      TradeCash(txns[..|txns| - 1], s) + if s in Deltas(t.legs) then Moved(t.legs, CashAcct) else 0
  }

  /** Realized P&L less the basis still held is the sum of the trade cash legs, whatever was bought and sold. */
  lemma {:induction false} BasisIsCash(txns: seq<Txn>, s: Text)
    ensures var p := Holds(Fold(Genesis(), txns).positions, s); p.realized - p.basis == TradeCash(txns, s)
  {
    hide Deltas, Moved, LegTotal, CostOut;
    if txns != [] { BasisIsCash(txns[..|txns| - 1], s); }
  }

  /** In any reachable state of a core, a position sold down to nothing has no basis left: it is never oversold. */
  lemma {:induction false} FlatPositionHasNoBasis(terms: Terms, actions: seq<Action>, h: Holding)
    requires AllAddressed(terms, actions) && RealFills(actions) && terms.takerBps <= Money.BPS
    requires terms.makerBps <= Money.BPS
    ensures var p := PositionOf(ActAll(terms, actions), h); p.qty >= 0 && FlatIsBare(p)
    decreases |actions|
  {
    hide Act, Addressed;
    NoOverdraft(terms, actions, h.account, h.symbol);
    if actions != [] {
      var before, last := actions[..|actions| - 1], actions[|actions| - 1];
      FlatPositionHasNoBasis(terms, before, h);
      PositionStep(terms, ActAll(terms, before), last, h);
    }
  }

  predicate FlatIsBare(p: Position) { p.qty == 0 ==> p.basis == 0 }

  lemma {:induction false} PositionStep(terms: Terms, c: Core, a: Action, h: Holding)
    requires a.Receive? && a.outcome.FillHalf? ==> a.outcome.qty > 0
    requires PositionOf(c, h).qty >= 0 && FlatIsBare(PositionOf(c, h))
    ensures FlatIsBare(PositionOf(Act(terms, c, a), h))
  {
    hide Deposit, SeedShares, Submit, RequestCancel, ApplyFillHalf, ApplyDisposition, ApplyCancelOutcome, FlatIsBare;
    match a
    case OpenAccount(_) =>
    case DepositCash(account, amount) => assert After(c, Deposit(c, account, amount)).positions == c.positions by {
      DepositPositions(c, account, amount);
    }
    case Seed(account, symbol, qty, price) => SeedStep(c, account, symbol, qty, price, h);
    case Place(id, r, ref) => SubmitQuiet(terms, c, id, r, ref);
    case Withdraw(id) => CancelQuiet(c, id);
    case Receive(offset, m) => if m.FillHalf? {
      HalfStep(terms, c, offset, m, h);
    } else {
      VerdictQuiet(terms, c, offset, m);
    }
  }

  lemma {:induction false} DepositPositions(c: Core, a: Uuid, amount: int)
    ensures After(c, Deposit(c, a, amount)).positions == c.positions
  {
    hide Posted, Moved;
  }

  lemma {:induction false} SeedStep(c: Core, a: Uuid, symbol: Text, qty: int, price: int, h: Holding)
    requires PositionOf(c, h).qty >= 0 && FlatIsBare(PositionOf(c, h))
    ensures FlatIsBare(PositionOf(After(c, SeedShares(c, a, symbol, qty, price)), h))
  {
    hide Posted, Moved, SeedLegs, Money.Notional, BuyingPower;
  }

  lemma {:induction false} HalfStep(terms: Terms, c: Core, offset: nat, m: Matching.Outcome, h: Holding)
    requires m.FillHalf? && m.qty > 0 && PositionOf(c, h).qty >= 0 && FlatIsBare(PositionOf(c, h))
    ensures FlatIsBare(PositionOf(After(c, ApplyFillHalf(terms, c, offset, m)), h))
  {
    hide Costing.ChargeFor, Money.Notional, SettleHalf, FlatIsBare;
    var tx := ApplyFillHalf(terms, c, offset, m);
    if tx.Commit? && !HasEvent(c.txns, m.eventId) {
      var ch := Costing.ChargeFor(m.qty, m.price, c.orders[m.order].filledNotional, FeeRate(terms, m.role));
      TradeStep(c.(offset := offset + 1), m, ch.notional, ch.fee, h);
    }
  }

  lemma {:induction false} TradeStep(c: Core, m: Matching.Outcome, notional: int, fee: int, h: Holding)
    requires m.FillHalf? && m.qty > 0 && m.account in c.clocks && m.order in c.orders
    requires SettleHalf(c, m, notional, fee).Commit?
    requires PositionOf(c, h).qty >= 0 && FlatIsBare(PositionOf(c, h))
    ensures FlatIsBare(PositionOf(SettleHalf(c, m, notional, fee).core, h))
  {
    hide Posted, Moved, HalfFillLegs, Costing.SettleRow, Truncated;
  }
}
