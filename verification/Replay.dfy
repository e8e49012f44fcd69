/** Rebuilding an account from its postings: internal/engine/replay.go. */
module Replay {
  import opened Types
  import opened Ledger
  import opened Conservation

  datatype ReplayState = ReplayState(seqNo: int, cash: int, fees: int, clearing: int, positions: map<Text, Position>)

  function Genesis(): ReplayState { ReplayState(0, 0, 0, 0, map[]) }

  function Holds(m: map<Text, Position>, s: Text): Position { if s in m then m[s] else Position(0, 0, 0) }

  /** Two states that agree up to positions that are entirely zero. */
  ghost predicate Same(a: ReplayState, b: ReplayState)
  {
    a.seqNo == b.seqNo && a.cash == b.cash && a.fees == b.fees && a.clearing == b.clearing
    && forall s :: Holds(a.positions, s) == Holds(b.positions, s)
  }

  // ---- whole transactions --------------------------------------------------------------------------

  function Change(m: map<Text, int>, s: Text): int { if s in m then m[s] else 0 }

  /** The share deltas of a transaction, by symbol. */
  function Deltas(legs: seq<Leg>): map<Text, int>
  {
    if legs == [] then map[]
    else
      var d, l := Deltas(legs[..|legs| - 1]), legs[|legs| - 1];
      if l.kind == PositionAcct then d[l.symbol := Change(d, l.symbol) + l.amount] else d
  }

  /** The effect of one transaction: its cash leg says what each of its share deltas cost or brought. */
  function ApplyTxn(st: ReplayState, t: Txn): ReplayState
  {
    var cash, d := Moved(t.legs, CashAcct), Deltas(t.legs);
    ReplayState(t.seqNo, st.cash + cash, st.fees + Moved(t.legs, FeesAcct), st.clearing +
      LegTotal(t.legs, ClearingIn([])),
      map s | s in st.positions.Keys + d.Keys ::
        if s in d then ApplyDelta(Holds(st.positions, s), d[s], cash) else st.positions[s])
  }

  function Fold(st: ReplayState, txns: seq<Txn>): ReplayState
    decreases |txns|
  {
    if txns == [] then st else ApplyTxn(Fold(st, txns[..|txns| - 1]), txns[|txns| - 1])
  }

  lemma {:induction false} FoldJoin(st: ReplayState, a: seq<Txn>, b: seq<Txn>)
    ensures Fold(st, a + b) == Fold(Fold(st, a), b)
    decreases |b|
  {
    hide ApplyTxn;
    if b == [] { assert a + b == a; } else {
      assert (a + b)[..|a + b| - 1] == a + b[..|b| - 1];
      FoldJoin(st, a, b[..|b| - 1]);
    }
  }

  lemma {:induction false} ApplySame(a: ReplayState, b: ReplayState, t: Txn)
    requires Same(a, b)
    ensures Same(ApplyTxn(a, t), ApplyTxn(b, t))
  {
    hide ApplyDelta, Deltas, Moved, LegTotal;
    var x, y := ApplyTxn(a, t), ApplyTxn(b, t);
    forall s ensures Holds(x.positions, s) == Holds(y.positions, s) {
      assert Holds(a.positions, s) == Holds(b.positions, s);
    }
  }

  lemma {:induction false} FoldSame(a: ReplayState, b: ReplayState, txns: seq<Txn>)
    requires Same(a, b)
    ensures Same(Fold(a, txns), Fold(b, txns))
    decreases |txns|
  {
    hide ApplyTxn, Same;
    if txns != [] {
      FoldSame(a, b, txns[..|txns| - 1]);
      ApplySame(Fold(a, txns[..|txns| - 1]), Fold(b, txns[..|txns| - 1]), txns[|txns| - 1]);
    }
  }

  // ---- the row loop ----------------------------------------------------------------------------------

  /** One row of the replay query. */
  datatype PostingRow = PostingRow(seqNo: int, kind: LedgerKind, symbol: Text, amount: int)

  function RowsOfTxn(t: Txn): seq<PostingRow>
  {
    seq(|t.legs|, i requires 0 <=
      i < |t.legs| => PostingRow(t.seqNo, t.legs[i].kind, t.legs[i].symbol, t.legs[i].amount))
  }

  function RowsOf(txns: seq<Txn>): seq<PostingRow>
  {
    if txns == [] then [] else RowsOfTxn(txns[0]) + RowsOf(txns[1..])
  }

  /** Consecutive transactions are told apart by their sequence numbers and each has at least one posting. */
  ghost predicate Separable(txns: seq<Txn>)
  {
    (forall i :: 0 <= i < |txns| ==> txns[i].legs != []) && forall i, j :: 0 <= i < j < |txns| ==>
      txns[i].seqNo < txns[j].seqNo
  }

  /** `txnLegs`. */
  datatype TxnLegs = TxnLegs(seqNo: int, cash: int, fees: int, clearing: int, positions: map<Text, int>)

  function Gathered(seqNo: int, legs: seq<Leg>): TxnLegs
  {
    TxnLegs(seqNo, Moved(legs, CashAcct), Moved(legs, FeesAcct), LegTotal(legs, ClearingIn([])), Deltas(legs))
  }

  lemma {:induction false} MovedAppend(legs: seq<Leg>, l: Leg, kind: LedgerKind)
    ensures Moved(legs + [l], kind) == Moved(legs, kind) + if l.kind == kind then l.amount else 0
  {
    if legs == [] { assert [l][1..] == []; } else {
      assert (legs + [l])[1..] == legs[1..] + [l];
      MovedAppend(legs[1..], l, kind);
    }
  }

  lemma {:induction false} LegTotalAppend(legs: seq<Leg>, l: Leg, m: Measure)
    ensures LegTotal(legs + [l], m) == LegTotal(legs, m) + LegTotal([l], m)
  {
    if legs == [] { assert legs + [l] == [l]; } else {
      assert (legs + [l])[1..] == legs[1..] + [l];
      LegTotalAppend(legs[1..], l, m);
    }
  }

  /** The positions once the deltas of the symbols in `done` have been applied. */
  function Moves(m: map<Text, Position>, d: map<Text, int>, cash: int, done: set<Text>): map<Text, Position>
    requires done <= d.Keys
  {
    map s | s in m.Keys + done :: if s in done then ApplyDelta(Holds(m, s), d[s], cash) else m[s]
  }

  lemma {:induction false} OneMove(m: map<Text, Position>, d: map<Text, int>, cash: int, done: set<Text>, s: Text)
    requires done <= d.Keys && s in d && s !in done
    ensures Holds(Moves(m, d, cash, done), s) == Holds(m, s)
    ensures Moves(m, d, cash, done)[s := ApplyDelta(Holds(m, s), d[s], cash)] == Moves(m, d, cash, done + {s})
  {
    hide ApplyDelta;
  }

  lemma {:induction false} AllMoved(state: ReplayState, t: Txn)
    ensures var d := Deltas(t.legs);
      ApplyTxn(state, t).positions == Moves(state.positions, d, Moved(t.legs, CashAcct), d.Keys)
      && Moves(state.positions, d, Moved(t.legs, CashAcct), {}) == state.positions
  {
    hide ApplyDelta, Deltas, Moved;
  }

  /** `flush`. */
  method Flush(state: ReplayState, current: TxnLegs, ghost t: Txn) returns (r: ReplayState)
    requires current == Gathered(t.seqNo, t.legs)
    ensures r == ApplyTxn(state, t)
  {
    AllMoved(state, t);
    hide Moves, ApplyDelta, Deltas, Moved, LegTotal;
    r := state.(seqNo := current.seqNo, cash := state.cash + current.cash, fees := state.fees + current.fees,
                clearing := state.clearing + current.clearing);
    var positions := state.positions;
    var left := current.positions.Keys;
    ghost var done: set<Text> := {};
    while left != {}
      invariant left !! done && left + done == current.positions.Keys
      invariant positions == Moves(state.positions, current.positions, current.cash, done)
      decreases |left|
    {
      var s :| s in left;
      OneMove(state.positions, current.positions, current.cash, done, s);
      var p := ApplyDelta(Holds(positions, s), current.positions[s], current.cash);
      positions := positions[s := p];
      left, done := left - {s}, done + {s};
    }
    r := r.(positions := positions);
  }

  /** One row added to the transaction being gathered. */
  method Gather(current: TxnLegs, row: PostingRow, ghost legs: seq<Leg>) returns (r: TxnLegs)
    requires current == Gathered(row.seqNo, legs)
    ensures r == Gathered(row.seqNo, legs + [Leg(row.kind, row.symbol, row.amount)])
  {
    r := current;
    match row.kind {
      case CashAcct => r := r.(cash := r.cash + row.amount);
      case FeesAcct => r := r.(fees := r.fees + row.amount);
      case ClearingAcct => if row.symbol == [] { r := r.(clearing := r.clearing + row.amount); }
      case PositionAcct => r :=
        r.(positions := r.positions[row.symbol := Change(r.positions, row.symbol) + row.amount]);
      case ExternalAcct =>
    }
    ghost var l := Leg(row.kind, row.symbol, row.amount);
    MovedAppend(legs, l, CashAcct);
    MovedAppend(legs, l, FeesAcct);
    LegTotalAppend(legs, l, ClearingIn([]));
    assert [l][1..] == [];
    assert (legs + [l])[..|legs|] == legs;
  }

  /** Where the row loop stands: k transactions flushed, the first j legs of the next one gathered. */
  ghost predicate Underway(from: ReplayState, txns: seq<Txn>, rest: seq<PostingRow>, state: ReplayState,
      current: Option<TxnLegs>, k: nat, j: nat)
  {
    && k <= |txns| && state == Fold(from, txns[..k])
    && (current.None? ==> j == 0 && rest == RowsOf(txns[k..]))
    && (current.Some? ==>
          k < |txns| && 0 < j <= |txns[k].legs| && current.value == Gathered(txns[k].seqNo, txns[k].legs[..j])
          && rest == RowsOfTxn(txns[k])[j..] + RowsOf(txns[k + 1..]))
  }

  lemma {:induction false} FoldOne(from: ReplayState, txns: seq<Txn>, k: nat)
    requires k < |txns|
    ensures Fold(from, txns[..k + 1]) == ApplyTxn(Fold(from, txns[..k]), txns[k])
  {
    hide ApplyTxn;
    assert txns[..k + 1][..k] == txns[..k] && txns[..k + 1][k] == txns[k];
  }

  lemma {:induction false} RowsFrom(txns: seq<Txn>, k: nat)
    requires k <= |txns| && Separable(txns)
    ensures k < |txns| ==> RowsOf(txns[k..]) == RowsOfTxn(txns[k]) + RowsOf(txns[k + 1..]) && RowsOfTxn(txns[k]) != []
    ensures RowsOf(txns[k..]) == [] <==> k == |txns|
  {
    if k < |txns| { assert txns[k..][1..] == txns[k + 1..]; }
  }

  /** The first of the remaining rows belongs to the transaction being gathered exactly while it has legs left. */
  lemma {:induction false} NextRow(txns: seq<Txn>, k: nat, j: nat)
    requires k < |txns| && 0 < j <= |txns[k].legs| && Separable(txns)
    requires RowsOfTxn(txns[k])[j..] + RowsOf(txns[k + 1..]) != []
    ensures var row := (RowsOfTxn(txns[k])[j..] + RowsOf(txns[k + 1..]))[0];
      && (row.seqNo == txns[k].seqNo <==> j < |txns[k].legs|)
      && (j < |txns[k].legs| ==> row == RowsOfTxn(txns[k])[j])
      && (j == |txns[k].legs| ==> k + 1 < |txns| && row == RowsOfTxn(txns[k + 1])[0])
  {
    RowsFrom(txns, k + 1);
    if j == |txns[k].legs| {
      assert RowsOfTxn(txns[k])[j..] == [];
    }
  }

  /** The first remaining row is leg j of transaction k, which is being gathered. */
  ghost predicate Gathering(from: ReplayState, txns: seq<Txn>, rest: seq<PostingRow>, state: ReplayState,
      current: TxnLegs, k: nat, j: nat)
  {
    && k < |txns| && j < |txns[k].legs| && state == Fold(from, txns[..k])
    && current == Gathered(txns[k].seqNo, txns[k].legs[..j])
    && rest != [] && rest[0] == RowsOfTxn(txns[k])[j]
    && rest[1..] == RowsOfTxn(txns[k])[j + 1..] + RowsOf(txns[k + 1..])
  }

  /** `ReplayAccountRange`: grouping the rows of a ledger slice and flushing group by group folds whole transactions. */
  method ReplayRange(rows: seq<PostingRow>, from: ReplayState, ghost txns: seq<Txn>) returns (state: ReplayState)
    requires Separable(txns) && rows == RowsOf(txns)
    ensures state == Fold(from, txns)
  {
    hide ApplyTxn, Gathered, Fold, RowsOf, RowsOfTxn, Separable, Underway, Gathering;
    state := from;
    var current: Option<TxnLegs> := None;
    ghost var k, j: nat := 0, 0;
    var i := 0;
    Starts(from, txns, rows);
    while i < |rows|
      invariant 0 <= i <= |rows| && Underway(from, txns, rows[i..], state, current, k, j)
    {
      var row := rows[i];
      assert rows[i..][0] == row && rows[i..][1..] == rows[i + 1..];
      if current.Some? && current.value.seqNo != row.seqNo {
        GroupEnds(from, txns, rows[i..], state, current.value, k, j);
        state := Flush(state, current.value, txns[k]);
        current := None;
        k, j := k + 1, 0;
      }
      if current.None? {
        current := Some(TxnLegs(row.seqNo, 0, 0, 0, map[]));
        GroupStarts(from, txns, rows[i..], state, k, j, current.value);
      } else {
        GroupGoesOn(from, txns, rows[i..], state, current.value, k, j);
      }
      GatheringAt(from, txns, rows[i..], state, current.value, k, j);
      var more := Gather(current.value, row, txns[k].legs[..j]);
      RowGathered(from, txns, rows[i..], state, current.value, k, j, more);
      current := Some(more);
      j := j + 1;
      i := i + 1;
    }
    if current.Some? {
      LastGroup(from, txns, rows[i..], state, current.value, k, j);
      state := Flush(state, current.value, txns[k]);
    } else {
      Finished(from, txns, rows[i..], state, k, j);
    }
  }

  lemma {:induction false} Starts(from: ReplayState, txns: seq<Txn>, rows: seq<PostingRow>)
    requires rows == RowsOf(txns)
    ensures Underway(from, txns, rows[0..], from, None, 0, 0)
  {
    assert txns[0..] == txns && txns[..0] == [];
  }

  /** A row with another number means the gathered transaction is complete. */
  lemma {:induction false} GroupEnds(from: ReplayState, txns: seq<Txn>, rest: seq<PostingRow>, state: ReplayState,
      current: TxnLegs, k: nat, j: nat)
    requires Separable(txns) && rest != [] && Underway(from, txns, rest, state, Some(current), k, j)
    requires current.seqNo != rest[0].seqNo
    ensures k < |txns| && current == Gathered(txns[k].seqNo, txns[k].legs)
    ensures Underway(from, txns, rest, ApplyTxn(state, txns[k]), None, k + 1, 0)
  {
    hide ApplyTxn, Fold, RowsOf;
    NextRow(txns, k, j);
    FoldOne(from, txns, k);
    assert txns[k].legs[..j] == txns[k].legs;
    assert RowsOfTxn(txns[k])[j..] == [];
  }

  lemma {:induction false} GroupStarts(from: ReplayState, txns: seq<Txn>, rest: seq<PostingRow>, state: ReplayState,
      k: nat, j: nat, empty: TxnLegs)
    requires Separable(txns) && rest != [] && Underway(from, txns, rest, state, None, k, j)
    requires empty == TxnLegs(rest[0].seqNo, 0, 0, 0, map[])
    ensures j == 0 && Gathering(from, txns, rest, state, empty, k, 0)
  {
    hide RowsOf, Fold;
    RowsFrom(txns, k);
    assert txns[k].legs[..0] == [];
  }

  lemma {:induction false} GroupGoesOn(from: ReplayState, txns: seq<Txn>, rest: seq<PostingRow>, state: ReplayState,
      current: TxnLegs, k: nat, j: nat)
    requires Separable(txns) && rest != [] && Underway(from, txns, rest, state, Some(current), k, j)
    requires current.seqNo == rest[0].seqNo
    ensures Gathering(from, txns, rest, state, current, k, j)
  {
    hide RowsOf, Fold, Moved, LegTotal, Deltas;
    NextRow(txns, k, j);
    assert RowsOfTxn(txns[k])[j..][1..] == RowsOfTxn(txns[k])[j + 1..];
  }

  lemma {:induction false} GatheringAt(from: ReplayState, txns: seq<Txn>, rest: seq<PostingRow>, state: ReplayState,
      current: TxnLegs, k: nat, j: nat)
    requires Gathering(from, txns, rest, state, current, k, j)
    ensures k < |txns| && j < |txns[k].legs| && current == Gathered(rest[0].seqNo, txns[k].legs[..j])
  {
    hide RowsOf, Fold, Gathered;
  }

  lemma {:induction false} RowGathered(from: ReplayState, txns: seq<Txn>, rest: seq<PostingRow>, state: ReplayState,
      current: TxnLegs, k: nat, j: nat, more: TxnLegs)
    requires Gathering(from, txns, rest, state, current, k, j)
    requires more == Gathered(rest[0].seqNo, txns[k].legs[..j] + [Leg(rest[0].kind, rest[0].symbol, rest[0].amount)])
    ensures Underway(from, txns, rest[1..], state, Some(more), k, j + 1)
  {
    hide RowsOf, Fold, Gathered;
    assert txns[k].legs[..j + 1] == txns[k].legs[..j] + [txns[k].legs[j]];
  }

  lemma {:induction false} LastGroup(from: ReplayState, txns: seq<Txn>, rest: seq<PostingRow>, state: ReplayState,
      current: TxnLegs, k: nat, j: nat)
    requires Separable(txns) && rest == [] && Underway(from, txns, rest, state, Some(current), k, j)
    ensures k < |txns| && current == Gathered(txns[k].seqNo, txns[k].legs)
    ensures ApplyTxn(state, txns[k]) == Fold(from, txns)
  {
    hide RowsOf, Fold, ApplyTxn, Gathered;
    RowsFrom(txns, k + 1);
    FoldOne(from, txns, k);
    assert txns[..k + 1] == txns;
    assert txns[k].legs[..j] == txns[k].legs;
  }

  lemma {:induction false} Finished(from: ReplayState, txns: seq<Txn>, rest: seq<PostingRow>, state: ReplayState,
      k: nat, j: nat)
    requires Separable(txns) && rest == [] && Underway(from, txns, rest, state, None, k, j)
    ensures state == Fold(from, txns)
  {
    hide RowsOf, Fold;
    RowsFrom(txns, k);
    assert txns[..k] == txns;
  }
}
