/** What a BUY may cost: sizing at accept (internal/engine/submit.go), charging and releasing at each fill
    (internal/engine/outcomes.go). */
module Costing {
  import opened Types
  import opened Money

  datatype Terms = Terms(collarBps: int, takerBps: int, makerBps: int)

  datatype ResKind = Cash | Shares
  datatype Sizing = Sizing(kind: ResKind, amount: int, unitPrice: int, feeBps: int) | Overflow

  /** `sizeReservation`: shares for a SELL; for a BUY the bound price's ceiling notional plus the taker fee on it. */
  function SizeReservation(side: Side, typ: OrderType, qty: int, limitPrice: int, ref: int, terms: Terms): Sizing
  {
    if side == Sell then Sizing(Shares, qty, 0, 0) else
    match (if typ == Market then ApplyBps(ref, terms.collarBps) else Some(limitPrice))
    case None => Overflow
    case Some(bound) =>
      match NotionalCeil(qty, bound)
      case None => Overflow
      case Some(notional) =>
        match FeeBps(notional, terms.takerBps)
        case None => Overflow
        case Some(fee) =>
          match Add(notional, fee)
          case None => Overflow
          case Some(total) => Sizing(Cash, total, bound, terms.takerBps)
  }

  /** What one fill half costs before any side is taken: its notional and the fee increment it is billed. */
  datatype Charge = Charge(notional: int, fee: int) | ChargeOverflow

  function ChargeFor(qty: int, price: int, priorNotional: int, bps: int): Charge
  {
    match Notional(qty, price)
    case None => ChargeOverflow
    case Some(n) =>
      var before := FeeBps(priorNotional, bps);
      var after := FeeBps(Wrap64(priorNotional + n), bps);
      if before.None? || after.None? then ChargeOverflow else Charge(n, Wrap64(after.value - before.value))
  }

  /** A reservation row; CHECK constraints of migrations/0001_init.sql:155-156 decide which rows may exist. */
  datatype Row = Row(kind: ResKind, reserved: int, consumed: int, released: int, unitPrice: Option<int>, feeBps: int)
  {
    predicate Legal() { consumed + released <= reserved && consumed >= 0 && released >= 0 && reserved >= 0 }
    function Open(): int { reserved - consumed - released }
    function Spent(): int { consumed + released }
  }

  /** The `owed` closure: what the reservation's terms ask for a cumulative fill of q, with its overflow fallbacks. */
  function Owed(q: int, unitPrice: int, feeBps: int): int
  {
    match NotionalCeil(q, unitPrice)
    case None => 0
    case Some(n) => match FeeBps(n, feeBps) case None => n case Some(f) => n + f
  }

  /** `settleReservation` before the row's CHECK is evaluated. */
  function SettleRow(row: Row, priorQty: int, fillQty: int, notional: int, fee: int, buying: bool): Row
  {
    var cost := if buying then notional + fee else fillQty;
    var want :=
      if buying && row.unitPrice.Some? then
        Owed(priorQty + fillQty, row.unitPrice.value, row.feeBps) - Owed(priorQty, row.unitPrice.value, row.feeBps) -
          cost
      else 0;
    var release := Max(0, Min(want, row.reserved - row.consumed - row.released - cost));
    row.(consumed := row.consumed + cost, released := row.released + release)
  }

  /** The UPDATE is refused exactly when the row's CHECK would be violated: the cost exceeds what is still open. */
  lemma {:induction false} SettleCommitsIff(row: Row, priorQty: int, fillQty: int, notional: int, fee: int,
      buying: bool)
    requires row.Legal()
    requires notional >= 0 && fee >= 0 && fillQty >= 0
    ensures SettleRow(row, priorQty, fillQty, notional, fee, buying).Legal()
      <==> (if buying then notional + fee else fillQty) <= row.Open()
  {}

  // ---- nonnegative reference arithmetic -------------------------------------------------------

  function FloorNotional(q: nat, p: nat): nat { q * p / QTY_SCALE }
  function CeilNotional(q: nat, p: nat): nat { CeilDiv(q * p, QTY_SCALE) }
  function Fee(n: nat, bps: nat): nat { CeilDiv(n * bps, BPS) }

  lemma {:induction false} FloorMono(x: nat, y: nat, d: nat)
    requires Divisor(d) && x <= y
    ensures x / d <= y / d && CeilDiv(x, d) <= CeilDiv(y, d) && x / d <= CeilDiv(x, d)
  {
    if d == BPS {
    } else {
    }
  }

  /** Rounding up a sum: a floored part fits beside a ceiling, and a ceiling is at most one above a floor. */
  lemma {:induction false} CeilOfSum(x: nat, y: nat, d: nat)
    requires Divisor(d)
    ensures x / d + CeilDiv(y, d) <= CeilDiv(x + y, d) <= CeilDiv(x, d) + CeilDiv(y, d)
    ensures CeilDiv(x, d) <= x / d + 1
  {
    if d == BPS {
    } else {
    }
  }

  /** In range, the package's functions are the reference ones; being in range is inherited by smaller amounts. */
  lemma {:induction false} ChargeInRange(qty: nat, price: nat, prior: nat, bps: int, cap: nat)
    requires prior + FloorNotional(qty, price) <= cap <= MAX64
    requires bps == 0 || (bps > 0 && Fee(cap, bps) <= MAX64)
    ensures bps == 0 ==> ChargeFor(qty, price, prior, bps) == Charge(FloorNotional(qty, price), 0)
    ensures bps > 0 ==>
      ChargeFor(qty, price, prior, bps) ==
        Charge(FloorNotional(qty, price), Fee(prior + FloorNotional(qty, price), bps) - Fee(prior, bps))
    ensures bps > 0 ==> 0 <= Fee(prior, bps) <= Fee(prior + FloorNotional(qty, price), bps) <= Fee(cap, bps)
  {
    var n := FloorNotional(qty, price);
    NotionalNonneg(qty, price);
    if bps > 0 {
      FeeInRange(prior, bps, cap);
      FeeInRange(prior + n, bps, cap);
      FeeMono(prior, prior + n, bps);
    }
  }

  lemma {:induction false} NotionalNonneg(qty: nat, price: nat)
    ensures Notional(qty, price) == if FloorNotional(qty, price) <= MAX64 then Some(FloorNotional(qty, price)) else None
    ensures NotionalCeil(qty, price) ==
      if CeilNotional(qty, price) <= MAX64 then Some(CeilNotional(qty, price)) else None
  {
    var x := qty * price;
    var (hi, lo) := Mul64(qty, price);
    CeilDivIs(x, QTY_SCALE);
    if hi >= QTY_SCALE {
      MulMono(QTY_SCALE, hi, TWO64);
    } else {
      var (quo, rem) := Div64(hi, lo, QTY_SCALE);
      DivUnique(x, QTY_SCALE, quo, rem);
    }
  }

  lemma {:induction false} FeeMono(a: nat, b: nat, bps: nat)
    requires a <= b
    ensures Fee(a, bps) <= Fee(b, bps)
  {
    MulMono(a, b, bps);
    FloorMono(a * bps, b * bps, BPS);
  }

  lemma {:induction false} FeeInRange(n: nat, bps: nat, cap: nat)
    requires n <= cap && bps > 0 && Fee(cap, bps) <= MAX64
    ensures FeeBps(n, bps) == Some(Fee(n, bps)) && Fee(n, bps) <= Fee(cap, bps)
  {
    FeeMono(n, cap, bps);
    FeeMagnitude(n, bps);
  }

  // ---- realized cost never exceeds the reservation --------------------------------------------

  /** One settled execution of an order, on either role. */
  datatype Execution = Execution(qty: nat, price: nat, role: Role)

  function TotalQty(fills: seq<Execution>): nat
  {
    if fills == [] then 0 else fills[0].qty + TotalQty(fills[1..])
  }

  function RateFor(role: Role, terms: Terms): int { if role == Taker then terms.takerBps else terms.makerBps }

  /** Cash paid by a BUY for a list of fills settled in order, from a prior cumulative notional. */
  function RunCost(prior: int, fills: seq<Execution>, terms: Terms): Option<int>
    decreases |fills|
  {
    if fills == [] then Some(0) else
    match ChargeFor(fills[0].qty, fills[0].price, prior, RateFor(fills[0].role, terms))
    case ChargeOverflow => None
    case Charge(n, fee) =>
      match RunCost(prior + n, fills[1..], terms)
      case None => None
      case Some(rest) => Some(n + fee + rest)
  }

  function RunNotional(fills: seq<Execution>): nat
  {
    if fills == [] then 0 else FloorNotional(fills[0].qty, fills[0].price) + RunNotional(fills[1..])
  }

  predicate WithinBound(fills: seq<Execution>, bound: nat)
  {
    forall i :: 0 <= i < |fills| ==> fills[i].price <= bound
  }

  /** Flooring each fill never adds up to more than the whole quantity at the bound price. */
  lemma {:induction false} RunNotionalBounded(fills: seq<Execution>, bound: nat)
    requires WithinBound(fills, bound)
    ensures RunNotional(fills) * QTY_SCALE <= TotalQty(fills) * bound
  {
    if fills != [] {
      var f := fills[0];
      RunNotionalBounded(fills[1..], bound);
      MulMono(f.price, bound, f.qty);
      assert TotalQty(fills) * bound == f.qty * bound + TotalQty(fills[1..]) * bound;
    }
  }

  /** Over every increment of the notional the maker fee grows by no more than the taker fee. */
  ghost predicate FeesOrdered(maker: nat, taker: nat)
  {
    forall n: nat, n': nat :: n <= n' ==> Steps(n, n', maker) <= Steps(n, n', taker)
  }

  function Steps(n: nat, n': nat, bps: nat): int { Fee(n', bps) - Fee(n, bps) }

  lemma {:induction false} NoFeeOnNothing(bps: nat)
    ensures Fee(0, bps) == 0
  {
    assert 0 * bps == 0;
  }

  /** The rate a fill is billed at stays in range and costs at most the taker's. */
  lemma {:induction false} AtMostTaker(prior: nat, n: nat, role: Role, terms: Terms, cap: nat)
    requires terms.makerBps >= 0 && terms.takerBps >= 0 && FeesOrdered(terms.makerBps, terms.takerBps)
    requires prior + n <= cap
    ensures var bps := RateFor(role, terms);
      && Fee(cap, bps) <= Fee(cap, terms.takerBps)
      && Fee(prior + n, bps) - Fee(prior, bps) <= Fee(prior + n, terms.takerBps) - Fee(prior, terms.takerBps)
      && (bps == 0 ==> Fee(prior + n, bps) == Fee(prior, bps) == 0)
  {
    NoFeeOnNothing(terms.makerBps);
    NoFeeOnNothing(terms.takerBps);
    assert Steps(0, cap, terms.makerBps) <= Steps(0, cap, terms.takerBps);
    assert Steps(prior, prior + n, terms.makerBps) <= Steps(prior, prior + n, terms.takerBps);
    assert (prior + n) * 0 == 0 && prior * 0 == 0;
  }

  /** Fees telescope: from any prior notional the fees add up to at most one taker charge on the increment. */
  lemma {:induction false} RunCostTelescopes(prior: nat, fills: seq<Execution>, terms: Terms, cap: nat)
    requires terms.makerBps >= 0 && terms.takerBps >= 0 && FeesOrdered(terms.makerBps, terms.takerBps)
    requires prior + RunNotional(fills) <= cap <= MAX64
    requires terms.takerBps > 0 ==> Fee(cap, terms.takerBps) <= MAX64
    ensures RunCost(prior, fills, terms).Some?
    ensures RunCost(prior, fills, terms).value <=
      RunNotional(fills) + Fee(prior + RunNotional(fills), terms.takerBps) - Fee(prior, terms.takerBps)
    decreases |fills|
  {
    hide ChargeFor, FloorNotional, Fee, FeesOrdered;
    if fills != [] {
      var f := fills[0];
      var n := FloorNotional(f.qty, f.price);
      if terms.takerBps == 0 { NoFeeAtAll(cap); }
      AtMostTaker(prior, n, f.role, terms, cap);
      ChargeInRange(f.qty, f.price, prior, RateFor(f.role, terms), cap);
      RunCostTelescopes(prior + n, fills[1..], terms, cap);
    }
  }

  lemma {:induction false} NoFeeAtAll(n: nat)
    ensures Fee(n, 0) == 0
  {
    assert n * 0 == 0;
  }

  lemma {:induction false} BelowCeiling(n: nat, x: nat, cap: nat)
    requires n * QTY_SCALE <= x <= cap * QTY_SCALE
    ensures n <= cap
  {}

  /** For every BUY that was accepted and every list of fills inside its quantity and bound price, on any mix of
      roles: settling them all costs at most the reservation, and nothing overflows on the way. */
  lemma {:induction false} RealizedCostBounded(typ: OrderType, qty: nat, limitPrice: int, ref: int, terms: Terms,
      fills: seq<Execution>)
    requires terms.makerBps >= 0 && terms.takerBps >= 0 && FeesOrdered(terms.makerBps, terms.takerBps)
    requires var s := SizeReservation(Buy, typ, qty, limitPrice, ref, terms);
      s.Sizing? && s.unitPrice >= 0 && TotalQty(fills) <= qty && WithinBound(fills, s.unitPrice)
      && !FeeWraps(CeilNotional(qty, s.unitPrice), terms.takerBps)
    ensures RunCost(0, fills, terms).Some?
    ensures RunCost(0, fills, terms).value <= SizeReservation(Buy, typ, qty, limitPrice, ref, terms).amount
  {
    hide SizeReservation, Owed, FeeWraps, Fee, CeilNotional, FeesOrdered;
    var s := SizeReservation(Buy, typ, qty, limitPrice, ref, terms);
    SizedAmount(typ, qty, limitPrice, ref, terms);
    RunNotionalUnderCeiling(fills, qty, s.unitPrice);
    var cap := CeilNotional(qty, s.unitPrice);
    RunCostTelescopes(0, fills, terms, cap);
    FeeMono(RunNotional(fills), cap, terms.takerBps);
  }

  lemma {:induction false} RunNotionalUnderCeiling(fills: seq<Execution>, qty: nat, bound: nat)
    requires WithinBound(fills, bound) && TotalQty(fills) <= qty
    ensures RunNotional(fills) <= CeilNotional(qty, bound)
  {
    RunNotionalBounded(fills, bound);
    MulMono(TotalQty(fills), qty, bound);
    CeilDivIs(qty * bound, QTY_SCALE);
    BelowCeiling(RunNotional(fills), qty * bound, CeilNotional(qty, bound));
  }

  /** The amount reserved is what the reservation's own terms say is owed for the whole quantity. */
  lemma {:induction false} SizedAmount(typ: OrderType, qty: nat, limitPrice: int, ref: int, terms: Terms)
    requires var s := SizeReservation(Buy, typ, qty, limitPrice, ref, terms);
      s.Sizing? && s.unitPrice >= 0 && !FeeWraps(CeilNotional(qty, s.unitPrice), terms.takerBps)
    ensures var s := SizeReservation(Buy, typ, qty, limitPrice, ref, terms);
      var cap := CeilNotional(qty, s.unitPrice);
      terms.takerBps >= 0 && cap <= MAX64 && Fee(cap, terms.takerBps) <= MAX64 && s.kind == Cash
      && s.amount == cap + Fee(cap, terms.takerBps) == Owed(qty, s.unitPrice, s.feeBps) && s.feeBps == terms.takerBps
  {
    var s := SizeReservation(Buy, typ, qty, limitPrice, ref, terms);
    NotionalNonneg(qty, s.unitPrice);
    var cap := CeilNotional(qty, s.unitPrice);
    if terms.takerBps > 0 { FeeMagnitude(cap, terms.takerBps); }
    AddExact(cap, Fee(cap, terms.takerBps));
    WrapSum(cap, Fee(cap, terms.takerBps));
  }

  // ---- exactly when the bound holds ----------------------------------------------------------------

  /** A BUY accepted for a quantity, and fills inside it and its bound price. */
  ghost predicate Inside(typ: OrderType, qty: nat, limitPrice: int, ref: int, terms: Terms, fills: seq<Execution>)
  {
    var s := SizeReservation(Buy, typ, qty, limitPrice, ref, terms);
    s.Sizing? && s.unitPrice >= 0 && TotalQty(fills) <= qty && WithinBound(fills, s.unitPrice)
  }

  /** The fills can all be charged, and cost at most what was reserved. */
  ghost predicate Covered(typ: OrderType, qty: nat, limitPrice: int, ref: int, terms: Terms, fills: seq<Execution>)
  {
    var s, cost := SizeReservation(Buy, typ, qty, limitPrice, ref, terms), RunCost(0, fills, terms);
    s.Sizing? && cost.Some? && cost.value <= s.amount
  }

  ghost predicate AlwaysCovered(terms: Terms)
  {
    forall typ, qty: nat, limitPrice, ref, fills ::
      Inside(typ, qty, limitPrice, ref, terms, fills) ==> Covered(typ, qty, limitPrice, ref, terms, fills)
  }

  /** At rates up to 100%: every accepted BUY is covered, whatever it trades at inside its bound and on whatever mix of
      roles, exactly when the maker fee never grows faster than the taker fee. */
  lemma {:induction false} CoveredIff(terms: Terms)
    requires 0 <= terms.makerBps <= BPS && 0 <= terms.takerBps <= BPS
    ensures AlwaysCovered(terms) <==> FeesOrdered(terms.makerBps, terms.takerBps)
  {
    hide Inside, Covered, FeesOrdered;
    if FeesOrdered(terms.makerBps, terms.takerBps) {
      forall typ, qty: nat, limitPrice, ref, fills | Inside(typ, qty, limitPrice, ref, terms, fills)
        ensures Covered(typ, qty, limitPrice, ref, terms, fills)
      {
        InsideIsCovered(typ, qty, limitPrice, ref, terms, fills);
      }
    } else {
      var n, n' := SmallDisorder(terms.makerBps, terms.takerBps);
      DisorderExceeds(terms, n, n');
    }
  }

  lemma {:induction false} InsideIsCovered(typ: OrderType, qty: nat, limitPrice: int, ref: int, terms: Terms,
      fills: seq<Execution>)
    requires 0 <= terms.makerBps <= BPS && 0 <= terms.takerBps <= BPS && FeesOrdered(terms.makerBps, terms.takerBps)
    requires Inside(typ, qty, limitPrice, ref, terms, fills)
    ensures Covered(typ, qty, limitPrice, ref, terms, fills)
  {
    hide SizeReservation, FeesOrdered, RunCost, WithinBound;
    var s := SizeReservation(Buy, typ, qty, limitPrice, ref, terms);
    SizedCap(typ, qty, limitPrice, ref, terms);
    NoWrap(CeilNotional(qty, s.unitPrice), terms.takerBps);
    RealizedCostBounded(typ, qty, limitPrice, ref, terms, fills);
  }

  lemma {:induction false} SizedCap(typ: OrderType, qty: nat, limitPrice: int, ref: int, terms: Terms)
    requires var s := SizeReservation(Buy, typ, qty, limitPrice, ref, terms); s.Sizing? && s.unitPrice >= 0
    ensures CeilNotional(qty, SizeReservation(Buy, typ, qty, limitPrice, ref, terms).unitPrice) <= MAX64
  {
    hide NotionalCeil, FeeBps, Add, ApplyBps;
    NotionalNonneg(qty, SizeReservation(Buy, typ, qty, limitPrice, ref, terms).unitPrice);
  }

  lemma {:induction false} NoWrap(n: nat, bps: nat)
    requires n <= MAX64 && bps <= BPS
    ensures !FeeWraps(n, bps)
  {
    MulMono(bps, BPS, n);
  }

  /** Fees repeat with every ten thousand of notional. */
  lemma {:induction false} FeePeriod(n: nat, k: nat, bps: nat)
    ensures Fee(n + k * BPS, bps) == Fee(n, bps) + k * bps
  {
    assert (n + k * BPS) * bps == n * bps + BPS * (k * bps) by { assert k * BPS * bps == BPS * (k * bps); }
    CeilOfMultiple(n * bps, k * bps);
  }

  lemma {:induction false} CeilOfMultiple(x: nat, k: nat)
    ensures CeilDiv(x + BPS * k, BPS) == CeilDiv(x, BPS) + k
  {}

  /** If the fees are out of order anywhere they are out of order early: checking below 20000 is enough. */
  lemma {:induction false} SmallDisorder(maker: nat, taker: nat) returns (n: nat, n': nat)
    requires !FeesOrdered(maker, taker)
    ensures n <= n' < 2 * BPS && Steps(n, n', maker) > Steps(n, n', taker)
  {
    hide Fee;
    if maker > taker {
      n, n' := 0, BPS;
      FeePeriod(0, 1, maker);
      FeePeriod(0, 1, taker);
    } else {
      var a: nat, b: nat :| a <= b && Steps(a, b, maker) > Steps(a, b, taker);
      n := a % BPS;
      var k, r := (b - a) / BPS, (b - a) % BPS;
      n' := n + r;
      assert a == n + a / BPS * BPS && b == n' + (a / BPS + k) * BPS;
      Shifted(n, n', a / BPS, k, maker);
      Shifted(n, n', a / BPS, k, taker);
      MulMono(maker, taker, k);
    }
  }

  lemma {:induction false} Shifted(n: nat, n': nat, j: nat, k: nat, bps: nat)
    requires n <= n'
    ensures Steps(n + j * BPS, n' + (j + k) * BPS, bps) == Steps(n, n', bps) + k * bps
  {
    hide Fee;
    FeePeriod(n, j, bps);
    FeePeriod(n', j + k, bps);
    assert (j + k) * bps == j * bps + k * bps;
  }

  /** Out of order between n and n': an order for n' at 10,000.00, n filled as taker and the rest as maker, costs more
      than it reserved. */
  lemma {:induction false} DisorderExceeds(terms: Terms, n: nat, n': nat)
    requires 0 <= terms.makerBps <= BPS && 0 <= terms.takerBps <= BPS
    requires n <= n' < 2 * BPS && Steps(n, n', terms.makerBps) > Steps(n, n', terms.takerBps)
    ensures !AlwaysCovered(terms)
  {
    hide Inside, Covered, Steps;
    CostsMore(terms, n, n');
  }

  function TakenThenMade(n: nat, n': nat): seq<Execution>
    requires n <= n'
  {
    [Execution(n, 1_000_000, Taker), Execution(n' - n, 1_000_000, Maker)]
  }

  lemma {:induction false} CostsMore(terms: Terms, n: nat, n': nat)
    requires 0 <= terms.makerBps <= BPS && 0 <= terms.takerBps <= BPS
    requires n <= n' < 2 * BPS && Steps(n, n', terms.makerBps) > Steps(n, n', terms.takerBps)
    ensures Inside(Limit, n', 1_000_000, 0, terms, TakenThenMade(n, n'))
    ensures !Covered(Limit, n', 1_000_000, 0, terms, TakenThenMade(n, n'))
  {
    hide SizeReservation, RunCost, Fee;
    UnitSizing(n', terms);
    TwoCharges(terms, n, n');
    NoFeeOnNothing(terms.takerBps);
    TwoInside(n, n');
    hide TakenThenMade, TotalQty, WithinBound;
    assert RunCost(0, TakenThenMade(n, n'), terms).value > n' + Fee(n', terms.takerBps);
  }

  lemma {:induction false} TwoInside(n: nat, n': nat)
    requires n <= n'
    ensures TotalQty(TakenThenMade(n, n')) == n' && WithinBound(TakenThenMade(n, n'), 1_000_000)
  {
    var fills := TakenThenMade(n, n');
    assert fills[1..] == [fills[1]] && fills[1..][1..] == [];
    assert TotalQty(fills[1..]) == n' - n;
  }

  lemma {:induction false} TwoCharges(terms: Terms, n: nat, n': nat)
    requires 0 <= terms.makerBps <= BPS && 0 <= terms.takerBps <= BPS && n <= n' < 2 * BPS
    ensures RunCost(0, TakenThenMade(n, n'), terms)
      == Some(n' + Steps(0, n, terms.takerBps) + Steps(n, n', terms.makerBps))
  {
    var fills := TakenThenMade(n, n');
    hide ChargeFor, Steps;
    UnitCharge(n, 0, terms.takerBps);
    UnitCharge(n' - n, n, terms.makerBps);
    assert fills[1..] == [fills[1]] && fills[1..][1..] == [];
    assert RunCost(n, fills[1..], terms) == Some(n' - n + Steps(n, n', terms.makerBps));
  }

  lemma {:induction false} SmallFee(n: nat, bps: nat)
    requires n <= 2 * BPS && bps <= BPS
    ensures Fee(n, bps) <= 2 * BPS && FeeBps(n, bps) == Some(Fee(n, bps))
  {
    MulMono(bps, BPS, n);
    assert Fee(n, bps) <= n by { FloorMono(n * bps, n * BPS, BPS); }
    if bps > 0 { FeeInRange(n, bps, n); } else { assert n * 0 == 0; }
  }

  /** At a price of 10,000.00 a quantity's notional is the quantity. */
  lemma {:induction false} UnitSizing(q: nat, terms: Terms)
    requires q < 2 * BPS && 0 <= terms.takerBps <= BPS
    ensures SizeReservation(Buy, Limit, q, 1_000_000, 0, terms) ==
      Sizing(Cash, q + Fee(q, terms.takerBps), 1_000_000, terms.takerBps)
  {
    hide NotionalCeil, FeeBps, Add, Fee;
    NotionalNonneg(q, 1_000_000);
    SmallFee(q, terms.takerBps);
    AddExact(q, Fee(q, terms.takerBps));
    WrapSum(q, Fee(q, terms.takerBps));
  }

  lemma {:induction false} UnitCharge(q: nat, prior: nat, bps: nat)
    requires prior + q < 2 * BPS && bps <= BPS
    ensures ChargeFor(q, 1_000_000, prior, bps) == Charge(q, Steps(prior, prior + q, bps))
  {
    hide Fee, ChargeFor;
    SmallFee(prior + q, bps);
    assert FloorNotional(q, 1_000_000) == q;
    ChargeInRange(q, 1_000_000, prior, bps, prior + q);
    if bps == 0 { NoFeeAtAll(prior); NoFeeAtAll(prior + q); }
  }

  /** Enough for that: no maker fee, or a taker rate that is a whole multiple of the maker rate. */
  lemma {:induction false} OrderedWhenMultiple(maker: nat, taker: nat)
    requires maker == 0 || (taker > 0 && taker % maker == 0)
    ensures FeesOrdered(maker, taker)
  {
    if maker == 0 {
      forall n: nat, n': nat | n <= n' ensures Steps(n, n', maker) <= Steps(n, n', taker) {
        NoFeeAtAll(n);
        NoFeeAtAll(n');
        FeeMono(n, n', taker);
      }
    } else {
      var k := taker / maker;
      assert taker == k * maker && k >= 1;
      forall n: nat, n': nat | n <= n' ensures Steps(n, n', maker) <= Steps(n, n', taker) {
        MulMono(n, n', maker);
        assert n * taker == k * (n * maker) && n' * taker == k * (n' * maker);
        CeilOfProduct(n * maker, n' * maker, k);
      }
    }
  }

  lemma {:induction false} CeilBetween(x: nat, m: nat)
    ensures x <= m * BPS ==> CeilDiv(x, BPS) <= m
    ensures x > m * BPS ==> CeilDiv(x, BPS) > m
    ensures CeilDiv(x, BPS) * BPS >= x && (x > 0 ==> (CeilDiv(x, BPS) - 1) * BPS < x)
  {}

  lemma {:induction false} CeilMono(u: nat, v: nat)
    requires u <= v
    ensures CeilDiv(u, BPS) <= CeilDiv(v, BPS)
  {
    FloorMono(u, v, BPS);
  }

  lemma {:induction false} CeilOfProduct(u: nat, v: nat, k: nat)
    requires u <= v && k >= 1
    ensures CeilDiv(v, BPS) - CeilDiv(u, BPS) <= CeilDiv(k * v, BPS) - CeilDiv(k * u, BPS)
  {
    hide CeilDiv;
    var a, c := CeilDiv(u, BPS), CeilDiv(v, BPS);
    CeilMono(u, v);
    assert k * u <= k * v by { MulMono(u, v, k); }
    CeilMono(k * u, k * v);
    if a < c {
      CeilBetween(u, 0);
      CeilBetween(v, 0);
      ScaledUp(u, a, k);
      ScaledOver(v, c - 1, k);
      CeilBetween(k * u, k * a);
      CeilBetween(k * v, k * (c - 1));
      assert k * (c - 1) - k * a >= c - 1 - a by { TimesAtLeast(a, c - 1, k); }
    }
  }

  lemma {:induction false} TimesAtLeast(a: nat, d: nat, k: nat)
    requires a <= d && k >= 1
    ensures k * d - k * a >= d - a
  {
    MulMono(1, k, d - a);
    assert k * d - k * a == k * (d - a);
  }

  lemma {:induction false} ScaledUp(u: nat, a: nat, k: nat)
    requires u <= a * BPS
    ensures k * u <= (k * a) * BPS
  {
    MulMono(u, a * BPS, k);
    assert k * (a * BPS) == (k * a) * BPS;
  }

  lemma {:induction false} ScaledOver(v: nat, d: nat, k: nat)
    requires v > d * BPS && k >= 1
    ensures k * v > (k * d) * BPS
  {
    MulMono(d * BPS + 1, v, k);
    assert k * (d * BPS + 1) == (k * d) * BPS + k;
  }

  /** A disorder at common rates, 5 bps taker and 4 maker: 1 unit over, at the limit price. */
  lemma {:induction false} MixedRatesExceed()
    ensures var terms := Terms(500, 5, 4);
      var fills := [Execution(2001, 1_000_000, Taker), Execution(500, 1_000_000, Maker)];
      SizeReservation(Buy, Limit, 2501, 1_000_000, 0, terms) == Sizing(Cash, 2503, 1_000_000, 5)
      && TotalQty(fills) == 2501
      && RunCost(0, fills, terms) == Some(2504)
      && !FeesOrdered(4, 5)
  {
    hide SizeReservation, ChargeFor;
    var terms := Terms(500, 5, 4);
    var fills := [Execution(2001, 1_000_000, Taker), Execution(500, 1_000_000, Maker)];
    MixedRatesSizing();
    MixedRatesCharges();
    assert fills[1..] == [Execution(500, 1_000_000, Maker)] && fills[1..][1..] == [];
    assert RunCost(2001, fills[1..], terms) == Some(501);
    assert Steps(2001, 2501, 4) == 1 && Steps(2001, 2501, 5) == 0;
  }

  lemma {:induction false} MixedRatesSizing()
    ensures SizeReservation(Buy, Limit, 2501, 1_000_000, 0, Terms(500, 5, 4)) == Sizing(Cash, 2503, 1_000_000, 5)
  {
    hide NotionalCeil, FeeBps, Add;
    NotionalNonneg(2501, 1_000_000);
    MixedRatesFees();
    AddExact(2501, 2);
  }

  lemma {:induction false} MixedRatesFees()
    ensures FeeBps(0, 5) == Some(0) && FeeBps(2001, 5) == Some(2) && FeeBps(2501, 5) == Some(2)
    ensures FeeBps(2001, 4) == Some(1) && FeeBps(2501, 4) == Some(2)
  {
    hide FeeBps;
    FeeInRange(0, 5, 2501);
    FeeInRange(2001, 5, 2501);
    FeeInRange(2501, 5, 2501);
    FeeInRange(2001, 4, 2501);
    FeeInRange(2501, 4, 2501);
  }

  lemma {:induction false} MixedRatesCharges()
    ensures ChargeFor(2001, 1_000_000, 0, 5) == Charge(2001, 2)
    ensures ChargeFor(500, 1_000_000, 2001, 4) == Charge(500, 1)
  {
    hide Notional, FeeBps;
    NotionalNonneg(2001, 1_000_000);
    NotionalNonneg(500, 1_000_000);
    MixedRatesFees();
  }

  // ---- the release schedule --------------------------------------------------------------------

  /** In range, `owed` is the ceiling notional plus its fee. */
  lemma {:induction false} OwedInRange(q: nat, whole: nat, unitPrice: nat, bps: nat)
    requires q <= whole
    requires CeilNotional(whole, unitPrice) <= MAX64 && Fee(CeilNotional(whole, unitPrice), bps) <= MAX64
    ensures CeilNotional(q, unitPrice) <= CeilNotional(whole, unitPrice)
    ensures Owed(q, unitPrice, bps) == CeilNotional(q, unitPrice) + Fee(CeilNotional(q, unitPrice), bps)
    ensures Owed(q, unitPrice, bps) <= Owed(whole, unitPrice, bps)
  {
    MulMono(q, whole, unitPrice);
    FloorMono(q * unitPrice, whole * unitPrice, QTY_SCALE);
    NotionalNonneg(q, unitPrice);
    NotionalNonneg(whole, unitPrice);
    var c, w := CeilNotional(q, unitPrice), CeilNotional(whole, unitPrice);
    FeeMono(c, w, bps);
    if bps > 0 { FeeInRange(c, bps, w); FeeInRange(w, bps, w); }
  }

  /** One fill's cost against the schedule: a maker fill never outruns it, a taker fill by at most one unit. */
  lemma {:induction false} CostAgainstSchedule(f: nat, q: nat, price: nat, unitPrice: nat, prior: nat, bps: nat)
    requires price <= unitPrice
    ensures var n, c0, c1 := FloorNotional(q, price), CeilNotional(f, unitPrice), CeilNotional(f + q, unitPrice);
      n <= c1 - c0
      && Fee(c0, bps) <= Fee(c1, bps)
      && Fee(prior + n, bps) - Fee(prior, bps) <= Fee(c1, bps) - Fee(c0, bps) + 1
  {
    var n, c0, c1 := FloorNotional(q, price), CeilNotional(f, unitPrice), CeilNotional(f + q, unitPrice);
    NotionalStep(f, q, price, unitPrice);
    hide FloorNotional, CeilNotional;
    FeeMono(c0, c1, bps);
    FeeStep(prior, n, c0, c1, bps);
  }

  lemma {:induction false} NotionalStep(f: nat, q: nat, price: nat, unitPrice: nat)
    requires price <= unitPrice
    ensures FloorNotional(q, price) + CeilNotional(f, unitPrice) <= CeilNotional(f + q, unitPrice)
  {
    assert (f + q) * unitPrice == f * unitPrice + q * unitPrice;
    MulMono(price, unitPrice, q);
    FloorMono(q * price, q * unitPrice, QTY_SCALE);
    CeilOfSum(q * unitPrice, f * unitPrice, QTY_SCALE);
  }

  lemma {:induction false} FeeStep(prior: nat, n: nat, c0: nat, c1: nat, bps: nat)
    requires c0 + n <= c1
    ensures Fee(prior + n, bps) - Fee(prior, bps) <= Fee(c1, bps) - Fee(c0, bps) + 1
  {
    FeeMono(c0 + n, c1, bps);
    assert (c0 + n) * bps == n * bps + c0 * bps;
    assert (prior + n) * bps == n * bps + prior * bps;
    CeilOfSum(n * bps, c0 * bps, BPS);
    CeilOfSum(n * bps, prior * bps, BPS);
  }

  /** An order's working state as its fills settle. */
  datatype Working = Working(filled: nat, notional: nat, row: Row)

  /** Settling fills one after the other; None when a charge overflows or the row's CHECK refuses one. */
  function SettleAll(w: Working, fills: seq<Execution>, terms: Terms): Option<Working>
    decreases |fills|
  {
    if fills == [] then Some(w) else
    match ChargeFor(fills[0].qty, fills[0].price, w.notional, RateFor(fills[0].role, terms))
    case ChargeOverflow => None
    case Charge(n, fee) =>
      var row := SettleRow(w.row, w.filled, fills[0].qty, n, fee, true);
      if n < 0 || !row.Legal() then None
      else SettleAll(Working(w.filled + fills[0].qty, w.notional + n, row), fills[1..], terms)
  }

  /** How many of the fills are billed a fee. */
  function Billed(fills: seq<Execution>, terms: Terms): nat
  {
    if fills == [] then 0 else (if RateFor(fills[0].role, terms) > 0 then 1 else 0) + Billed(fills[1..], terms)
  }

  /** The row reserves what its terms owe for `whole`, at a price and rate where nothing overflows. */
  predicate OnTerms(row: Row, whole: nat, bps: nat)
  {
    row.kind == Cash && row.feeBps == bps && row.unitPrice.Some? && row.unitPrice.value >= 0
    && CeilNotional(whole, row.unitPrice.value) <= MAX64
    && Fee(CeilNotional(whole, row.unitPrice.value), bps) <= MAX64
    && row.reserved == Owed(whole, row.unitPrice.value, bps)
  }

  predicate OnSchedule(w: Working, slack: nat)
  {
    w.row.unitPrice.Some? &&
    var owed := Owed(w.filled, w.row.unitPrice.value, w.row.feeBps);
    owed <= w.row.Spent() <= owed + slack
  }

  /** After any committed fills inside quantity and bound, k of them billed a fee, what the order has consumed and
      given back is at least what its terms owe for what filled, and at most k units more. */
  lemma {:induction false} ReleaseStaysOnSchedule(w: Working, fills: seq<Execution>, terms: Terms, whole: nat,
      slack: nat)
    requires terms.makerBps >= 0 && terms.takerBps >= 0 && FeesOrdered(terms.makerBps, terms.takerBps)
    requires OnTerms(w.row, whole, terms.takerBps) && w.row.Legal()
    requires w.filled + TotalQty(fills) <= whole
    requires w.notional * QTY_SCALE <= w.filled * w.row.unitPrice.value
    requires WithinBound(fills, w.row.unitPrice.value)
    requires OnSchedule(w, slack)
    requires SettleAll(w, fills, terms).Some?
    ensures var w' := SettleAll(w, fills, terms).value;
      w'.filled == w.filled + TotalQty(fills) && w'.row.unitPrice == w.row.unitPrice && w'.row.feeBps == w.row.feeBps
      && w'.row.reserved == w.row.reserved && OnSchedule(w', slack + Billed(fills, terms))
    decreases |fills|
  {
    hide ChargeFor, SettleRow, Owed, OnTerms, FeesOrdered;
    if fills != [] {
      var e := fills[0];
      var next := ScheduleStep(w, e, terms, whole, slack);
      ReleaseStaysOnSchedule(next, fills[1..], terms, whole, slack + if RateFor(e.role, terms) > 0 then 1 else 0);
    }
  }

  lemma {:induction false} ScheduleStep(w: Working, e: Execution, terms: Terms, whole: nat, slack: nat)
      returns (next: Working)
    requires terms.makerBps >= 0 && terms.takerBps >= 0 && FeesOrdered(terms.makerBps, terms.takerBps)
    requires OnTerms(w.row, whole, terms.takerBps) && w.row.Legal()
    requires w.filled + e.qty <= whole
    requires w.notional * QTY_SCALE <= w.filled * w.row.unitPrice.value
    requires e.price <= w.row.unitPrice.value
    requires OnSchedule(w, slack)
    requires var c := ChargeFor(e.qty, e.price, w.notional, RateFor(e.role, terms));
      c.Charge? && SettleRow(w.row, w.filled, e.qty, c.notional, c.fee, true).Legal()
    ensures var c := ChargeFor(e.qty, e.price, w.notional, RateFor(e.role, terms));
      c.notional >= 0
      && next == Working(w.filled + e.qty, w.notional + c.notional,
           SettleRow(w.row, w.filled, e.qty, c.notional, c.fee, true))
    ensures next.row.unitPrice == w.row.unitPrice && next.row.feeBps == w.row.feeBps
    ensures next.row.reserved == w.row.reserved
    ensures next.notional * QTY_SCALE <= next.filled * w.row.unitPrice.value
    ensures OnTerms(next.row, whole, terms.takerBps)
    ensures OnSchedule(next, slack + if RateFor(e.role, terms) > 0 then 1 else 0)
  {
    hide ChargeFor, Owed, CeilNotional, FloorNotional, Fee, FeesOrdered;
    var bound: nat := w.row.unitPrice.value;
    var n := FloorNotional(e.qty, e.price);
    var cap := CeilNotional(whole, bound);
    NotionalStaysBelow(w.notional, w.filled, e, bound, whole);
    AtMostTaker(w.notional, n, e.role, terms, cap);
    var c := ChargeFor(e.qty, e.price, w.notional, RateFor(e.role, terms));
    ChargeInRange(e.qty, e.price, w.notional, RateFor(e.role, terms), cap);
    next := Working(w.filled + e.qty, w.notional + c.notional,
      SettleRow(w.row, w.filled, e.qty, c.notional, c.fee, true));
    OwedInRange(w.filled, whole, bound, terms.takerBps);
    OwedInRange(w.filled + e.qty, whole, bound, terms.takerBps);
    CostAgainstSchedule(w.filled, e.qty, e.price, bound, w.notional, terms.takerBps);
  }

  /** What one fill costs: no more than the schedule gives for it, one unit more if it is billed a fee. */
  lemma {:induction false} CostOnTerms(w: Working, e: Execution, terms: Terms, whole: nat)
    requires terms.makerBps >= 0 && terms.takerBps >= 0 && FeesOrdered(terms.makerBps, terms.takerBps)
    requires OnTerms(w.row, whole, terms.takerBps) && w.filled + e.qty <= whole
    requires w.notional * QTY_SCALE <= w.filled * w.row.unitPrice.value && e.price <= w.row.unitPrice.value
    ensures var c, owed :=
      ChargeFor(e.qty, e.price, w.notional, RateFor(e.role, terms)),
        Owed(w.filled + e.qty, w.row.unitPrice.value, w.row.feeBps);
      && c.Charge? && c.notional >= 0 && c.fee >= 0
      && c.notional + c.fee <=
           owed - Owed(w.filled, w.row.unitPrice.value, w.row.feeBps) + (if RateFor(e.role, terms) > 0 then 1 else 0)
  {
    hide ChargeFor, Owed, CeilNotional, FloorNotional, Fee, FeesOrdered;
    var bound: nat := w.row.unitPrice.value;
    var n, cap := FloorNotional(e.qty, e.price), CeilNotional(whole, bound);
    NotionalStaysBelow(w.notional, w.filled, e, bound, whole);
    AtMostTaker(w.notional, n, e.role, terms, cap);
    ChargeInRange(e.qty, e.price, w.notional, RateFor(e.role, terms), cap);
    OwedInRange(w.filled, whole, bound, terms.takerBps);
    OwedInRange(w.filled + e.qty, whole, bound, terms.takerBps);
    CostAgainstSchedule(w.filled, e.qty, e.price, bound, w.notional, terms.takerBps);
  }

  /** A whole list of in-bound fills commits when the reservation is that many units above what the terms owe for it as
      the list has billed fills. */
  lemma {:induction false} AllCommit(w: Working, fills: seq<Execution>, terms: Terms, whole: nat, slack: nat)
    requires terms.makerBps >= 0 && terms.takerBps >= 0 && FeesOrdered(terms.makerBps, terms.takerBps)
    requires OnTerms(w.row, whole, terms.takerBps) && w.row.Legal()
    requires w.filled + TotalQty(fills) <= whole
    requires w.notional * QTY_SCALE <= w.filled * w.row.unitPrice.value
    requires WithinBound(fills, w.row.unitPrice.value)
    requires OnSchedule(w, slack)
    requires Owed(w.filled + TotalQty(fills), w.row.unitPrice.value, w.row.feeBps) + slack + Billed(fills, terms) <=
      w.row.reserved
    ensures SettleAll(w, fills, terms).Some?
    decreases |fills|
  {
    hide ChargeFor, SettleRow, Owed, FeesOrdered, CeilNotional, Fee;
    if fills != [] {
      var e := fills[0];
      var c := ChargeFor(e.qty, e.price, w.notional, RateFor(e.role, terms));
      CostOnTerms(w, e, terms, whole);
      OwedGrows(w.filled + e.qty, w.filled + TotalQty(fills), whole, w.row.unitPrice.value, terms.takerBps);
      assert c.notional + c.fee <= w.row.Open();
      SettleCommitsIff(w.row, w.filled, e.qty, c.notional, c.fee, true);
      var next := ScheduleStep(w, e, terms, whole, slack);
      AllCommit(next, fills[1..], terms, whole, slack + if RateFor(e.role, terms) > 0 then 1 else 0);
    }
  }

  lemma {:induction false} OwedGrows(q: nat, r: nat, whole: nat, unitPrice: nat, bps: nat)
    requires q <= r <= whole && CeilNotional(whole, unitPrice) <= MAX64
    requires Fee(CeilNotional(whole, unitPrice), bps) <= MAX64
    ensures Owed(q, unitPrice, bps) <= Owed(r, unitPrice, bps)
  {
    hide Owed, CeilNotional, Fee;
    OwedInRange(r, whole, unitPrice, bps);
    FeeMono(CeilNotional(r, unitPrice), CeilNotional(whole, unitPrice), bps);
    OwedInRange(q, r, unitPrice, bps);
  }

  lemma {:induction false} NotionalStaysBelow(notional: nat, filled: nat, e: Execution, bound: nat, whole: nat)
    requires notional * QTY_SCALE <= filled * bound && e.price <= bound && filled + e.qty <= whole
    ensures (notional + FloorNotional(e.qty, e.price)) * QTY_SCALE <= (filled + e.qty) * bound
    ensures notional + FloorNotional(e.qty, e.price) <= CeilNotional(whole, bound)
  {
    MulMono(e.price, bound, e.qty);
    assert (filled + e.qty) * bound == filled * bound + e.qty * bound;
    MulMono(filled + e.qty, whole, bound);
    CeilDivIs(whole * bound, QTY_SCALE);
    BelowCeiling(notional + FloorNotional(e.qty, e.price), whole * bound, CeilNotional(whole, bound));
  }

  /** Not every in-bound fill commits: 2 @ 150.00 at 5 bps, filled 1 @ 140.00 and 1 @ 150.00, needs 30016 of 30015. */
  lemma {:induction false} InBoundFillRefused()
    ensures var terms := Terms(500, 5, 0);
      var fills := [Execution(1_000_000, 14000, Taker), Execution(1_000_000, 15000, Taker)];
      var row := Row(Cash, 30015, 0, 0, Some(15000), 5);
      SizeReservation(Buy, Limit, 2_000_000, 15000, 0, terms) == Sizing(Cash, 30015, 15000, 5)
      && WithinBound(fills, 15000) && TotalQty(fills) == 2_000_000
      && RunCost(0, fills, terms) == Some(29015)
      && SettleAll(Working(0, 0, row), fills, terms).None?
  {
    hide SizeReservation, ChargeFor, SettleRow;
    var terms := Terms(500, 5, 0);
    var fills := [Execution(1_000_000, 14000, Taker), Execution(1_000_000, 15000, Taker)];
    InBoundFillValues();
    assert fills[1..] == [Execution(1_000_000, 15000, Taker)] && fills[1..][1..] == [];
    var first := Working(1_000_000, 14000, Row(Cash, 30015, 14007, 1001, Some(15000), 5));
    assert SettleAll(first, fills[1..], terms).None?;
    assert RunCost(14000, fills[1..], terms) == Some(15008);
  }

  lemma {:induction false} InBoundFillValues()
    ensures SizeReservation(Buy, Limit, 2_000_000, 15000, 0, Terms(500, 5, 0)) == Sizing(Cash, 30015, 15000, 5)
    ensures ChargeFor(1_000_000, 14000, 0, 5) == Charge(14000, 7)
    ensures ChargeFor(1_000_000, 15000, 14000, 5) == Charge(15000, 8)
    ensures SettleRow(Row(Cash, 30015, 0, 0, Some(15000), 5), 0, 1_000_000, 14000, 7, true)
      == Row(Cash, 30015, 14007, 1001, Some(15000), 5)
    ensures !SettleRow(Row(Cash, 30015, 14007, 1001, Some(15000), 5), 1_000_000, 1_000_000, 15000, 8, true).Legal()
  {
    hide Owed, SizeReservation, ChargeFor;
    OwedValues();
    ChargeValues();
    SizingValue();
  }

  lemma {:induction false} OwedValues()
    ensures Owed(0, 15000, 5) == 0 && Owed(1_000_000, 15000, 5) == 15008 && Owed(2_000_000, 15000, 5) == 30015
  {
    hide NotionalCeil, FeeBps;
    CeilingValues();
    FeeValues();
  }

  lemma {:induction false} CeilingValues()
    ensures NotionalCeil(0, 15000) == Some(0) && NotionalCeil(1_000_000, 15000) == Some(15000)
    ensures NotionalCeil(2_000_000, 15000) == Some(30000)
  {
    hide NotionalCeil;
    NotionalNonneg(0, 15000);
    NotionalNonneg(1_000_000, 15000);
    NotionalNonneg(2_000_000, 15000);
  }

  lemma {:induction false} FeeValues()
    ensures FeeBps(0, 5) == Some(0) && FeeBps(15000, 5) == Some(8) && FeeBps(30000, 5) == Some(15)
    ensures FeeBps(14000, 5) == Some(7) && FeeBps(29000, 5) == Some(15)
  {
    hide FeeBps;
    FeeInRange(0, 5, 30000);
    FeeInRange(14000, 5, 30000);
    FeeInRange(15000, 5, 30000);
    FeeInRange(29000, 5, 30000);
    FeeInRange(30000, 5, 30000);
  }

  lemma {:induction false} ChargeValues()
    ensures ChargeFor(1_000_000, 14000, 0, 5) == Charge(14000, 7)
    ensures ChargeFor(1_000_000, 15000, 14000, 5) == Charge(15000, 8)
  {
    hide Notional, FeeBps;
    NotionalNonneg(1_000_000, 14000);
    NotionalNonneg(1_000_000, 15000);
    FeeValues();
  }

  lemma {:induction false} SizingValue()
    ensures SizeReservation(Buy, Limit, 2_000_000, 15000, 0, Terms(500, 5, 0)) == Sizing(Cash, 30015, 15000, 5)
  {
    hide NotionalCeil, FeeBps, Add;
    CeilingValues();
    FeeValues();
    AddExact(30000, 15);
  }
}
