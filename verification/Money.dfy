/** The arithmetic of internal/money/money.go on int64 values, 128-bit products included. */
module Money {
  import opened Types

  const QTY_SCALE: nat := 1_000_000
  const BPS: nat := 10_000
  const TWO64: nat := 0x1_0000_0000_0000_0000
  const MAX64: int := 0x7FFF_FFFF_FFFF_FFFF
  const MIN64: int := -0x8000_0000_0000_0000

  predicate Is64(x: int) { MIN64 <= x <= MAX64 }

  /** Two's-complement wrap-around of an int64 result. */
  function Wrap64(x: int): (r: int)
    ensures Is64(r) && (Is64(x) ==> r == x)
  {
    (x - MIN64) % TWO64 + MIN64
  }

  /** bits.Mul64: the high and low words of a product. */
  function Mul64(a: nat, b: nat): (r: (nat, nat))
    ensures r.0 * TWO64 + r.1 == a * b && r.1 < TWO64
  {
    ((a * b) / TWO64, (a * b) % TWO64)
  }

  /** bits.Div64, which panics unless the high word is below the divisor: the guard is the precondition. */
  function Div64(hi: nat, lo: nat, y: nat): (r: (int, nat))
    requires Divisor(y) && hi < y && lo < TWO64
    ensures r.0 * y + r.1 == hi * TWO64 + lo && r.1 < y && 0 <= r.0 < TWO64
  {
    var x := hi * TWO64 + lo;
    if y == BPS then (x / BPS, x % BPS) else (x / QTY_SCALE, x % QTY_SCALE)
  }

  lemma {:induction false} MulMono(a: int, b: int, c: nat)
    requires a <= b
    ensures a * c <= b * c && c * a <= c * b
  {
    assert (b - a) * c >= 0;
  }

  // ---- the functions of the package --------------------------------------------------------

  /** `notional`: truncated quotient and remainder, or None when the result does not fit. */
  function Scaled(qty: int, price: int): Option<(int, nat)>
  {
    var neg := (qty < 0) != (price < 0);
    var a := if qty < 0 then Wrap64(-qty) else qty;
    var b := if price < 0 then Wrap64(-price) else price;
    if a < 0 || b < 0 then None else
    var (hi, lo) := Mul64(a, b);
    if hi >= QTY_SCALE then None else
    var (quo, rem) := Div64(hi, lo, QTY_SCALE);
    if quo > MAX64 then None else
    Some((if neg then -quo else quo, rem))
  }

  function Notional(qty: int, price: int): Option<int>
  {
    match Scaled(qty, price)
    case None => None
    case Some((n, _)) => Some(n)
  }

  function NotionalCeil(qty: int, price: int): Option<int>
  {
    match Scaled(qty, price)
    case None => None
    case Some((n, rem)) =>
      if rem == 0 then Some(n)
      else if n == MAX64 then None
      else if (qty >= 0) == (price >= 0) then Some(n + 1) else Some(n - 1)
  }

  function FeeBps(amount: int, bps: int): Option<int>
  {
    if bps == 0 then Some(0) else
    var neg := amount < 0;
    var n := if neg then Wrap64(-amount) else amount;
    if n < 0 || bps < 0 then None else
    var (hi, lo) := Mul64(n, bps);
    if hi >= BPS then None else
    var (quo, rem) := Div64(hi, lo, BPS);
    var up := if rem != 0 then (quo + 1) % TWO64 else quo;   // uint64 increment
    if up > MAX64 then None else
    Some(if neg then -up else up)
  }

  function ApplyBps(amount: int, bps: int): Option<int>
  {
    match FeeBps(amount, bps)
    case None => None
    case Some(delta) =>
      var sum := Wrap64(amount + delta);
      if (delta > 0 && sum < amount) || (delta < 0 && sum > amount) then None else Some(sum)
  }

  function SubBps(amount: int, bps: int): Option<int>
  {
    match FeeBps(amount, bps)
    case None => None
    case Some(delta) => Some(Wrap64(amount - delta))
  }

  function Add(a: int, b: int): Option<int>
  {
    var s := Wrap64(a + b);
    if (b > 0 && s < a) || (b < 0 && s > a) then None else Some(s)
  }

  // ---- what they mean -----------------------------------------------------------------------

  function Abs(x: int): nat { if x < 0 then -x else x }

  /** Division rounded toward zero and away from zero. */
  function Toward0(x: int, d: nat): int requires d > 0 { if x >= 0 then x / d else -((-x) / d) }
  function CeilDiv(x: nat, d: nat): nat requires d > 0 { (x + d - 1) / d }
  function Away0(x: int, d: nat): int requires d > 0 { if x >= 0 then CeilDiv(x, d) else 0 - CeilDiv(-x, d) }

  /** The two divisors of the package; a case split on them keeps every fact about division linear. */
  predicate Divisor(d: nat) { d == QTY_SCALE || d == BPS }

  lemma {:induction false} CeilDivIs(x: nat, d: nat)
    requires Divisor(d)
    ensures CeilDiv(x, d) == x / d + (if x % d == 0 then 0 else 1)
    ensures (CeilDiv(x, d) - 1) * d < x <= CeilDiv(x, d) * d
  {
    if d == BPS {
    } else {
    }
  }

  lemma {:induction false} DivUnique(x: nat, d: nat, q: nat, r: nat)
    requires (Divisor(d) || d == TWO64) && x == q * d + r && r < d
    ensures x / d == q && x % d == r
  {
    if d == BPS {
    } else if d == QTY_SCALE {
    } else {
    }
  }

  lemma {:induction false} AbsProduct(a: int, b: int)
    ensures Abs(a) * Abs(b) == Abs(a * b)
    ensures a != 0 && b != 0 ==> (a * b < 0 <==> ((a < 0) != (b < 0)))
    ensures a == 0 || b == 0 ==> a * b == 0
  {
    if a < 0 && b < 0 { assert (-a) * (-b) == a * b; }
    if a < 0 && b > 0 { assert (-a) * b == -(a * b); MulMono(1, b, -a); }
    if a > 0 && b < 0 { assert a * (-b) == -(a * b); MulMono(1, -b, a); }
  }

  /** The two words of the product and the one of the quotient lose nothing. */
  lemma {:induction false} ScaledExact(qty: int, price: int)
    requires Is64(qty) && Is64(price)
    ensures Scaled(qty, price).Some? <==>
      qty != MIN64 && price != MIN64 && Abs(qty * price) / QTY_SCALE <= MAX64
    ensures Scaled(qty, price).Some? ==>
      Scaled(qty, price).value == (Toward0(qty * price, QTY_SCALE), Abs(qty * price) % QTY_SCALE)
  {
    AbsProduct(qty, price);
    if qty != MIN64 && price != MIN64 {
      var x := Abs(qty) * Abs(price);
      var (hi, lo) := Mul64(Abs(qty), Abs(price));
      if hi >= QTY_SCALE {
        MulMono(QTY_SCALE, hi, TWO64);
      } else {
        var (quo, rem) := Div64(hi, lo, QTY_SCALE);
        DivUnique(x, QTY_SCALE, quo, rem);
      }
    }
  }

  /** `Notional` is exact truncation toward zero, refused exactly when it does not fit. */
  lemma {:induction false} NotionalExact(qty: int, price: int)
    requires Is64(qty) && Is64(price)
    ensures Notional(qty, price) ==
      if qty != MIN64 && price != MIN64 && Is64(Toward0(qty * price, QTY_SCALE))
        && Toward0(qty * price, QTY_SCALE) != MIN64
      then Some(Toward0(qty * price, QTY_SCALE)) else None
  {
    ScaledExact(qty, price);
  }

  /** `NotionalCeil` rounds away from zero; a negative result may reach MIN64, a positive one may not pass MAX64. */
  lemma {:induction false} NotionalCeilExact(qty: int, price: int)
    requires Is64(qty) && Is64(price)
    ensures NotionalCeil(qty, price) ==
      if qty != MIN64 && price != MIN64 && Abs(qty * price) / QTY_SCALE <= MAX64 && Is64(Away0(qty * price, QTY_SCALE))
      then Some(Away0(qty * price, QTY_SCALE)) else None
  {
    ScaledExact(qty, price);
    CeilDivIs(Abs(qty * price), QTY_SCALE);
    AbsProduct(qty, price);
  }

  /** The only inputs on which the rounding increment wraps: the quotient is 2^64 - 1 with a remainder. */
  predicate FeeWraps(amount: int, bps: int)
  {
    bps > 0 && BPS * (TWO64 - 1) < Abs(amount) * bps < BPS * TWO64
  }

  /** `FeeBps` charges the exact fee rounded away from zero, or refuses what does not fit, unless the increment wraps.
      */
  lemma {:induction false} FeeBpsExact(amount: int, bps: int)
    requires Is64(amount) && Is64(bps)
    ensures FeeBps(amount, bps) ==
            (if bps == 0 then Some(0)
             else if amount == MIN64 || bps < 0 || CeilDiv(Abs(amount) * bps, BPS) > MAX64 then None
             else Some(Away0(amount * bps, BPS)))
      <==> !(FeeWraps(amount, bps) && amount != MIN64)
  {
    if bps > 0 && amount != MIN64 {
      AbsProduct(amount, bps);
      FeeMagnitude(Abs(amount), bps);
    }
  }

  lemma {:induction false} FeeMagnitude(n: nat, bps: nat)
    requires bps > 0
    ensures FeeWraps(n, bps) ==> FeeBps(n, bps) == Some(0) && CeilDiv(n * bps, BPS) == TWO64
    ensures !FeeWraps(n, bps) ==>
      FeeBps(n, bps) == if CeilDiv(n * bps, BPS) > MAX64 then None else Some(CeilDiv(n * bps, BPS))
  {
    var (hi, lo) := Mul64(n, bps);
    hide Mul64;
    hide CeilDiv;
    RoundedUp(n * bps, hi, lo);
  }

  /** The division and increment of `FeeBps` on the two words of x. */
  lemma {:induction false} RoundedUp(x: nat, hi: nat, lo: nat)
    requires hi * TWO64 + lo == x && lo < TWO64
    ensures hi >= BPS ==> CeilDiv(x, BPS) > MAX64 && x >= BPS * TWO64
    ensures hi < BPS ==>
      var (quo, rem) := Div64(hi, lo, BPS);
      CeilDiv(x, BPS) == (if rem != 0 then quo + 1 else quo)
      && (rem != 0 && quo + 1 == TWO64 <==> BPS * (TWO64 - 1) < x < BPS * TWO64)
  {}

  /** The wrap is reachable: a 200.01% rate on this amount is charged nothing instead of being refused. */
  lemma {:induction false} FeeWrapIsReachable()
    ensures Is64(9222910891310210297) && FeeWraps(9222910891310210297, 20001)
    ensures FeeBps(9222910891310210297, 20001) == Some(0)
  {
    FeeMagnitude(9222910891310210297, 20001);
  }

  /** No rate up to 200% reaches it. */
  lemma {:induction false} FeeNeverWrapsBelow200Percent(amount: int, bps: int)
    requires Is64(amount) && bps <= 2 * BPS && amount != MIN64
    ensures !FeeWraps(amount, bps)
  {
    if bps > 0 {
      MulMono(bps, 2 * BPS, Abs(amount));
      MulMono(Abs(amount), MAX64, 2 * BPS);
    }
  }

  /** Widening and narrowing by a rate: the exact sum and difference; refused exactly when the fee itself is, or the sum
      leaves int64. */
  lemma {:induction false} ApplyBpsExact(amount: int, bps: int)
    requires Is64(amount)
    ensures var fee := FeeBps(amount, bps);
      && ApplyBps(amount, bps) == (if fee.Some? && Is64(amount + fee.value) then Some(amount + fee.value) else None)
      && SubBps(amount, bps) == (if fee.Some? then Some(amount - fee.value) else None)
  {
    if FeeBps(amount, bps).Some? {
      FeeSign(amount, bps);
      hide FeeBps;
      WrapSum(amount, FeeBps(amount, bps).value);
    }
  }

  lemma {:induction false} FeeSign(amount: int, bps: int)
    requires Is64(amount) && FeeBps(amount, bps).Some?
    ensures amount >= 0 ==> 0 <= FeeBps(amount, bps).value <= MAX64
    ensures amount < 0 ==> -MAX64 <= FeeBps(amount, bps).value <= 0
  {}

  lemma {:induction false} WrapSum(a: int, b: int)
    requires Is64(a) && Is64(b)
    ensures a + b > MAX64 ==> Wrap64(a + b) == a + b - TWO64
    ensures a + b < MIN64 ==> Wrap64(a + b) == a + b + TWO64
  {
    if a + b > MAX64 { DivUnique(a + b - MIN64, TWO64, 1, a + b - MIN64 - TWO64); }
    if a + b < MIN64 {
      assert a + b - MIN64 + TWO64 >= 0;
      assert (a + b - MIN64) == -1 * TWO64 + (a + b - MIN64 + TWO64);
    }
  }

  lemma {:induction false} AddExact(a: int, b: int)
    requires Is64(a) && Is64(b)
    ensures Add(a, b) == if Is64(a + b) then Some(a + b) else None
  {
    WrapSum(a, b);
  }
}
