/** Python's `round(x, n)` on exact decimal values: the nearest multiple of
    10^-n, a tie going to the even multiple. The bill rounds money to cents
    (n = 2) and unit prices to millionths (n = 6); the lemmas below state the
    properties of those two precisions. */
module Money {
  import opened Text

  predicate IsWhole(x: real) {
    x.Floor as real == x
  }

  /** `x` times 10^n. */
  function Scaled(x: real, n: nat): real {
    if n == 0 then x else Scaled(x, n - 1) * 10.0
  }

  /** `x` divided by 10^n. */
  function Unscaled(x: real, n: nat): real {
    if n == 0 then x else Unscaled(x, n - 1) / 10.0
  }

  /** `x` is a whole number of units of 10^-n (cents for n = 2). */
  predicate OnGrid(x: real, n: nat) {
    IsWhole(Scaled(x, n))
  }

  /** The integer nearest to `x`, ties to even. */
  function RoundHalfEven(x: real): (q: int)
    ensures x - 0.5 <= q as real <= x + 0.5
    ensures IsWhole(x) ==> q as real == x
    ensures x - x.Floor as real == 0.5 ==> q % 2 == 0
  {
    var f := x.Floor;
    var frac := x - f as real;
    if frac < 0.5 then f
    else if frac > 0.5 then f + 1
    else if f % 2 == 0 then f
    else f + 1
  }

  /** Nearest-integer rounding never inverts an order. */
  lemma RoundHalfEvenMonotone(a: real, b: real)
    requires a <= b
    ensures RoundHalfEven(a) <= RoundHalfEven(b)
  {
  }

  /** `round(x, n)`: a whole number of units of 10^-n, at most half a unit
      from `x` (both measured in those units), and `x` itself when it is
      already on that grid. */
  function RoundTo(x: real, n: nat): (r: real)
    ensures OnGrid(r, n)
    ensures Scaled(x, n) - 0.5 <= Scaled(r, n) <= Scaled(x, n) + 0.5
    ensures OnGrid(x, n) ==> r == x
  {
    var q := RoundHalfEven(Scaled(x, n));
    ScaledUnscaled(q as real, n);
    if OnGrid(x, n) then UnscaledScaled(x, n); Unscaled(q as real, n) else Unscaled(q as real, n)
  }

  /** Dividing by 10^k commutes with a factor of ten. */
  lemma {:induction false} UnscaledTimesTen(y: real, k: nat)
    ensures Unscaled(y * 10.0, k) == Unscaled(y, k) * 10.0
  {
    if k > 0 {
      UnscaledTimesTen(y, k - 1);
    }
  }

  /** Multiplying by 10^k commutes with a division by ten. */
  lemma {:induction false} ScaledOverTen(y: real, k: nat)
    ensures Scaled(y / 10.0, k) == Scaled(y, k) / 10.0
  {
    if k > 0 {
      ScaledOverTen(y, k - 1);
    }
  }

  /** Scaling up then down by 10^n gives back the amount. */
  lemma {:induction false} UnscaledScaled(x: real, n: nat)
    ensures Unscaled(Scaled(x, n), n) == x
  {
    if n > 0 {
      UnscaledTimesTen(Scaled(x, n - 1), n - 1);
      UnscaledScaled(x, n - 1);
    }
  }

  /** Scaling down then up by 10^n gives back the amount. */
  lemma {:induction false} ScaledUnscaled(q: real, n: nat)
    ensures Scaled(Unscaled(q, n), n) == q
  {
    if n > 0 {
      ScaledOverTen(Unscaled(q, n - 1), n - 1);
      ScaledUnscaled(q, n - 1);
    }
  }

  // ---------------------------------------------------------------------
  // Cents (n = 2)
  // ---------------------------------------------------------------------

  lemma CentsScale(x: real)
    ensures OnGrid(x, 2) <==> IsWhole(x * 100.0)
  {
    assert Scaled(x, 1) == x * 10.0;
  }

  lemma CentsRound(x: real)
    ensures RoundTo(x, 2) == RoundHalfEven(x * 100.0) as real / 100.0
  {
    assert Scaled(x, 1) == x * 10.0;
    var q := RoundHalfEven(x * 100.0) as real;
    assert Unscaled(q, 1) == q / 10.0;
  }

  /** `round(x, 2)` is a whole number of cents within half a cent of `x`. */
  lemma RoundToCents(x: real)
    ensures OnGrid(RoundTo(x, 2), 2)
    ensures x - 0.005 <= RoundTo(x, 2) <= x + 0.005
  {
    CentsRound(x);
    CentsScale(RoundTo(x, 2));
  }

  /** Scaling by 10^n keeps the order of amounts. */
  lemma {:induction false} ScaledMonotone(a: real, b: real, n: nat)
    requires a <= b
    ensures Scaled(a, n) <= Scaled(b, n)
  {
    if n > 0 {
      ScaledMonotone(a, b, n - 1);
    }
  }

  /** Dividing by 10^n keeps the order of amounts. */
  lemma {:induction false} UnscaledMonotone(a: real, b: real, n: nat)
    requires a <= b
    ensures Unscaled(a, n) <= Unscaled(b, n)
  {
    if n > 0 {
      UnscaledMonotone(a, b, n - 1);
    }
  }

  /** `round(x, n)` keeps the order of its arguments. */
  lemma RoundToMonotone(x: real, y: real, n: nat)
    requires x <= y
    ensures RoundTo(x, n) <= RoundTo(y, n)
  {
    ScaledMonotone(x, y, n);
    RoundHalfEvenMonotone(Scaled(x, n), Scaled(y, n));
    UnscaledMonotone(RoundHalfEven(Scaled(x, n)) as real, RoundHalfEven(Scaled(y, n)) as real, n);
  }

  /** Zero is on every grid. */
  lemma {:induction false} ScaledZero(n: nat)
    ensures Scaled(0.0, n) == 0.0
  {
    if n > 0 {
      ScaledZero(n - 1);
    }
  }

  /** Rounding a non-negative amount never makes it negative. */
  lemma RoundToNonNegative(x: real, n: nat)
    requires x >= 0.0
    ensures RoundTo(x, n) >= 0.0
  {
    ScaledZero(n);
    RoundToMonotone(0.0, x, n);
  }

  /** Rounding twice to the same precision is rounding once. */
  lemma RoundToIdempotent(x: real, n: nat)
    ensures RoundTo(RoundTo(x, n), n) == RoundTo(x, n)
  {
  }

  /** Sums and differences of whole-cent amounts are whole-cent amounts. */
  lemma CentsAddSub(a: real, b: real)
    requires OnGrid(a, 2) && OnGrid(b, 2)
    ensures OnGrid(a + b, 2) && OnGrid(a - b, 2)
  {
    CentsScale(a);
    CentsScale(b);
    CentsScale(a + b);
    CentsScale(a - b);
    WholeAddSub(a * 100.0, b * 100.0);
    assert (a + b) * 100.0 == a * 100.0 + b * 100.0;
    assert (a - b) * 100.0 == a * 100.0 - b * 100.0;
  }

  lemma WholeAddSub(x: real, y: real)
    requires IsWhole(x) && IsWhole(y)
    ensures IsWhole(x + y) && IsWhole(x - y)
  {
    var s, d := x.Floor + y.Floor, x.Floor - y.Floor;
    assert (s as real).Floor == s && (d as real).Floor == d;
    assert x + y == s as real && x - y == d as real;
  }

  // ---------------------------------------------------------------------
  // Millionths (n = 6)
  // ---------------------------------------------------------------------

  lemma MicroScale(x: real)
    ensures OnGrid(x, 6) <==> IsWhole(x * 1000000.0)
  {
    assert Scaled(x, 1) == x * 10.0;
    assert Scaled(x, 2) == x * 100.0;
    assert Scaled(x, 3) == x * 1000.0;
    assert Scaled(x, 4) == x * 10000.0;
    assert Scaled(x, 5) == x * 100000.0;
  }

  lemma MicroRound(x: real)
    ensures RoundTo(x, 6) == RoundHalfEven(x * 1000000.0) as real / 1000000.0
  {
    assert Scaled(x, 1) == x * 10.0;
    assert Scaled(x, 2) == x * 100.0;
    assert Scaled(x, 3) == x * 1000.0;
    assert Scaled(x, 4) == x * 10000.0;
    assert Scaled(x, 5) == x * 100000.0;
    assert Scaled(x, 6) == x * 1000000.0;
    var q := RoundHalfEven(x * 1000000.0) as real;
    assert Unscaled(q, 1) == q / 10.0;
    assert Unscaled(q, 2) == q / 100.0;
    assert Unscaled(q, 3) == q / 1000.0;
    assert Unscaled(q, 4) == q / 10000.0;
    assert Unscaled(q, 5) == q / 100000.0;
  }

  /** `round(x, 6)` is a whole number of millionths within half a millionth of `x`. */
  lemma RoundToMicro(x: real)
    ensures OnGrid(RoundTo(x, 6), 6)
    ensures x - 0.0000005 <= RoundTo(x, 6) <= x + 0.0000005
  {
    MicroRound(x);
    MicroScale(RoundTo(x, 6));
  }

  // ---------------------------------------------------------------------
  // The bill's cents
  // ---------------------------------------------------------------------

  /** `round(x, 2)` with the properties the bill relies on: whole cents,
      within half a cent, and never negative for a non-negative amount. */
  function Cents(x: real): (r: real)
    ensures OnGrid(r, 2)
    ensures x - 0.005 <= r <= x + 0.005
    ensures x >= 0.0 ==> r >= 0.0
  {
    RoundToCents(x);
    if x >= 0.0 then RoundToNonNegative(x, 2); RoundTo(x, 2) else RoundTo(x, 2)
  }

  /** An amount in whole cents is left as it is. */
  lemma CentsFixed(x: real)
    requires OnGrid(x, 2)
    ensures Cents(x) == x
  {
  }
}
