/** Rounding on exact numbers: Python's `round(x, digits)` (to nearest, ties to even) and the
    rounding of a NUMERIC column (to nearest, ties away from zero). */
module Rounding {

  function Nearest(x: real): int {
    var d := x - x.Floor as real;
    if d < 0.5 || (d == 0.5 && x.Floor % 2 == 0) then x.Floor else x.Floor + 1
  }

  /** How many decimal digits are kept. */
  datatype Digits = Two | Three | Four

  /** The number in units of the last kept digit. */
  function Scaled(x: real, d: Digits): real {
    match d case Two => x * 100.0 case Three => x * 1000.0 case Four => x * 10000.0
  }

  function Unscaled(n: int, d: Digits): real {
    match d case Two => n as real / 100.0 case Three => n as real / 1000.0 case Four => n as real / 10000.0
  }

  function HalfUnit(d: Digits): real {
    match d case Two => 0.005 case Three => 0.0005 case Four => 0.00005
  }

  /** Python's `round(x, digits)`. */
  function Round(x: real, d: Digits): real {
    Unscaled(Nearest(Scaled(x, d)), d)
  }

  function NearestAway(x: real): int {
    if x >= 0.0 then (x + 0.5).Floor else -((-x + 0.5).Floor)
  }

  /** What a NUMERIC(p, 2) column keeps of a number. */
  function Cents(x: real): real {
    NearestAway(x * 100.0) as real / 100.0
  }

  predicate IsMultiple(x: real, d: Digits) {
    Scaled(x, d) == Scaled(x, d).Floor as real
  }

  lemma NearestIsNear(x: real)
    ensures -0.5 <= Nearest(x) as real - x <= 0.5
  {
  }

  lemma NearestMonotone(x: real, y: real)
    requires x <= y
    ensures Nearest(x) <= Nearest(y)
  {
  }

  lemma NearestOfInt(k: int)
    ensures Nearest(k as real) == k
  {
  }

  lemma UnscaledNear(x: real, n: int, d: Digits)
    requires -0.5 <= n as real - Scaled(x, d) <= 0.5
    ensures x - HalfUnit(d) <= Unscaled(n, d) <= x + HalfUnit(d)
  {
  }

  /** Rounding moves a number by at most half a unit of the last kept digit. */
  lemma RoundIsNear(x: real, d: Digits)
    ensures x - HalfUnit(d) <= Round(x, d) <= x + HalfUnit(d)
  {
    NearestIsNear(Scaled(x, d));
    UnscaledNear(x, Nearest(Scaled(x, d)), d);
  }

  lemma UnscaledMonotone(m: int, n: int, d: Digits)
    requires m <= n
    ensures Unscaled(m, d) <= Unscaled(n, d)
  {
  }

  lemma ScaledMonotone(x: real, y: real, d: Digits)
    requires x <= y
    ensures Scaled(x, d) <= Scaled(y, d)
  {
  }

  lemma RoundMonotone(x: real, y: real, d: Digits)
    requires x <= y
    ensures Round(x, d) <= Round(y, d)
  {
    ScaledMonotone(x, y, d);
    NearestMonotone(Scaled(x, d), Scaled(y, d));
    UnscaledMonotone(Nearest(Scaled(x, d)), Nearest(Scaled(y, d)), d);
  }

  lemma ScaledUnscaled(n: int, d: Digits)
    ensures Scaled(Unscaled(n, d), d) == n as real
  {
  }

  lemma UnscaledScaled(x: real, n: int, d: Digits)
    requires Scaled(x, d) == n as real
    ensures Unscaled(n, d) == x
  {
  }

  /** Rounding keeps exactly the multiples of the unit, and yields only those. */
  lemma RoundFixesMultiples(x: real, d: Digits)
    ensures IsMultiple(Round(x, d), d)
    ensures Round(x, d) == x <==> IsMultiple(x, d)
  {
    var n := Nearest(Scaled(x, d));
    ScaledUnscaled(n, d);
    if IsMultiple(x, d) {
      var k := Scaled(x, d).Floor;
      NearestOfInt(k);
      UnscaledScaled(x, k, d);
    }
  }

  lemma RoundOfConstants(d: Digits)
    ensures Round(0.0, d) == 0.0 && Round(1.0, d) == 1.0
  {
    NearestOfInt(0);
    NearestOfInt(match d case Two => 100 case Three => 1000 case Four => 10000);
  }

  /** Four digits show more than one exactly from one and a half units up: the tie goes down. */
  lemma RoundExceedsOne(x: real)
    ensures Round(x, Four) > 1.0 <==> x > 1.00005
  {
  }

  /** Three digits show something of a number exactly from half a unit up, and at most one exactly up
      to one and a half units: ties go to even. */
  lemma RoundInUnit(x: real)
    ensures Round(x, Three) > 0.0 <==> x > 0.0005
    ensures Round(x, Three) <= 1.0 <==> x <= 1.0005
  {
  }

  /** A column keeps exactly the numbers with at most two decimals. */
  lemma CentsAreNear(x: real)
    ensures IsMultiple(Cents(x), Two) && -0.005 <= Cents(x) - x <= 0.005
  {
    var n := NearestAway(x * 100.0);
    assert Cents(x) * 100.0 == n as real;
    assert -0.5 <= n as real - x * 100.0 <= 0.5;
  }

  lemma CentsKeepTwoDecimals(x: real)
    ensures Cents(x) == x <==> IsMultiple(x, Two)
  {
    assert Cents(x) * 100.0 == NearestAway(x * 100.0) as real;
    if IsMultiple(x, Two) {
      assert NearestAway(x * 100.0) == (x * 100.0).Floor;
    }
  }

  // ---- quotients ---------------------------------------------------------------------------------

  lemma QuotientTimes(n: real, s: real)
    requires s != 0.0
    ensures n / s * s == n
  {
  }

  lemma QuotientIs(a: real, b: real, q: real)
    requires b != 0.0 && q * b == a
    ensures a / b == q
  {
    QuotientTimes(a, b);
    assert (a / b - q) * b == 0.0;
  }

  lemma MulMonotone(a: real, b: real, w: real)
    requires a <= b && w >= 0.0
    ensures a * w <= b * w
  {
    assert (b - a) * w >= 0.0;
  }

  /** A quotient lies where the dividend lies relative to multiples of the divisor. */
  lemma QuotientIn(a: real, b: real, lo: real, hi: real)
    requires b > 0.0 && lo * b <= a <= hi * b
    ensures lo <= a / b <= hi
  {
    var q := a / b;
    QuotientTimes(a, b);
    if q < lo { StrictlyLess(q, lo, b); }
    if q > hi { StrictlyLess(hi, q, b); }
  }

  lemma StrictlyLess(a: real, b: real, w: real)
    requires a < b && w > 0.0
    ensures a * w < b * w
  {
    assert (b - a) * w > 0.0;
  }
}
