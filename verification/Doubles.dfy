/**
 Binary floating point: the nearest double of a real number. A double is a whole number of at most 53 binary digits
 times a power of two; no figure of this project comes near the smallest or the largest exponent.
 */
module Doubles {

  const TWO_52: real := 4_503_599_627_370_496.0
  const TWO_53: real := 9_007_199_254_740_992.0

  /** The nearest whole number, and between two of them the even one. */
  function HalfEven(y: real): int {
    var f := y.Floor;
    var rest := y - f as real;
    if rest < 0.5 then f else if 0.5 < rest then f + 1 else if f % 2 == 0 then f else f + 1
  }

  /** How far a number is from having 53 binary digits before the point. */
  function Distance(x: real): nat
    requires 0.0 < x
  {
    if x < TWO_52 then
      Quotient(TWO_53, x);
      (TWO_53 / x).Floor
    else x.Floor
  }

  /** The nearest double of a positive number: scaled to 53 binary digits, rounded, and scaled back. */
  function NearestPositive(x: real): (y: real)
    requires 0.0 < x
    ensures 0.0 < y
    decreases if x < TWO_52 then 1 else 0, Distance(x)
  {
    if x < TWO_52 then
      Halved(x);
      NearestPositive(2.0 * x) / 2.0
    else if TWO_53 <= x then
      FloorHalved(x);
      2.0 * NearestPositive(x / 2.0)
    else HalfEven(x) as real
  }

  function Nearest(x: real): real {
    if x == 0.0 then 0.0 else if x < 0.0 then -NearestPositive(-x) else NearestPositive(x)
  }

  /** The distance between a positive number's neighbouring doubles. */
  function Unit(x: real): (u: real)
    requires 0.0 < x
    ensures 0.0 < u
    decreases if x < TWO_52 then 1 else 0, Distance(x)
  {
    if x < TWO_52 then
      Halved(x);
      Unit(2.0 * x) / 2.0
    else if TWO_53 <= x then
      FloorHalved(x);
      2.0 * Unit(x / 2.0)
    else 1.0
  }

  // ---------------------------------------------------------------- scaling

  lemma {:induction false} FloorHalved(y: real)
    requires 2.0 <= y
    ensures (y / 2.0).Floor < y.Floor
  {
  }

  lemma {:induction false} Quotient(a: real, x: real)
    requires 0.0 < x && 2.0 * x <= a
    ensures 2.0 <= a / x && a / (2.0 * x) == a / x / 2.0
  {
    assert a / x * x == a;
  }

  lemma {:induction false} Halved(x: real)
    requires 0.0 < x < TWO_52
    ensures 2.0 * x < TWO_52 ==> Distance(2.0 * x) < Distance(x)
  {
    Quotient(TWO_53, x);
    FloorHalved(TWO_53 / x);
  }

  lemma {:induction false} Doubling(x: real)
    requires 0.0 < x
    ensures NearestPositive(2.0 * x) == 2.0 * NearestPositive(x) && Unit(2.0 * x) == 2.0 * Unit(x)
  {
    if TWO_52 <= x {
      assert 2.0 * x / 2.0 == x;
    }
  }

  /** Rounding keeps the order, and a larger number has no closer neighbours. */
  lemma {:induction false} PositiveMono(x: real, y: real)
    requires 0.0 < x <= y
    ensures NearestPositive(x) <= NearestPositive(y) && Unit(x) <= Unit(y)
    decreases if x < TWO_52 then 1 else 0, Distance(x), if y < TWO_52 then 0 else y.Floor
  {
    hide Distance, HalfEven;
    if x < TWO_52 {
      Halved(x);
      Doubling(y);
      PositiveMono(2.0 * x, 2.0 * y);
    } else if TWO_53 <= x {
      NearerHalved(x);
      PositiveMono(x / 2.0, y / 2.0);
    } else if TWO_53 <= y {
      FloorHalved(y);
      Beyond(y);
      WithinDigits(x);
    } else {
      HalfEvenMono(x, y);
    }
  }

  lemma {:induction false} NearerHalved(x: real)
    requires TWO_53 <= x
    ensures Distance(x / 2.0) < Distance(x)
  {
    FloorHalved(x);
  }

  lemma {:induction false} HalfEvenMono(a: real, b: real)
    requires a <= b
    ensures HalfEven(a) <= HalfEven(b)
  {
    assert a.Floor <= b.Floor;
  }

  lemma {:induction false} WithinDigits(x: real)
    requires TWO_52 <= x < TWO_53
    ensures NearestPositive(x) <= TWO_53 && Unit(x) == 1.0
  {
    assert x.Floor < 9007199254740992;
  }

  /** From `2^53` on only even numbers are doubles. */
  lemma {:induction false} Beyond(y: real)
    requires TWO_53 <= y
    ensures TWO_53 <= NearestPositive(y) && 2.0 <= Unit(y)
    decreases y.Floor
  {
    FloorHalved(y);
    if TWO_53 <= y / 2.0 {
      Beyond(y / 2.0);
    } else {
      assert 4503599627370496 <= (y / 2.0).Floor;
    }
  }

  lemma {:induction false} NearestMono(x: real, y: real)
    requires 0.0 <= x <= y
    ensures 0.0 <= Nearest(x) <= Nearest(y)
  {
    if 0.0 < x {
      PositiveMono(x, y);
    }
  }

  lemma {:induction false} HalfEvenNear(y: real)
    ensures HalfEven(y) as real - 0.5 <= y <= HalfEven(y) as real + 0.5
  {
  }

  lemma {:induction false} HalfEvenIs(y: real, n: int)
    requires n as real - 0.5 < y < n as real + 0.5
    ensures HalfEven(y) == n
  {
    HalfEvenNear(y);
  }

  /** Rounding moves a number by less than a part in `2^52`. */
  lemma {:induction false} NearestClose(x: real)
    requires 0.0 < x
    ensures x * (1.0 - 1.0 / TWO_52) <= NearestPositive(x) <= x * (1.0 + 1.0 / TWO_52)
    decreases if x < TWO_52 then 1 else 0, Distance(x)
  {
    hide Distance, HalfEven;
    if x < TWO_52 {
      Halved(x);
      NearestClose(2.0 * x);
    } else if TWO_53 <= x {
      NearerHalved(x);
      NearestClose(x / 2.0);
    } else {
      HalfEvenNear(x);
    }
  }

  /** Whole numbers of at most 53 binary digits are doubles. */
  lemma {:induction false} WholeIsExact(v: int)
    requires 0 < v < 9007199254740992
    ensures NearestPositive(v as real) == v as real
    decreases 9007199254740992 - v
  {
    if 4503599627370496 <= v {
      HalfEvenIs(v as real, v);
    } else {
      WholeIsExact(2 * v);
      Doubling(v as real);
    }
  }
}
