/** Amounts in micro-units that travel as doubles of dollars, and when they arrive as what they were. */
module MicroUnits {
  import opened Common
  import opened Doubles

  const MAX_SAFE: int := 9_007_199_254_740_991

  predicate Safe(v: int) {
    -MAX_SAFE <= v <= MAX_SAFE
  }

  /** What the server sends for an amount. */
  function Usd(v: int): real {
    Nearest(Nearest(v as real) / 1_000_000.0)
  }

  /** The nearest whole number, halves upwards. */
  function Round(x: real): int {
    (x + 0.5).Floor
  }

  function Magnitude(x: real): real {
    if x < 0.0 then -x else x
  }

  /** What the client reads: nothing unless the dollars are close enough to a safe number of micro-units. */
  function ToMicroUnits(usd: real): Option<int> {
    var scaled := Nearest(usd * 1_000_000.0);
    if !Safe(Round(scaled)) || Magnitude(Nearest(scaled - Round(scaled) as real)) > Nearest(0.000_001) then None
    else Some(Round(scaled))
  }

  // ---------------------------------------------------------------- which amounts survive

  const TWO_33: int := 8_589_934_592
  const INT_52: int := 4_503_599_627_370_496
  const INT_53: int := 9_007_199_254_740_992

  /** An amount shifted left to 53 binary digits. */
  function Shifted(v: int): (n: int)
    requires 0 < v < INT_53
    ensures INT_52 <= n < INT_53
    decreases INT_53 - v
  {
    if INT_52 <= v then v else Shifted(2 * v)
  }

  /** The last digits of the shifted amount, in the scale in which the quotient by a million is rounded. */
  function Remainder(n: int): (c: int)
    ensures 0 <= c < 15625
  {
    n * 8192 % 15625
  }

  /** The two roundings of dividing by a million and multiplying back cancel out. */
  predicate Cancels(n: int) {
    || n < TWO_33 * 1_000_000 || Remainder(n) < 4096 || 11529 < Remainder(n)
    || (n % 2 == 0 && (Remainder(n) == 4096 || Remainder(n) == 11529))
  }

  function Size(v: int): nat {
    if v < 0 then -v else v
  }

  /** An amount that the client reads as what it was. */
  predicate Survives(v: int) {
    Safe(v) && (Size(v) < TWO_33 || Cancels(Shifted(Size(v))))
  }

  // ---------------------------------------------------------------- there and back

  function RoundTrip(x: real): (y: real)
    requires 0.0 < x
    ensures 0.0 < y
  {
    NearestPositive(NearestPositive(x / 1_000_000.0) * 1_000_000.0)
  }

  lemma {:induction false} RoundTripDoubles(x: real)
    requires 0.0 < x
    ensures RoundTrip(2.0 * x) == 2.0 * RoundTrip(x)
  {
    hide NearestPositive;
    Doubling(x / 1_000_000.0);
    Doubling(NearestPositive(x / 1_000_000.0) * 1_000_000.0);
  }

  lemma {:induction false} Times32(x: real)
    requires 0.0 < x
    ensures NearestPositive(32.0 * x) == 32.0 * NearestPositive(x) && Unit(32.0 * x) == 32.0 * Unit(x)
  {
    hide NearestPositive, Unit;
    Doubling(x);
    Doubling(2.0 * x);
    Doubling(4.0 * x);
    Doubling(8.0 * x);
    Doubling(16.0 * x);
  }

  lemma {:induction false} Times16(x: real)
    requires 0.0 < x
    ensures NearestPositive(16.0 * x) == 16.0 * NearestPositive(x) && Unit(16.0 * x) == 16.0 * Unit(x)
  {
    hide NearestPositive, Unit;
    Doubling(x);
    Doubling(2.0 * x);
    Doubling(4.0 * x);
    Doubling(8.0 * x);
  }

  lemma {:induction false} Times32768(x: real)
    requires 0.0 < x
    ensures NearestPositive(32768.0 * x) == 32768.0 * NearestPositive(x) && Unit(32768.0 * x) == 32768.0 * Unit(x)
  {
    hide NearestPositive, Unit;
    Times32(x);
    Times32(32.0 * x);
    Times32(1024.0 * x);
  }

  /** How far the rounded quotient is from the quotient. */
  lemma {:induction false} RoundedQuotient(total: int) returns (m: int)
    ensures m == HalfEven(total as real / 1_000_000.0)
    ensures -500_000 <= m * 1_000_000 - total <= 500_000
  {
    m := HalfEven(total as real / 1_000_000.0);
    HalfEvenNear(total as real / 1_000_000.0);
  }

  /** In the lower part of an octave the quotient keeps enough digits for the product to come back. */
  lemma {:induction false} LowComesBack(n: int)
    requires INT_52 <= n < TWO_33 * 1_000_000
    ensures RoundTrip(n as real) == n as real
  {
    var q := n as real / 1_000_000.0;
    Times32768(q);
    Times32(32768.0 * q);
    assert 1_048_576.0 * q == (n * 1_048_576) as real / 1_000_000.0;
    var m := RoundedQuotient(n * 1_048_576);
    assert NearestPositive(1_048_576.0 * q) == m as real;
    var r := m * 1_000_000 - n * 1_048_576;
    var back := m as real / 1_048_576.0 * 1_000_000.0;
    assert NearestPositive(q) == m as real / 1_048_576.0;
    assert back == n as real + r as real / 1_048_576.0;
    if TWO_52 <= back {
      HalfEvenIs(back, n);
    } else {
      Borderline(n, m, r);
      HalfEvenIs(2.0 * back, 2 * n);
    }
  }

  /** The first number of an octave. */
  lemma {:induction false} Borderline(n: int, m: int, r: int)
    requires INT_52 <= n && r == m * 1_000_000 - n * 1_048_576 && -500_000 <= r < 0
    requires n as real + r as real / 1_048_576.0 < TWO_52
    ensures n == INT_52 && r == -213_696
  {
  }

  /** By how much the product misses, in the upper part of an octave. */
  function Slip(n: int): (slip: int)
    ensures -1 <= slip <= 1
  {
    if Cancels(n) then 0 else if Remainder(n) <= 7812 then -1 else 1
  }

  lemma {:induction false} HighSlips(n: int)
    requires TWO_33 * 1_000_000 <= n < INT_53
    ensures RoundTrip(n as real) == (n + Slip(n)) as real
  {
    var q := n as real / 1_000_000.0;
    Times32768(q);
    Times16(32768.0 * q);
    assert 524_288.0 * q == (n * 524_288) as real / 1_000_000.0;
    var m := RoundedQuotient(n * 524_288);
    assert NearestPositive(524_288.0 * q) == m as real;
    var r := m * 1_000_000 - n * 524_288;
    var back := m as real / 524_288.0 * 1_000_000.0;
    assert NearestPositive(q) == m as real / 524_288.0;
    assert back == n as real + r as real / 524_288.0;
    assert NearestPositive(back) == HalfEven(back) as real;
    Misses(n, m, r);
    RoundedMiss(n, r);
  }

  /** The miss in terms of the remainder. */
  lemma {:induction false} Misses(n: int, m: int, r: int)
    requires r == m * 1_000_000 - n * 524_288 && -500_000 <= r <= 500_000
    ensures r == if Remainder(n) <= 7812 then -64 * Remainder(n) else 1_000_000 - 64 * Remainder(n)
  {
    var c, g := Remainder(n), n * 8192 / 15625;
    assert n * 8192 == 15625 * g + c && 0 <= c < 15625;
    assert r == 1_000_000 * (m - g) - 64 * c;
  }

  lemma {:induction false} RoundedMiss(n: int, r: int)
    requires TWO_33 * 1_000_000 <= n
    requires r == if Remainder(n) <= 7812 then -64 * Remainder(n) else 1_000_000 - 64 * Remainder(n)
    requires -500_000 <= r <= 500_000
    ensures HalfEven(n as real + r as real / 524_288.0) == n + Slip(n)
  {
    hide Remainder, HalfEven;
    RoundedPart(n, r);
  }

  /** A whole number and a part of less than one, rounded. */
  lemma {:induction false} RoundedPart(n: int, r: int)
    requires -500_000 <= r <= 500_000
    ensures HalfEven(n as real + r as real / 524_288.0)
         == if -262_144 < r < 262_144 || (n % 2 == 0 && (r == 262_144 || r == -262_144)) then n
            else if 0 < r then n + 1 else n - 1
  {
    var back := n as real + r as real / 524_288.0;
    if r == 262_144 {
      assert back.Floor == n;
    } else if r == -262_144 {
      assert back.Floor == n - 1;
    } else if -262_144 < r < 262_144 {
      HalfEvenIs(back, n);
    } else if 0 < r {
      HalfEvenIs(back, n + 1);
    } else {
      HalfEvenIs(back, n - 1);
    }
  }

  // ---------------------------------------------------------------- what the client reads

  function Slipped(v: real, slip: int, unit: real): real {
    if slip == 0 then v else if slip < 0 then v - unit else v + unit
  }

  lemma {:induction false} ComesBack(n: int)
    requires INT_52 <= n < INT_53
    ensures RoundTrip(n as real) == (n + Slip(n)) as real
  {
    hide RoundTrip, Remainder;
    if n < TWO_33 * 1_000_000 {
      LowComesBack(n);
    } else {
      HighSlips(n);
    }
  }

  /** An amount comes back as itself, or missed by the distance of neighbouring doubles. */
  lemma {:induction false} AmountComesBack(v: int)
    requires 0 < v < INT_53
    ensures RoundTrip(v as real) == Slipped(v as real, Slip(Shifted(v)), Unit(v as real))
    decreases INT_53 - v
  {
    hide RoundTrip, Slip;
    if INT_52 <= v {
      ComesBack(v);
      WithinDigits(v as real);
    } else {
      AmountComesBack(2 * v);
      RoundTripDoubles(v as real);
      Doubling(v as real);
      assert (2 * v) as real == 2.0 * v as real;
    }
  }

  /** From the octave of `2^33` on, neighbouring doubles are more than a millionth apart, and not before. */
  lemma {:induction false} UnitsApart(v: int)
    requires 0 < v < INT_53
    ensures v < TWO_33 ==> Unit(v as real) <= 1.0 / 1_048_576.0
    ensures TWO_33 <= v ==> 1.0 / 524_288.0 <= Unit(v as real)
    ensures v < INT_52 ==> Unit(v as real) <= 0.5
    ensures INT_52 <= v ==> Unit(v as real) == 1.0
  {
    hide Unit;
    var x := v as real;
    Times32768(x);
    if v < TWO_33 {
      Times32(32768.0 * x);
      UnitNearOne(1_048_576.0 * x);
    } else {
      Times16(32768.0 * x);
      UnitNearOne(524_288.0 * x);
    }
    Doubling(x);
    UnitNearOne(2.0 * x);
    UnitNearOne(x);
  }

  lemma {:induction false} UnitNearOne(x: real)
    requires 0.0 < x
    ensures x < TWO_53 ==> Unit(x) <= 1.0
    ensures TWO_52 <= x ==> 1.0 <= Unit(x)
  {
    if x < TWO_52 {
      PositiveMono(x, TWO_52);
    } else if TWO_53 <= x {
      Beyond(x);
    }
  }

  /** A scaled amount that is off by a small part is read as the amount, and by a large part as nothing. */
  lemma {:induction false} ReadOff(scaled: real, v: int, d: real)
    requires scaled == v as real + d && -0.5 <= d <= 0.5 && Size(v) < INT_53
    ensures var whole := Round(scaled);
            && (Magnitude(d) < 0.5 ==> whole == v) && (Magnitude(d) == 0.5 ==> whole == v || whole == v + 1)
    ensures var off := Nearest(scaled - Round(scaled) as real);
            && (Magnitude(d) <= 1.0 / 1_048_576.0 ==> Magnitude(off) <= Nearest(0.000_001))
            && (1.0 / 524_288.0 <= Magnitude(d) ==> Nearest(0.000_001) < Magnitude(off))
  {
    hide NearestPositive;
    NearestClose(0.000_001);
    var off := scaled - Round(scaled) as real;
    if off != 0.0 {
      NearestClose(Magnitude(off));
    }
  }

  // ---------------------------------------------------------------- beyond the safe integers

  lemma {:induction false} RoundedIsDouble(x: real)
    requires 0.0 < x
    ensures NearestPositive(NearestPositive(x)) == NearestPositive(x)
    decreases if x < TWO_52 then 1 else 0, Distance(x)
  {
    hide Distance, HalfEven;
    if x < TWO_52 {
      hide NearestPositive;
      Halved(x);
      RoundedIsDouble(2.0 * x);
      Doubling(x);
      Doubling(NearestPositive(x));
    } else if TWO_53 <= x {
      hide NearestPositive;
      NearerHalved(x);
      RoundedIsDouble(x / 2.0);
      Doubling(x / 2.0);
      Doubling(NearestPositive(x / 2.0));
    } else {
      WholeOfDigits(x);
    }
  }

  lemma {:induction false} WholeOfDigits(x: real)
    requires TWO_52 <= x < TWO_53
    ensures INT_52 <= HalfEven(x) <= INT_53 && NearestPositive(HalfEven(x) as real) == HalfEven(x) as real
  {
    assert INT_52 <= x.Floor < INT_53;
    var n := HalfEven(x);
    hide HalfEven;
    if n < INT_53 {
      WholeIsExact(n);
    } else {
      WholeIsExact(INT_52);
      Doubling(TWO_52);
    }
  }

  /** Amounts from `2^53` on stay there. */
  lemma {:induction false} StaysLarge(x: real)
    requires TWO_53 <= x && NearestPositive(x) == x
    ensures TWO_53 <= RoundTrip(x)
    decreases x.Floor
  {
    hide RoundTrip, HalfEven;
    var half := x / 2.0;
    FloorHalved(x);
    Doubling(half);
    RoundTripDoubles(half);
    if TWO_53 <= half {
      StaysLarge(half);
    } else {
      var n := HalfEven(half);
      assert half == n as real;
      ComesBack(n);
      StaysInOctave(n);
    }
  }

  lemma {:induction false} StaysInOctave(n: int)
    requires INT_52 <= n
    ensures INT_52 <= n + Slip(n)
  {
  }

  // ---------------------------------------------------------------- the whole way

  /** What the client has before it rounds. */
  lemma {:induction false} ScaledAmount(v: int)
    requires v != 0
    ensures var x := NearestPositive(Size(v) as real);
            Nearest(Usd(v) * 1_000_000.0) == if 0 < v then RoundTrip(x) else -RoundTrip(x)
  {
    hide NearestPositive;
    var x := NearestPositive(Size(v) as real);
    assert -(v as real) == (-v) as real;
    if 0 < v {
      assert Nearest(v as real) == x && Usd(v) == NearestPositive(x / 1_000_000.0);
    } else {
      assert Nearest(v as real) == -x && -(-x / 1_000_000.0) == x / 1_000_000.0;
      var q := NearestPositive(x / 1_000_000.0);
      assert Usd(v) == -q && -(-q * 1_000_000.0) == q * 1_000_000.0;
    }
  }

  lemma {:induction false} LargeIsRefused(v: int)
    requires !Safe(v)
    ensures ToMicroUnits(Usd(v)) == None
  {
    hide NearestPositive, RoundTrip;
    var x := NearestPositive(Size(v) as real);
    Beyond(Size(v) as real);
    RoundedIsDouble(Size(v) as real);
    StaysLarge(x);
    ScaledAmount(v);
  }

  lemma {:induction false} NoAmount()
    ensures ToMicroUnits(Usd(0)) == Some(0)
  {
  }

  /** What an amount is read as: itself, nothing, or from `2^52` micro-units on possibly its neighbour. */
  function ReadAs(v: int): Option<int> {
    if Survives(v) then Some(v)
    else if !Safe(v) || Size(v) < INT_52 || MAX_SAFE < Size(v) + Slip(Size(v)) then None
    else Some(if v < 0 then v - Slip(Size(v)) else v + Slip(Size(v)))
  }

  /**
   The client reads an amount as what it was exactly when it survives; an amount of less than `2^52` micro-units that
   does not is not read at all, nor is any that is not a safe integer.
   */
  lemma {:induction false} ReadsBack(v: int)
    ensures ToMicroUnits(Usd(v)) == ReadAs(v)
    ensures ToMicroUnits(Usd(v)) == Some(v) <==> Survives(v)
    ensures !Survives(v) && (Size(v) < INT_52 || !Safe(v)) ==> ToMicroUnits(Usd(v)) == None
  {
    hide NearestPositive, RoundTrip, Usd, ToMicroUnits, Shifted, Cancels;
    if !Safe(v) {
      LargeIsRefused(v);
    } else if v == 0 {
      NoAmount();
    } else {
      SafeIsRead(v);
    }
  }

  lemma {:induction false} SafeIsRead(v: int)
    requires Safe(v) && v != 0
    ensures ToMicroUnits(Usd(v)) == ReadAs(v)
    ensures ToMicroUnits(Usd(v)) == Some(v) <==> Survives(v)
  {
    hide NearestPositive, RoundTrip, Usd, Shifted, Remainder, Unit, Round, Nearest;
    var size := Size(v);
    WholeIsExact(size);
    ScaledAmount(v);
    AmountComesBack(size);
    UnitsApart(size);
    var scaled, slip := Nearest(Usd(v) * 1_000_000.0), Slip(Shifted(size));
    var d := scaled - v as real;
    if slip == 0 || size < INT_52 {
      ReadOff(scaled, v, d);
    } else {
      FullyShifted(size);
      ReadsNext(scaled, v, if 0 < v then slip else -slip);
    }
  }

  lemma {:induction false} FullyShifted(n: int)
    requires INT_52 <= n < INT_53
    ensures Shifted(n) == n
  {
  }

  lemma {:induction false} ReadsNext(scaled: real, v: int, d: int)
    requires scaled == (v + d) as real && (d == 1 || d == -1)
    ensures Round(scaled) == v + d && Magnitude(Nearest(scaled - Round(scaled) as real)) <= Nearest(0.000_001)
  {
    hide NearestPositive;
  }

  lemma {:induction false} Shift32(v: int)
    requires 0 < v && 16 * v < INT_52
    ensures Shifted(v) == Shifted(32 * v)
  {
    assert Shifted(v) == Shifted(2 * v) == Shifted(4 * v) == Shifted(8 * v) == Shifted(16 * v);
  }

  lemma {:induction false} Shift32768(v: int)
    requires 0 < v && 16_384 * v < INT_52
    ensures Shifted(v) == Shifted(32_768 * v)
  {
    hide Shifted;
    Shift32(v);
    Shift32(32 * v);
    Shift32(1_024 * v);
  }

  /** An amount whose shifted digits are known, and do not cancel. */
  lemma {:induction false} NotSurviving(v: int, n: int)
    requires TWO_33 <= v < INT_53 && Shifted(v) == n && !Cancels(n)
    ensures !Survives(v)
  {
  }

  /** Some amounts of seventeen thousand dollars and more that the client does not read. */
  lemma {:induction false} OrdinaryAmountsRefused()
    ensures !Survives(17_009_283_511) && !Survives(34_170_413_829) && !Survives(66_224_955_381)
    ensures ToMicroUnits(Usd(17_009_283_511)) == None
  {
    hide ToMicroUnits, Usd, Survives;
    FirstRefused();
    SecondRefused();
    ThirdRefused();
    ReadsBack(17_009_283_511);
  }

  lemma {:induction false} FirstRefused()
    ensures !Survives(17_009_283_511)
  {
    var v := 17_009_283_511;
    Shift32768(v);
    ShiftedFrom(32_768 * v);
    NotSurviving(v, 524_288 * v);
  }

  lemma {:induction false} SecondRefused()
    ensures !Survives(34_170_413_829)
  {
    var v := 34_170_413_829;
    Shift32768(v);
    ShiftedFrom(32_768 * v);
    NotSurviving(v, 262_144 * v);
  }

  lemma {:induction false} ThirdRefused()
    ensures !Survives(66_224_955_381)
  {
    var v := 66_224_955_381;
    Shift32768(v);
    ShiftedFrom(32_768 * v);
    NotSurviving(v, 131_072 * v);
  }

  lemma {:induction false} ShiftedFrom(v: int)
    requires 0 < v < INT_53
    ensures INT_52 <= 4 * v < INT_53 ==> Shifted(v) == 4 * v
    ensures INT_52 <= 8 * v < INT_53 ==> Shifted(v) == 8 * v
    ensures INT_52 <= 16 * v < INT_53 ==> Shifted(v) == 16 * v
  {
    if 2 * v < INT_53 {
      assert v < INT_52 ==> Shifted(v) == Shifted(2 * v);
      assert 2 * v < INT_52 ==> Shifted(2 * v) == Shifted(4 * v);
      assert 4 * v < INT_52 ==> Shifted(4 * v) == Shifted(8 * v);
      assert 8 * v < INT_52 ==> Shifted(8 * v) == Shifted(16 * v);
    }
  }
}
