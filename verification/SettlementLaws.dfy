/** What holds of every settlement, whatever the order of its legs and however they are resolved later. */
module SettlementLaws {
  import opened Common
  import opened Settlement

  // ---------------------------------------------------------------- the order of the legs

  lemma {:induction false} FactorsWithout(original: int, legs: seq<Leg>, k: nat)
    requires k < |legs|
    ensures Numerator(original, legs) == Numerator(original, Without(legs, k)) * Factor(legs[k])
    ensures Denominator(legs) == Denominator(Without(legs, k)) * Scale(legs[k])
  {
    hide Factor, Scale;
    var n := |legs| - 1;
    if k == n {
      assert Without(legs, k) == legs[..n];
    } else {
      var rest := Without(legs, k);
      FactorsWithout(original, legs[..n], k);
      assert rest[..|rest| - 1] == Without(legs[..n], k) && rest[|rest| - 1] == legs[n];
      Swap(Numerator(original, rest[..|rest| - 1]), Factor(legs[n]), Factor(legs[k]));
      Swap(Denominator(rest[..|rest| - 1]), Scale(legs[n]), Scale(legs[k]));
    }
  }

  lemma {:induction false} Swap(a: int, b: int, c: int)
    ensures a * c * b == a * b * c
  {
  }

  lemma {:induction false} SameFactors(original: int, a: seq<Leg>, b: seq<Leg>)
    requires multiset(a) == multiset(b)
    ensures Numerator(original, a) == Numerator(original, b) && Denominator(a) == Denominator(b)
  {
    if a == [] {
      assert |multiset(b)| == 0;
    } else {
      var n := |a| - 1;
      assert a[n] in multiset(b);
      var k :| 0 <= k < |b| && b[k] == a[n];
      SameWithout(a, b, n, k);
      assert Without(a, n) == a[..n];
      SameFactors(original, a[..n], Without(b, k));
      FactorsWithout(original, b, k);
    }
  }

  lemma {:induction false} SameStatuses(a: seq<Leg>, b: seq<Leg>, status: Status)
    requires multiset(a) == multiset(b)
    ensures Has(a, status) ==> Has(b, status)
  {
    if Has(a, status) {
      var i :| 0 <= i < |a| && a[i].status == status;
      assert a[i] in multiset(b);
    }
  }

  /** What remains after dropping position `k` stands at another position. */
  lemma {:induction false} Elsewhere(legs: seq<Leg>, k: nat, leg: Leg) returns (j: nat)
    requires k < |legs| && leg in multiset(Without(legs, k))
    ensures j < |legs| && j != k && legs[j] == leg
  {
    var rest := Without(legs, k);
    var i :| 0 <= i < |rest| && rest[i] == leg;
    j := if i < k then i else i + 1;
  }

  lemma {:induction false} DistinctWithout(legs: seq<Leg>, k: nat)
    requires k < |legs| && DistinctIds(legs)
    ensures DistinctIds(Without(legs, k))
  {
  }

  /** No other leg has the id of leg `k`. */
  lemma {:induction false} OtherIds(a: seq<Leg>, k: nat, leg: Leg)
    requires k < |a| && DistinctIds(a) && leg in multiset(Without(a, k))
    ensures leg.id != a[k].id
  {
    hide Without;
    var j := Elsewhere(a, k, leg);
  }

  /** Legs among the others have other ids. */
  lemma {:induction false} AmongOthers(a: seq<Leg>, k: nat, legs: seq<Leg>)
    requires k < |a| && DistinctIds(a) && multiset(legs) == multiset(Without(a, k))
    ensures forall i :: 0 <= i < |legs| ==> legs[i].id != a[k].id
  {
    hide Without, DistinctIds;
    forall i | 0 <= i < |legs|
      ensures legs[i].id != a[k].id
    {
      assert legs[i] in multiset(legs);
      OtherIds(a, k, legs[i]);
    }
  }

  lemma {:induction false} AppendDistinct(legs: seq<Leg>, init: seq<Leg>)
    requires legs != [] && init == legs[..|legs| - 1] && DistinctIds(init)
    requires forall i :: 0 <= i < |init| ==> init[i].id != legs[|legs| - 1].id
    ensures DistinctIds(legs)
  {
    assert forall i :: 0 <= i < |init| ==> init[i] == legs[i];
  }

  /** The last leg of one list, found in the other, with what is left of both. */
  lemma {:induction false} LastFound(a: seq<Leg>, b: seq<Leg>) returns (k: nat)
    requires multiset(a) == multiset(b) && b != []
    ensures k < |a| && a[k] == b[|b| - 1] && multiset(Without(a, k)) == multiset(b[..|b| - 1])
  {
    assert b[|b| - 1] in multiset(a);
    k :| 0 <= k < |a| && a[k] == b[|b| - 1];
    SameWithout(a, b, k, |b| - 1);
    assert Without(b, |b| - 1) == b[..|b| - 1];
  }

  lemma {:induction false} SameDistinct(a: seq<Leg>, b: seq<Leg>)
    requires multiset(a) == multiset(b) && DistinctIds(a)
    ensures DistinctIds(b)
    decreases |b|
  {
    if b != [] {
      hide DistinctIds, Without;
      var k := LastFound(a, b);
      DistinctWithout(a, k);
      var init := b[..|b| - 1];
      SameDistinct(Without(a, k), init);
      AmongOthers(a, k, init);
      AppendDistinct(b, init);
    }
  }

  lemma {:induction false} SameLegs(a: seq<Leg>, b: seq<Leg>)
    requires multiset(a) == multiset(b) && forall i :: 0 <= i < |a| ==> LegIsValid(a[i])
    ensures forall i :: 0 <= i < |b| ==> LegIsValid(b[i])
  {
    forall i | 0 <= i < |b|
      ensures LegIsValid(b[i])
    {
      assert b[i] in multiset(a);
    }
  }

  lemma {:induction false} ValidInAnyOrder(a: Input, b: Input)
    requires a.stake == b.stake && a.original == b.original && multiset(a.legs) == multiset(b.legs) && Valid(a)
    ensures Valid(b)
  {
    hide LegIsValid, DistinctIds;
    SameDistinct(a.legs, b.legs);
    SameLegs(a.legs, b.legs);
    assert |multiset(a.legs)| == |a.legs|;
  }

  /** The order of the legs decides neither whether an input is accepted nor what it pays. */
  lemma {:induction false} OrderDoesNotMatter(a: Input, b: Input)
    requires a.stake == b.stake && a.original == b.original && multiset(a.legs) == multiset(b.legs)
    ensures (Valid(a) <==> Valid(b)) && VerdictOf(a) == VerdictOf(b)
  {
    if Valid(a) {
      ValidInAnyOrder(a, b);
    }
    if Valid(b) {
      ValidInAnyOrder(b, a);
    }
    hide Valid;
    forall status: Status
      ensures Has(a.legs, status) <==> Has(b.legs, status)
    {
      SameStatuses(a.legs, b.legs, status);
      SameStatuses(b.legs, a.legs, status);
    }
    hide Has;
    SameFactors(a.original, a.legs, b.legs);
  }

  /** Every leg is listed under its own status, and the lists hold no more ids than there are legs. */
  lemma {:induction false} EveryLegIsListed(legs: seq<Leg>)
    ensures forall i :: 0 <= i < |legs| ==> legs[i].id in IdsOf(legs, legs[i].status)
    ensures |IdsOf(legs, Won)| + |IdsOf(legs, Voided)| + |IdsOf(legs, Lost)|
            + |IdsOf(legs, Pending)| + |IdsOf(legs, Disputed)| == |legs|
  {
    if legs != [] {
      var init := legs[..|legs| - 1];
      EveryLegIsListed(init);
      forall i | 0 <= i < |init|
        ensures legs[i].id in IdsOf(legs, legs[i].status)
      {
        assert init[i] == legs[i];
      }
    }
  }

  /** How many of the first `n` legs have a status. */
  function Count(legs: seq<Leg>, status: Status, n: nat): nat
    requires n <= |legs|
  {
    if n == 0 then 0 else Count(legs, status, n - 1) + (if legs[n - 1].status == status then 1 else 0)
  }

  lemma {:induction false} CountWithin(legs: seq<Leg>, status: Status, i: nat, n: nat)
    requires i <= n <= |legs|
    ensures Count(legs, status, i) <= Count(legs, status, n)
    ensures i < n && legs[i].status == status ==> Count(legs, status, i) < Count(legs, status, n)
  {
    if i < n {
      CountWithin(legs, status, i, n - 1);
    }
  }

  lemma {:induction false} CountPrefix(legs: seq<Leg>, status: Status, n: nat, k: nat)
    requires n <= k <= |legs|
    ensures Count(legs[..k], status, n) == Count(legs, status, n)
  {
    if n != 0 {
      CountPrefix(legs, status, n - 1, k);
    }
  }

  /** The list of a status holds the ids of exactly the legs with that status, in the order of the legs. */
  lemma {:induction false} ListsInOrder(legs: seq<Leg>, status: Status)
    ensures |IdsOf(legs, status)| == Count(legs, status, |legs|)
    ensures forall i :: 0 <= i < |legs| && legs[i].status == status ==>
              && Count(legs, status, i) < |IdsOf(legs, status)|
              && IdsOf(legs, status)[Count(legs, status, i)] == legs[i].id
  {
    if legs != [] {
      var n := |legs| - 1;
      var init := legs[..n];
      ListsInOrder(init, status);
      CountPrefix(legs, status, n, n);
      forall i | 0 <= i < |legs| && legs[i].status == status
        ensures Count(legs, status, i) < |IdsOf(legs, status)|
        ensures IdsOf(legs, status)[Count(legs, status, i)] == legs[i].id
      {
        CountWithin(legs, status, i, |legs|);
        if i < n {
          assert init[i] == legs[i];
          CountPrefix(legs, status, i, n);
        }
      }
    }
  }

  // ---------------------------------------------------------------- what every verdict is

  function VoidedPrices(legs: seq<Leg>): seq<int> {
    if legs == [] then []
    else
      var last := legs[|legs| - 1];
      VoidedPrices(legs[..|legs| - 1]) + (if last.status == Voided then [last.price] else [])
  }

  function Product(factors: seq<int>): int {
    if factors == [] then 1 else Product(factors[..|factors| - 1]) * factors[|factors| - 1]
  }

  function TenThousandTo(k: nat): int {
    if k == 0 then 1 else TenThousandTo(k - 1) * 10000
  }

  /** `q` is a quotient rounded down. */
  predicate RoundsDown(q: int, dividend: int, divisor: int) {
    q * divisor <= dividend < (q + 1) * divisor
  }

  lemma {:induction false} VoidedFactors(original: int, legs: seq<Leg>)
    ensures Numerator(original, legs) == original * Product(VoidedPrices(legs))
    ensures Denominator(legs) == TenThousandTo(|VoidedPrices(legs)|)
  {
    if legs != [] {
      var init, last := legs[..|legs| - 1], legs[|legs| - 1];
      VoidedFactors(original, init);
      var prices := VoidedPrices(init);
      if last.status == Voided {
        assert (prices + [last.price])[..|prices|] == prices;
        assert Product(prices + [last.price]) == Product(prices) * last.price;
        Regroup(original, Product(prices), last.price);
      } else {
        assert prices + [] == prices;
      }
    }
  }

  lemma {:induction false} Regroup(a: int, b: int, c: int)
    ensures a * b * c == a * (b * c)
  {
  }

  /**
   Every verdict, in the order of its causes. With a won leg and none lost, pending or disputed the payout is the larger
   of the stake and the original offer times the voided prices, each a part of ten thousand, rounded down once.
   */
  lemma {:induction false} VerdictMeans(input: Input)
    requires Valid(input)
    ensures var legs, verdict := input.legs, VerdictOf(input);
            var prices := VoidedPrices(legs);
            if exists i :: 0 <= i < |legs| && legs[i].status == Lost then verdict == Final(Lost, 0)
            else if exists i :: 0 <= i < |legs| && (legs[i].status == Pending || legs[i].status == Disputed)
            then verdict == Unresolved
            else if forall i :: 0 <= i < |legs| ==> legs[i].status == Voided
            then verdict == Final(Voided, input.stake)
            else
              && verdict.Final? && verdict.status == Won
              && exists q :: && RoundsDown(q, input.original * Product(prices), TenThousandTo(|prices|))
                             && verdict.payout == if q < input.stake then input.stake else q
  {
    var legs := input.legs;
    VoidedFactors(input.original, legs);
    var n, d := Numerator(input.original, legs), Denominator(legs);
    hide Numerator, Denominator, VoidedPrices, Product, TenThousandTo;
    FloorBounds(n, d);
    assert (n / d + 1) * d == n / d * d + d;
    assert RoundsDown(n / d, n, d);
  }

  // ---------------------------------------------------------------- resolving the remaining legs

  /** A later view of the same legs: only pending and disputed legs may have changed their status. */
  ghost predicate Resolves(earlier: Input, later: Input) {
    && earlier.stake == later.stake && earlier.original == later.original
    && |earlier.legs| == |later.legs|
    && forall i :: 0 <= i < |earlier.legs| ==>
         var e, l := earlier.legs[i], later.legs[i];
         e.id == l.id && e.price == l.price && (e.status == l.status || e.status == Pending || e.status == Disputed)
  }

  /** A final verdict stands whatever the remaining legs turn out to be. */
  lemma {:induction false} FinalVerdictsStand(earlier: Input, later: Input)
    requires Resolves(earlier, later) && VerdictOf(earlier).Final?
    ensures VerdictOf(later) == VerdictOf(earlier)
  {
    if Has(earlier.legs, Lost) {
      var i :| 0 <= i < |earlier.legs| && earlier.legs[i].status == Lost;
      assert later.legs[i].status == Lost;
    } else {
      assert !Has(earlier.legs, Pending) && !Has(earlier.legs, Disputed);
      forall i | 0 <= i < |earlier.legs|
        ensures earlier.legs[i] == later.legs[i]
      {
      }
      assert earlier.legs == later.legs;
    }
  }

  // ---------------------------------------------------------------- bounds

  lemma {:induction false} FactorsShrink(original: int, legs: seq<Leg>)
    requires 0 <= original && forall i :: 0 <= i < |legs| ==> LegIsValid(legs[i])
    ensures 0 <= Numerator(original, legs) <= original * Denominator(legs)
  {
    if legs != [] {
      var init, last := legs[..|legs| - 1], legs[|legs| - 1];
      FactorsShrink(original, init);
      assert LegIsValid(last);
      ShrinkStep(original, Numerator(original, init), Denominator(init), Factor(last), Scale(last));
    }
  }

  lemma {:induction false} ShrinkStep(original: nat, n: nat, d: Positive, f: nat, s: Positive)
    requires n <= original * d && f <= s
    ensures 0 <= n * f <= original * (d * s)
  {
    MulMono(f, s, n);
    MulMono(n, original * d, s);
    assert original * d * s == original * (d * s);
  }

  /** A combination that is not lost pays at least the stake and at most the larger of stake and offer. */
  lemma {:induction false} PayoutBounds(input: Input, status: Status, payout: int)
    requires Valid(input) && VerdictOf(input) == Final(status, payout)
    ensures status in {Won, Voided, Lost}
    ensures status == Lost ==> payout == 0
    ensures status != Lost ==> input.stake <= payout <= Max(input.stake, input.original)
  {
    FactorsShrink(input.original, input.legs);
    hide Numerator, Denominator, Has;
    var d := Denominator(input.legs);
    FloorMono(Numerator(input.original, input.legs), input.original * d, d);
    FloorExact(input.original, d);
  }

  lemma {:induction false} NothingVoided(original: int, legs: seq<Leg>)
    requires !Has(legs, Voided)
    ensures Numerator(original, legs) == original && Denominator(legs) == 1
  {
    if legs != [] {
      assert legs[|legs| - 1].status != Voided;
      HasLast(legs, Voided);
      NothingVoided(original, legs[..|legs| - 1]);
    }
  }

  /** A combination that is won outright pays the larger of stake and offer. */
  lemma {:induction false} WonOutright(input: Input)
    requires Valid(input) && forall i :: 0 <= i < |input.legs| ==> input.legs[i].status == Won
    ensures VerdictOf(input) == Final(Won, Max(input.stake, input.original))
  {
    assert input.legs[0].status == Won;
    NothingVoided(input.original, input.legs);
  }

  // ---------------------------------------------------------------- voiding a won leg

  function Void(input: Input, i: nat): Input
    requires i < |input.legs|
  {
    input.(legs := input.legs[i := input.legs[i].(status := Voided)])
  }

  lemma {:induction false} VoidFactors(input: Input, i: nat)
    requires i < |input.legs| && input.legs[i].status == Won
    ensures Numerator(input.original, Void(input, i).legs)
            == Numerator(input.original, input.legs) * input.legs[i].price
    ensures Denominator(Void(input, i).legs) == Denominator(input.legs) * SCALE
  {
    var after := Void(input, i).legs;
    FactorsWithout(input.original, input.legs, i);
    FactorsWithout(input.original, after, i);
    assert Without(after, i) == Without(input.legs, i);
  }

  lemma {:induction false} VoidStatuses(input: Input, i: nat)
    requires i < |input.legs| && input.legs[i].status == Won
    ensures forall status :: status != Won && status != Voided ==>
                               (Has(Void(input, i).legs, status) <==> Has(input.legs, status))
    ensures Has(input.legs, Won)
    ensures Has(Void(input, i).legs, Voided)
  {
    var after := Void(input, i).legs;
    assert after[i].status == Voided;
    forall status: Status | status != Won && status != Voided
      ensures Has(after, status) <==> Has(input.legs, status)
    {
      if Has(after, status) {
        var k :| 0 <= k < |after| && after[k].status == status;
        assert input.legs[k].status == status;
      }
      if Has(input.legs, status) {
        var k :| 0 <= k < |after| && input.legs[k].status == status;
        assert after[k].status == status;
      }
    }
  }

  lemma {:induction false} ScaledDown(n: nat, d: Positive, price: nat)
    requires price <= SCALE
    ensures 0 < d * SCALE && n * price / (d * SCALE) <= n / d
  {
    MulMono(1, SCALE, d);
    MulMono(price, SCALE, n);
    FloorMono(n * price, n * SCALE, d * SCALE);
    FloorBounds(n, d);
    var q := n / d;
    MulMono(n + 1, q * d + d, SCALE);
    assert (q * d + d) * SCALE == q * (d * SCALE) + d * SCALE;
    MulMono(q * d, n, SCALE);
    assert q * d * SCALE == q * (d * SCALE);
    FloorUnique(q, n * SCALE, d * SCALE);
  }

  /** Turning a won leg into a voided one never raises the payout, and never makes a final verdict open. */
  lemma {:induction false} VoidingNeverRaises(input: Input, i: nat, status: Status, payout: int)
    requires Valid(input) && i < |input.legs| && input.legs[i].status == Won
    requires VerdictOf(input) == Final(status, payout)
    ensures VerdictOf(Void(input, i)).Final? && VerdictOf(Void(input, i)).payout <= payout
  {
    VoidFactors(input, i);
    VoidStatuses(input, i);
    FactorsShrink(input.original, input.legs);
    assert LegIsValid(input.legs[i]);
    hide Numerator, Denominator, Has, Valid;
    ScaledDown(Numerator(input.original, input.legs), Denominator(input.legs), input.legs[i].price);
  }
}
