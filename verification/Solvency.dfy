/** Solvency floors in micro-units, and how ceilings per basket compare with one ceiling for all of them. */
module Solvency {
  import opened Common

  datatype Status = Healthy | OperatingBufferBreached | CollateralShortfall

  datatype Field = EligibleAssets | SeniorUserObligations | GrossUnresolvedPayouts | PendingBasketStake
    | PendingBasketMaxPayout | ProtocolFeePayable | ApprovedExpensePayable | LpRedemptionPayable | FixedOperatingBuffer
    | PendingBasketCapacityCharge

  datatype Input = Input(assets: int, senior: int, gross: int, basketStake: Option<int>, basketPayout: Option<int>,
                         basketCharge: Option<int>, fees: Option<int>, expenses: Option<int>,
                         redemptions: Option<int>, buffer: Option<int>)

  datatype Evaluation = Evaluation(hardFloor: int, coverageBuffer: int, basketCharge: int, withdrawalFloor: int,
                                   aboveSolvency: int, aboveWithdrawal: int, status: Status)

  function OrZero(x: Option<int>): int {
    if x.Some? then x.value else 0
  }

  function CeilRatio(value: int, numerator: int, denominator: int): Option<int> {
    if value < 0 || numerator < 0 || denominator <= 0 then None
    else Some((value * numerator + denominator - 1) / denominator)
  }

  /** The smallest whole number that is at least `a / d`. */
  function Ceil(a: int, d: Positive): int {
    (a + d - 1) / d
  }

  lemma {:induction false} CeilMeans(a: int, d: Positive, q: int)
    ensures a <= Ceil(a, d) * d < a + d
    ensures Ceil(a, d) <= q <==> a <= q * d
  {
    var c := Ceil(a, d);
    FloorBounds(a + d - 1, d);
    if c <= q {
      MulMono(c, q, d);
    } else {
      MulGap(q, c, d);
    }
  }

  /** The ratio is refused exactly for invalid arguments, and is otherwise the least that covers the share. */
  lemma {:induction false} CeilRatioMeans(value: int, numerator: int, denominator: int, q: int)
    ensures CeilRatio(value, numerator, denominator).Some? <==> 0 <= value && 0 <= numerator && 0 < denominator
    ensures CeilRatio(value, numerator, denominator).Some? ==>
              (CeilRatio(value, numerator, denominator).value <= q <==> value * numerator <= q * denominator)
  {
    if 0 <= value && 0 <= numerator && 0 < denominator {
      CeilMeans(value * numerator, denominator, q);
    }
  }

  /** The first negative figure, in the order in which they are checked. */
  function FirstNegative(i: Input): Option<Field> {
    if i.assets < 0 then Some(EligibleAssets)
    else if i.senior < 0 then Some(SeniorUserObligations)
    else if i.gross < 0 then Some(GrossUnresolvedPayouts)
    else if OrZero(i.basketStake) < 0 then Some(PendingBasketStake)
    else if OrZero(i.basketPayout) < 0 then Some(PendingBasketMaxPayout)
    else if OrZero(i.fees) < 0 then Some(ProtocolFeePayable)
    else if OrZero(i.expenses) < 0 then Some(ApprovedExpensePayable)
    else if OrZero(i.redemptions) < 0 then Some(LpRedemptionPayable)
    else if OrZero(i.buffer) < 0 then Some(FixedOperatingBuffer)
    else if OrZero(i.basketCharge) < 0 then Some(PendingBasketCapacityCharge)
    else None
  }

  /** What baskets need beyond their stake, when one ceiling is taken over all of them. */
  function AggregateCharge(stake: int, payout: int): int {
    var requirement := Ceil(payout * 125, 100);
    if requirement > stake then requirement - stake else 0
  }

  function Evaluate(i: Input): Result<Evaluation, Field> {
    match FirstNegative(i)
    case Some(field) => Err(field)
    case None =>
      var hard := i.senior + i.gross;
      var coverage := Ceil(i.gross * 25, 100);
      var charge := if i.basketCharge.Some? then i.basketCharge.value
                    else AggregateCharge(OrZero(i.basketStake), OrZero(i.basketPayout));
      var payables := OrZero(i.fees) + OrZero(i.expenses) + OrZero(i.redemptions);
      var floor := hard + coverage + charge + payables + OrZero(i.buffer);
      Ok(Evaluation(hard, coverage, charge, floor, i.assets - hard,
                    if i.assets > floor then i.assets - floor else 0,
                    if i.assets < hard then CollateralShortfall
                    else if i.assets < floor then OperatingBufferBreached else Healthy))
  }

  /** Every figure of an evaluation is consistent with its status. */
  lemma {:induction false} StatusMeans(i: Input, e: Evaluation)
    requires Evaluate(i) == Ok(e)
    ensures 0 <= e.hardFloor <= e.withdrawalFloor && 0 <= e.coverageBuffer && 0 <= e.basketCharge
    ensures e.status == CollateralShortfall <==> e.aboveSolvency < 0
    ensures e.status == Healthy <==> e.withdrawalFloor <= i.assets
    ensures 0 < e.aboveWithdrawal ==> e.status == Healthy && e.withdrawalFloor + e.aboveWithdrawal == i.assets
    ensures e.status == Healthy ==> e.aboveWithdrawal == i.assets - e.withdrawalFloor
  {
    CeilMeans(i.gross * 25, 100, -1);
  }

  predicate Negative(x: Option<int>) {
    x.Some? && x.value < 0
  }

  /** `q` is a quotient rounded up. */
  predicate RoundsUp(q: int, dividend: int, divisor: int) {
    q * divisor - divisor < dividend <= q * divisor
  }

  function Given(x: Option<int>): int {
    match x
    case Some(amount) => amount
    case None => 0
  }

  /** The charge is given, or it is what five quarters of the payouts, rounded up, exceed the stakes by. */
  predicate ChargeOf(charge: int, i: Input) {
    if i.basketCharge.Some? then charge == i.basketCharge.value
    else
      var stake, payout := Given(i.basketStake), Given(i.basketPayout);
      && 0 <= charge && (0 < charge ==> RoundsUp(charge + stake, payout * 125, 100))
      && (charge == 0 ==> payout * 125 <= stake * 100)
  }

  /** Every end of an evaluation: the first negative figure refuses it, and otherwise every figure is what it says. */
  lemma {:induction false} EvaluationMeans(i: Input)
    ensures var r := Evaluate(i);
            if i.assets < 0 then r == Err(EligibleAssets)
            else if i.senior < 0 then r == Err(SeniorUserObligations)
            else if i.gross < 0 then r == Err(GrossUnresolvedPayouts)
            else if Negative(i.basketStake) then r == Err(PendingBasketStake)
            else if Negative(i.basketPayout) then r == Err(PendingBasketMaxPayout)
            else if Negative(i.fees) then r == Err(ProtocolFeePayable)
            else if Negative(i.expenses) then r == Err(ApprovedExpensePayable)
            else if Negative(i.redemptions) then r == Err(LpRedemptionPayable)
            else if Negative(i.buffer) then r == Err(FixedOperatingBuffer)
            else if Negative(i.basketCharge) then r == Err(PendingBasketCapacityCharge)
            else
              && r.Ok?
              && var e := r.value;
                 && e.hardFloor == i.senior + i.gross && RoundsUp(e.coverageBuffer, i.gross * 25, 100)
                 && ChargeOf(e.basketCharge, i)
                 && e.withdrawalFloor == i.senior + i.gross + e.coverageBuffer + e.basketCharge + Given(i.fees)
                                         + Given(i.expenses) + Given(i.redemptions) + Given(i.buffer)
                 && e.aboveSolvency == i.assets - i.senior - i.gross
                 && (if e.withdrawalFloor <= i.assets
                     then e.status == Healthy && e.aboveWithdrawal == i.assets - e.withdrawalFloor
                     else
                       && e.aboveWithdrawal == 0
                       && e.status == if i.assets < i.senior + i.gross then CollateralShortfall
                                      else OperatingBufferBreached)
  {
    CeilMeans(i.gross * 25, 100, 0);
    CeilMeans(Given(i.basketPayout) * 125, 100, Given(i.basketStake));
  }

  // ---------------------------------------------------------------- one ceiling per basket

  datatype Basket = Basket(stake: nat, payout: nat)

  function Stakes(baskets: seq<Basket>): nat {
    if baskets == [] then 0 else Stakes(baskets[..|baskets| - 1]) + baskets[|baskets| - 1].stake
  }

  function Payouts(baskets: seq<Basket>): nat {
    if baskets == [] then 0 else Payouts(baskets[..|baskets| - 1]) + baskets[|baskets| - 1].payout
  }

  /** What the baskets need beyond their stakes, each rounded up and cut off at zero on its own. */
  function Charges(baskets: seq<Basket>): nat {
    if baskets == [] then 0
    else
      var last := baskets[|baskets| - 1];
      Charges(baskets[..|baskets| - 1]) + AggregateCharge(last.stake, last.payout)
  }

  ghost predicate RequirementsCoverStakes(baskets: seq<Basket>) {
    forall i :: 0 <= i < |baskets| ==> baskets[i].stake <= Ceil(baskets[i].payout * 125, 100)
  }

  /** Rounding two parts up gains at most one unit over rounding up their sum. */
  lemma {:induction false} CeilAdd(a: nat, b: nat, d: Positive)
    ensures Ceil(a + b, d) <= Ceil(a, d) + Ceil(b, d) <= Ceil(a + b, d) + 1
  {
    var x, y, z := Ceil(a, d), Ceil(b, d), Ceil(a + b, d);
    CeilMeans(a, d, x);
    CeilMeans(b, d, y);
    CeilMeans(a + b, d, x + y);
    Distribute(x, y, d);
    if x + y > z + 1 {
      MulGap(z + 1, x + y, d);
      Distribute(z, 1, d);
    }
  }

  lemma {:induction false} ChargesAtLeast(baskets: seq<Basket>)
    ensures Ceil(Payouts(baskets) * 125, 100) - Stakes(baskets) <= Charges(baskets)
  {
    if baskets != [] {
      var init, last := baskets[..|baskets| - 1], baskets[|baskets| - 1];
      ChargesAtLeast(init);
      CeilAdd(Payouts(init) * 125, last.payout * 125, 100);
    }
  }

  lemma {:induction false} ChargesAtMost(baskets: seq<Basket>)
    requires RequirementsCoverStakes(baskets) && baskets != []
    ensures Charges(baskets) <= Ceil(Payouts(baskets) * 125, 100) - Stakes(baskets) + |baskets| - 1
  {
    var init, last := baskets[..|baskets| - 1], baskets[|baskets| - 1];
    if init == [] {
      assert Charges(init) == 0 && Payouts(init) == 0 && Stakes(init) == 0;
    } else {
      ChargesAtMost(init);
      CeilAdd(Payouts(init) * 125, last.payout * 125, 100);
    }
  }

  /** Every usable quote offers at least its stake. */
  ghost predicate OffersCoverStakes(baskets: seq<Basket>) {
    forall i :: 0 <= i < |baskets| ==> baskets[i].stake <= baskets[i].payout
  }

  /** A quarter on top of an offer that covers the stake covers it too, so no charge is ever cut off at zero. */
  lemma {:induction false} OffersCoverRequirements(baskets: seq<Basket>)
    requires OffersCoverStakes(baskets)
    ensures RequirementsCoverStakes(baskets)
  {
    forall i | 0 <= i < |baskets|
      ensures baskets[i].stake <= Ceil(baskets[i].payout * 125, 100)
    {
      CeilMeans(baskets[i].payout * 125, 100, baskets[i].stake - 1);
    }
  }

  /**
   The charges that are rounded up basket by basket never fall below the charge for all baskets together, and
   exceed it by less than one unit a basket.
   */
  lemma {:induction false} ChargesNearAggregate(baskets: seq<Basket>)
    requires OffersCoverStakes(baskets)
    ensures var aggregate := AggregateCharge(Stakes(baskets), Payouts(baskets));
            aggregate <= Charges(baskets) <= aggregate + (if baskets == [] then 0 else |baskets| - 1)
  {
    ChargesAtLeast(baskets);
    OffersCoverRequirements(baskets);
    if baskets != [] {
      ChargesAtMost(baskets);
    }
  }
}
