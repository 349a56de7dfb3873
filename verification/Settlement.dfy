/** What a resolved combination of legs pays, after partial voids. */
module Settlement {
  import opened Common
  import opened JsText

  const SCALE: Positive := 10000

  datatype Status = Won | Voided | Lost | Pending | Disputed

  datatype Leg = Leg(id: string, price: int, status: Status)

  datatype Input = Input(stake: int, original: int, legs: seq<Leg>)

  datatype Verdict = Unresolved | Final(status: Status, payout: int)

  datatype Evidence = Evidence(verdict: Verdict, won: seq<string>, voided: seq<string>, lost: seq<string>,
                               pending: seq<string>, disputed: seq<string>, prices: seq<(string, int)>)

  datatype Error = InvalidStake | InvalidOriginalPayout | NoLegs | BlankLegId | DuplicateLegId | InvalidLegPrice

  // ---------------------------------------------------------------- validation

  ghost predicate DistinctIds(legs: seq<Leg>) {
    forall i, j :: 0 <= i < j < |legs| ==> legs[i].id != legs[j].id
  }

  ghost predicate Valid(input: Input) {
    && 0 < input.stake && 0 <= input.original && input.legs != []
    && (forall i :: 0 <= i < |input.legs| ==> LegIsValid(input.legs[i]))
    && DistinctIds(input.legs)
  }

  predicate LegIsValid(leg: Leg) {
    !Blank(leg.id) && 0 <= leg.price <= SCALE
  }

  /** What is wrong with leg `i`, given the legs before it. */
  ghost function LegFault(legs: seq<Leg>, i: nat): Option<Error>
    requires i < |legs|
  {
    if Blank(legs[i].id) then Some(BlankLegId)
    else if exists k :: 0 <= k < i && legs[k].id == legs[i].id then Some(DuplicateLegId)
    else if legs[i].price < 0 || SCALE < legs[i].price then Some(InvalidLegPrice)
    else None
  }

  /** Leg `i` is the first one that is at fault. */
  ghost predicate FirstFault(legs: seq<Leg>, i: nat, fault: Option<Error>) {
    i < |legs| && LegFault(legs, i) == fault && forall k :: 0 <= k < i ==> LegFault(legs, k) == None
  }

  /** What a fault says about the legs, wherever it was found. */
  ghost predicate LegFaultFound(legs: seq<Leg>, fault: Error) {
    match fault
    case BlankLegId => exists i :: 0 <= i < |legs| && Blank(legs[i].id)
    case DuplicateLegId => exists i, k :: 0 <= k < i < |legs| && legs[k].id == legs[i].id
    case InvalidLegPrice => exists i :: 0 <= i < |legs| && !(0 <= legs[i].price <= 10000)
    case _ => false
  }

  /** The first thing that is wrong with an input is reported, and nothing is reported for a valid input. */
  method ValidateInput(input: Input) returns (fault: Option<Error>)
    ensures fault == None <==>
              && 0 < input.stake && 0 <= input.original && input.legs != []
              && (forall i :: 0 <= i < |input.legs| ==>
                    !Blank(input.legs[i].id) && 0 <= input.legs[i].price <= 10000)
              && (forall i, j :: 0 <= i < j < |input.legs| ==> input.legs[i].id != input.legs[j].id)
    ensures fault == None <==> Valid(input)
    ensures fault == Some(InvalidStake) <==> input.stake <= 0
    ensures fault == Some(InvalidOriginalPayout) <==> 0 < input.stake && input.original < 0
    ensures fault == Some(NoLegs) <==> 0 < input.stake && 0 <= input.original && input.legs == []
    ensures 0 < input.stake && 0 <= input.original && input.legs != [] && fault.Some? ==>
              LegFaultFound(input.legs, fault.value) && exists i :: FirstFault(input.legs, i, fault)
  {
    if input.stake <= 0 {
      return Some(InvalidStake);
    }
    if input.original < 0 {
      return Some(InvalidOriginalPayout);
    }
    if |input.legs| == 0 {
      return Some(NoLegs);
    }
    fault := ValidateLegs(input.legs);
  }

  method ValidateLegs(legs: seq<Leg>) returns (fault: Option<Error>)
    ensures fault == None <==> (forall i :: 0 <= i < |legs| ==> LegIsValid(legs[i])) && DistinctIds(legs)
    ensures fault.Some? ==> LegFaultFound(legs, fault.value) && exists i :: FirstFault(legs, i, fault)
  {
    hide Blank;
    var seen: set<string> := {};
    for i := 0 to |legs|
      invariant forall id :: id in seen <==> exists k :: 0 <= k < i && legs[k].id == id
      invariant forall j, k :: 0 <= j < k < i ==> legs[j].id != legs[k].id
      invariant forall k :: 0 <= k < i ==> LegIsValid(legs[k]) && LegFault(legs, k) == None
    {
      if Blank(legs[i].id) {
        assert FirstFault(legs, i, Some(BlankLegId));
        return Some(BlankLegId);
      }
      if legs[i].id in seen {
        assert FirstFault(legs, i, Some(DuplicateLegId));
        return Some(DuplicateLegId);
      }
      seen := seen + {legs[i].id};
      if legs[i].price < 0 || SCALE < legs[i].price {
        assert FirstFault(legs, i, Some(InvalidLegPrice));
        return Some(InvalidLegPrice);
      }
    }
    return None;
  }

  // ---------------------------------------------------------------- the verdict

  predicate Has(legs: seq<Leg>, status: Status) {
    exists i :: 0 <= i < |legs| && legs[i].status == status
  }

  /** The ids of the legs with one status, in leg order. */
  function IdsOf(legs: seq<Leg>, status: Status): seq<string> {
    if legs == [] then []
    else IdsOf(legs[..|legs| - 1], status) + (if legs[|legs| - 1].status == status then [legs[|legs| - 1].id] else [])
  }

  function Factor(leg: Leg): int {
    if leg.status == Voided then leg.price else 1
  }

  function Scale(leg: Leg): Positive {
    if leg.status == Voided then SCALE else 1
  }

  /** The offered payout times the frozen price of every voided leg. */
  function Numerator(original: int, legs: seq<Leg>): int {
    if legs == [] then original else Numerator(original, legs[..|legs| - 1]) * Factor(legs[|legs| - 1])
  }

  function Denominator(legs: seq<Leg>): (d: int)
    ensures 0 < d
  {
    if legs == [] then 1 else
      var rest, scale := Denominator(legs[..|legs| - 1]), Scale(legs[|legs| - 1]);
      MulMono(1, rest, scale);
      rest * scale
  }

  function Max(a: int, b: int): int {
    if a < b then b else a
  }

  function VerdictOf(input: Input): Verdict {
    var legs := input.legs;
    if Has(legs, Lost) then Final(Lost, 0)
    else if Has(legs, Pending) || Has(legs, Disputed) then Unresolved
    else if !Has(legs, Won) then Final(Voided, input.stake)
    else Final(Won, Max(input.stake, Numerator(input.original, legs) / Denominator(legs)))
  }

  lemma {:induction false} HasLast(legs: seq<Leg>, status: Status)
    requires legs != []
    ensures Has(legs, status) <==> Has(legs[..|legs| - 1], status) || legs[|legs| - 1].status == status
  {
    var init := legs[..|legs| - 1];
    if Has(init, status) {
      var i :| 0 <= i < |init| && init[i].status == status;
      assert legs[i].status == status;
    }
    if Has(legs, status) && legs[|legs| - 1].status != status {
      var i :| 0 <= i < |legs| && legs[i].status == status;
      assert init[i].status == status;
    }
  }

  lemma {:induction false} IdsOfNone(legs: seq<Leg>, status: Status)
    ensures IdsOf(legs, status) == [] <==> !Has(legs, status)
  {
    if legs != [] {
      HasLast(legs, status);
      hide Has;
      IdsOfNone(legs[..|legs| - 1], status);
    }
  }

  /** Counting the ids of a status reaches the number of legs only when every leg has it. */
  lemma {:induction false} IdsOfAll(legs: seq<Leg>, status: Status)
    ensures |IdsOf(legs, status)| <= |legs|
    ensures |IdsOf(legs, status)| == |legs| <==> forall other :: other != status ==> !Has(legs, other)
  {
    if legs != [] {
      var init, last := legs[..|legs| - 1], legs[|legs| - 1];
      IdsOfAll(init, status);
      hide IdsOf;
      forall other: Status
        ensures Has(legs, other) <==> Has(init, other) || last.status == other
      {
        HasLast(legs, other);
      }
      hide Has;
      if last.status != status {
        assert Has(legs, last.status);
      }
    }
  }

  lemma {:induction false} Prefix(legs: seq<Leg>, i: nat, status: Status, original: int)
    requires i < |legs|
    ensures IdsOf(legs[..i + 1], status) ==
            if legs[i].status == status then IdsOf(legs[..i], status) + [legs[i].id] else IdsOf(legs[..i], status)
    ensures Numerator(original, legs[..i + 1]) == Numerator(original, legs[..i]) * Factor(legs[i])
    ensures Denominator(legs[..i + 1]) == Denominator(legs[..i]) * Scale(legs[i])
  {
    var longer := legs[..i + 1];
    assert longer[..|longer| - 1] == legs[..i] && longer[|longer| - 1] == legs[i];
  }

  method CalculateSettlementPayout(input: Input) returns (r: Result<Evidence, Error>)
    ensures r.Ok? <==> Valid(input)
    ensures r.Err? ==>
              && (r.error == InvalidStake <==> input.stake <= 0)
              && (r.error == InvalidOriginalPayout <==> 0 < input.stake && input.original < 0)
              && (r.error == NoLegs <==> 0 < input.stake && 0 <= input.original && input.legs == [])
              && (0 < input.stake && 0 <= input.original && input.legs != [] ==>
                    LegFaultFound(input.legs, r.error) && exists i :: FirstFault(input.legs, i, Some(r.error)))
    ensures r.Ok? ==>
              var e, legs := r.value, input.legs;
              && e.verdict == VerdictOf(input) && |e.prices| == |legs|
              && (forall i :: 0 <= i < |legs| ==> e.prices[i] == (legs[i].id, legs[i].price))
              && e.won == IdsOf(legs, Won) && e.voided == IdsOf(legs, Voided) && e.lost == IdsOf(legs, Lost)
              && e.pending == IdsOf(legs, Pending) && e.disputed == IdsOf(legs, Disputed)
  {
    hide *;
    var fault := ValidateInput(input);
    if fault.Some? {
      return Err(fault.value);
    }
    var won, voided, lost, pending, disputed := Classify(input.legs);
    var verdict := Decide(input, voided, lost, pending, disputed);
    var legs := input.legs;
    var prices := seq(|legs|, i requires 0 <= i < |legs| => (legs[i].id, legs[i].price));
    return Ok(Evidence(verdict, won, voided, lost, pending, disputed, prices));
  }

  method Decide(input: Input, voided: seq<string>, lost: seq<string>, pending: seq<string>, disputed: seq<string>)
      returns (verdict: Verdict)
    requires voided == IdsOf(input.legs, Voided) && lost == IdsOf(input.legs, Lost)
    requires pending == IdsOf(input.legs, Pending) && disputed == IdsOf(input.legs, Disputed)
    ensures verdict == VerdictOf(input)
  {
    hide IdsOf, Has, Numerator, Denominator;
    var legs := input.legs;
    IdsOfNone(legs, Lost);
    IdsOfNone(legs, Pending);
    IdsOfNone(legs, Disputed);
    IdsOfAll(legs, Voided);
    if |lost| > 0 {
      return Final(Lost, 0);
    }
    if |pending| > 0 || |disputed| > 0 {
      return Unresolved;
    }
    if |voided| == |legs| {
      return Final(Voided, input.stake);
    }
    var numerator, denominator := Adjust(input.original, legs);
    var adjusted := numerator / denominator;
    return Final(Won, if adjusted < input.stake then input.stake else adjusted);
  }

  method Classify(legs: seq<Leg>)
      returns (won: seq<string>, voided: seq<string>, lost: seq<string>, pending: seq<string>, disputed: seq<string>)
    ensures won == IdsOf(legs, Won) && voided == IdsOf(legs, Voided) && lost == IdsOf(legs, Lost)
    ensures pending == IdsOf(legs, Pending) && disputed == IdsOf(legs, Disputed)
  {
    won, voided, lost, pending, disputed := [], [], [], [], [];
    for i := 0 to |legs|
      invariant won == IdsOf(legs[..i], Won) && voided == IdsOf(legs[..i], Voided) && lost == IdsOf(legs[..i], Lost)
      invariant pending == IdsOf(legs[..i], Pending) && disputed == IdsOf(legs[..i], Disputed)
    {
      hide IdsOf, Numerator, Denominator;
      Prefix(legs, i, Won, 0);
      Prefix(legs, i, Voided, 0);
      Prefix(legs, i, Lost, 0);
      Prefix(legs, i, Pending, 0);
      Prefix(legs, i, Disputed, 0);
      var leg := legs[i];
      match leg.status {
        case Won => won := won + [leg.id];
        case Voided => voided := voided + [leg.id];
        case Lost => lost := lost + [leg.id];
        case Pending => pending := pending + [leg.id];
        case Disputed => disputed := disputed + [leg.id];
      }
    }
    assert legs[..|legs|] == legs;
  }

  method Adjust(original: int, legs: seq<Leg>) returns (numerator: int, denominator: int)
    ensures numerator == Numerator(original, legs) && denominator == Denominator(legs)
  {
    numerator, denominator := original, 1;
    for i := 0 to |legs|
      invariant numerator == Numerator(original, legs[..i]) && denominator == Denominator(legs[..i])
    {
      hide Numerator, Denominator;
      Prefix(legs, i, Won, original);
      if legs[i].status != Voided {
        continue;
      }
      numerator := numerator * legs[i].price;
      denominator := denominator * SCALE;
    }
    assert legs[..|legs|] == legs;
  }
}
