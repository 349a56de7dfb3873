/** How mints, redemption batches and lot burns end: every refusal in order, and every figure of a result. */
module ShareOutcomes {
  import opened Common
  import opened OwnerClaims
  import opened ShareMint
  import opened ShareRedemption
  import opened RedemptionOrder
  import opened CostBasis

  /** `q` is a quotient rounded down. */
  predicate RoundsDown(q: int, dividend: int, divisor: int) {
    q * divisor <= dividend < q * divisor + divisor
  }

  lemma {:induction false} FloorRounds(a: int, d: Positive)
    ensures RoundsDown(a / d, a, d) && a % d == a - a / d * d
  {
    FloorBounds(a, d);
  }

  /** The fixed-point price of a share: a dollar at first, then the value of all shares over their number. */
  predicate PricedAt(price: int, nav: int, supply: int) {
    if supply == 0 then price == 1000000000000000000
    else RoundsDown(price, nav * 1000000000000000000 * 1000000000000000000, 1000000 * supply)
  }

  lemma {:induction false} PriceMeans(nav: nat, supply: nat)
    ensures PricedAt(SharePriceFixed(nav, supply), nav, supply)
  {
    if supply != 0 {
      assert 0 < MICRO_USDC_PER_USDC * supply;
      FloorRounds(nav * SHARE_UNITS_PER_SHARE * SHARE_PRICE_FIXED_SCALE, MICRO_USDC_PER_USDC * supply);
    }
  }

  // ---------------------------------------------------------------- what the owners get

  /** What all owners get together. */
  function Granted(allocations: seq<Allocation>): int {
    if allocations == [] then 0 else allocations[0].amount + Granted(allocations[1..])
  }

  predicate GetsShare(allocations: seq<Allocation>, owner: nat) {
    exists i :: 0 <= i < |allocations| && allocations[i].owner == owner
  }

  predicate Claims(claims: seq<Claim>, owner: nat) {
    exists i :: 0 <= i < |claims| && claims[i].owner == owner
  }

  predicate PutsIn(entries: seq<Entry>, owner: nat) {
    exists k :: 0 <= k < |entries| && entries[k].owner == owner
  }

  /** One owner gets the quotient of the own total, rounded down. */
  ghost predicate GetsFloor(a: Allocation, entries: seq<Entry>, multiplier: int, divisor: int) {
    && a.weight == SumFor(entries, a.owner) && RoundsDown(a.amount, a.weight * multiplier, divisor)
    && a.remainder == a.weight * multiplier - a.amount * divisor
  }

  /** What is granted: every owner who put something in is listed once, in owner order, with the own quotient. */
  ghost predicate GrantsFloors(allocations: seq<Allocation>, entries: seq<Entry>, multiplier: int, divisor: int) {
    && (forall i, j :: 0 <= i < j < |allocations| ==> allocations[i].owner < allocations[j].owner)
    && (forall owner: nat :: GetsShare(allocations, owner) <==> PutsIn(entries, owner))
    && (forall i :: 0 <= i < |allocations| ==> GetsFloor(allocations[i], entries, multiplier, divisor))
  }

  lemma {:induction false} GrantedIsSum(claims: seq<Claim>, multiplier: nat, divisor: Positive)
    ensures Granted(AllocateIdentityFloors(claims, multiplier, divisor).allocations)
         == SumFloors(claims, multiplier, divisor)
    decreases |claims|
  {
    if claims != [] {
      GrantedIsSum(claims[1..], multiplier, divisor);
      var all := AllocateIdentityFloors(claims, multiplier, divisor).allocations;
      assert all[1..] == AllocateIdentityFloors(claims[1..], multiplier, divisor).allocations;
    }
  }

  lemma {:induction false} NothingGranted(allocations: seq<Allocation>)
    ensures 0 <= Granted(allocations)
    ensures Granted(allocations) == 0 <==> forall i :: 0 <= i < |allocations| ==> allocations[i].amount == 0
  {
    if allocations != [] {
      NothingGranted(allocations[1..]);
      if Granted(allocations) == 0 {
        assert forall i :: 0 < i < |allocations| ==> allocations[i] == allocations[1..][i - 1];
      } else if allocations[0].amount == 0 {
        var i :| 0 <= i < |allocations[1..]| && allocations[1..][i].amount != 0;
        assert allocations[i + 1].amount != 0;
      }
    }
  }

  lemma {:induction false} ClaimListed(m: map<nat, nat>, owner: nat)
    ensures Claims(ClaimsOf(m), owner) <==> owner in m
    decreases |m|
  {
    ClaimsOfMap(m);
    if owner in m {
      var o := MinOf(m.Keys);
      var claims := ClaimsOf(m);
      assert (m - {o}).Keys == m.Keys - {o};
      if owner == o {
        assert claims[0].owner == owner;
      } else {
        ClaimListed(m - {o}, owner);
        var i :| 0 <= i < |ClaimsOf(m - {o})| && ClaimsOf(m - {o})[i].owner == owner;
        assert claims[i + 1].owner == owner;
      }
    }
  }

  /** The allocations list the owners of the claims. */
  lemma {:induction false} SharesOfClaims(claims: seq<Claim>, multiplier: nat, divisor: Positive, owner: nat)
    ensures GetsShare(AllocateIdentityFloors(claims, multiplier, divisor).allocations, owner) <==> Claims(claims, owner)
  {
    var allocations := AllocateIdentityFloors(claims, multiplier, divisor).allocations;
    if Claims(claims, owner) {
      var i :| 0 <= i < |claims| && claims[i].owner == owner;
      assert allocations[i].owner == owner;
    }
    if GetsShare(allocations, owner) {
      var i :| 0 <= i < |allocations| && allocations[i].owner == owner;
      assert claims[i].owner == owner;
    }
  }

  lemma {:induction false} FloorGranted(entries: seq<Entry>, multiplier: nat, divisor: Positive, i: nat)
    requires AllPositive(entries) && i < |ClaimsOf(Totals(entries))|
    ensures GetsFloor(AllocateIdentityFloors(ClaimsOf(Totals(entries)), multiplier, divisor).allocations[i], entries,
                      multiplier, divisor)
  {
    var claim := ClaimsOf(Totals(entries))[i];
    ClaimsOfMap(Totals(entries));
    FloorRounds(claim.weight * multiplier, divisor);
  }

  lemma {:induction false} FloorsGranted(entries: seq<Entry>, multiplier: nat, divisor: Positive)
    requires AllPositive(entries)
    ensures GrantsFloors(AllocateIdentityFloors(ClaimsOf(Totals(entries)), multiplier, divisor).allocations, entries,
                         multiplier, divisor)
  {
    var claims := ClaimsOf(Totals(entries));
    var allocations := AllocateIdentityFloors(claims, multiplier, divisor).allocations;
    ClaimsOfMap(Totals(entries));
    forall i | 0 <= i < |allocations|
      ensures GetsFloor(allocations[i], entries, multiplier, divisor)
    {
      FloorGranted(entries, multiplier, divisor, i);
    }
    hide GetsFloor, GetsShare, Claims, SumFor;
    forall owner: nat
      ensures GetsShare(allocations, owner) <==> PutsIn(entries, owner)
    {
      SharesOfClaims(claims, multiplier, divisor, owner);
      ClaimListed(Totals(entries), owner);
    }
  }

  /** The whole quotient, what it leaves over, and the dust: the part of it that no owner gets. */
  ghost predicate FloorsTotal(f: Floors, entries: seq<Entry>, multiplier: int, divisor: int) {
    && f.totalWeight == SumAll(entries)
    && RoundsDown(f.aggregateFloor, f.totalWeight * multiplier, divisor)
    && f.totalRemainder == f.totalWeight * multiplier - f.aggregateFloor * divisor
    && f.granted == Granted(f.allocations) && f.dust == f.aggregateFloor - f.granted
  }

  lemma {:induction false} TotalsGranted(entries: seq<Entry>, multiplier: nat, divisor: Positive)
    requires AllPositive(entries)
    ensures FloorsTotal(AllocateIdentityFloors(ClaimsOf(Totals(entries)), multiplier, divisor), entries, multiplier,
                        divisor)
  {
    var claims := ClaimsOf(Totals(entries));
    GroupingConserves(entries);
    GrantedIsSum(claims, multiplier, divisor);
    FloorRounds(SumWeights(claims) * multiplier, divisor);
  }

  /** The owner's total is too small for a single unit. */
  ghost predicate TooSmall(entries: seq<Entry>, owner: nat, multiplier: int, divisor: int) {
    SumFor(entries, owner) * multiplier < divisor
  }

  lemma {:induction false} NoUnit(q: nat, dividend: int, divisor: Positive)
    requires 0 <= dividend && RoundsDown(q, dividend, divisor)
    ensures q == 0 <==> dividend < divisor
  {
    MulGap(0, q, divisor);
    MulGap(q, 0, divisor);
  }

  /** Some owner gets nothing exactly when some total is too small, and none gets anything when all are. */
  lemma {:induction false} WhoGetsNothing(entries: seq<Entry>, allocations: seq<Allocation>, multiplier: nat,
                                          divisor: Positive)
    requires GrantsFloors(allocations, entries, multiplier, divisor)
    ensures Granted(allocations) == 0
       <==> forall k :: 0 <= k < |entries| ==> TooSmall(entries, entries[k].owner, multiplier, divisor)
    ensures (exists i :: 0 <= i < |allocations| && allocations[i].amount == 0)
       <==> exists k :: 0 <= k < |entries| && TooSmall(entries, entries[k].owner, multiplier, divisor)
  {
    hide Granted;
    NothingGranted(allocations);
    forall i | 0 <= i < |allocations|
      ensures PutsIn(entries, allocations[i].owner)
      ensures allocations[i].amount == 0 <==> TooSmall(entries, allocations[i].owner, multiplier, divisor)
    {
      assert GetsShare(allocations, allocations[i].owner);
      assert GetsFloor(allocations[i], entries, multiplier, divisor);
      NoUnit(allocations[i].amount, allocations[i].weight * multiplier, divisor);
    }
    hide GetsFloor, TooSmall;
    forall k | 0 <= k < |entries|
      ensures GetsShare(allocations, entries[k].owner)
    {
      assert PutsIn(entries, entries[k].owner);
    }
  }

  // ---------------------------------------------------------------- mints

  /** How a mint ends: at the first share a dollar buys one, later the old shares and their value set the price. */
  lemma {:induction false} MintEnds(nav: int, supply: int, deposits: seq<Entry>)
    ensures var r := MintShares(nav, supply, deposits);
            var multiplier := if supply == 0 then 1000000000000000000 else supply;
            var divisor := if supply == 0 then 1000000 else nav;
            if nav < 0 then r == Err(InvalidNav)
            else if supply < 0 then r == Err(InvalidSupply)
            else if supply == 0 && nav != 0 then r == Err(GenesisNavWithoutShares)
            else if 0 < supply && nav == 0 then r == Err(DepositAtZeroSharePrice)
            else if deposits == [] then r == Err(EntriesEmpty)
            else if exists k :: 0 <= k < |deposits| && deposits[k].amount <= 0 then r == Err(InvalidAmount)
            else if forall k :: 0 <= k < |deposits| ==> TooSmall(deposits, deposits[k].owner, multiplier, divisor)
            then r == Err(MintsZeroShares)
            else if exists k :: 0 <= k < |deposits| && TooSmall(deposits, deposits[k].owner, multiplier, divisor)
            then r == Err(OwnerMintsZeroShares)
            else
              && r.Ok?
              && var m := r.value;
                 && PricedAt(m.sharePriceFixed, nav, supply) && m.totalDeposit == SumAll(deposits)
                 && RoundsDown(m.aggregateFloor, m.totalDeposit * multiplier, divisor)
                 && m.remainderNumerator == m.totalDeposit * multiplier - m.aggregateFloor * divisor
                 && m.remainderDenominator == divisor
                 && GrantsFloors(m.allocations, deposits, multiplier, divisor)
                 && m.totalMinted == Granted(m.allocations) && m.postSupply == supply + m.totalMinted
                 && m.retainedDust == m.aggregateFloor - m.totalMinted
  {
    if 0 <= nav && 0 <= supply && (supply == 0 <==> nav == 0) && AllPositive(deposits) {
      var multiplier, divisor := MintMultiplier(supply), MintDenominator(nav, supply);
      var f := AllocateIdentityFloors(ClaimsOf(Totals(deposits)), multiplier, divisor);
      PriceMeans(nav, supply);
      FloorsGranted(deposits, multiplier, divisor);
      TotalsGranted(deposits, multiplier, divisor);
      WhoGetsNothing(deposits, f.allocations, multiplier, divisor);
      hide PricedAt, GrantsFloors, TooSmall, RoundsDown, AllocateIdentityFloors, SharePriceFixed;
      hide ClaimsOf, Totals, SumAll, Granted;
    }
  }

  // ---------------------------------------------------------------- redemption batches

  /** The request cannot be grouped with those before it. */
  predicate Spoils(requests: seq<RedemptionRequest>, k: nat)
    requires k < |requests|
  {
    || requests[k].shares <= 0 || requests[k].available <= 0
    || exists j ::
         0 <= j < k && requests[j].owner == requests[k].owner && requests[j].available != requests[k].available
  }

  predicate FirstSpoils(requests: seq<RedemptionRequest>, k: nat) {
    k < |requests| && Spoils(requests, k) && forall j :: 0 <= j < k ==> !Spoils(requests, j)
  }

  predicate Requested(requests: seq<RedemptionRequest>, owner: nat) {
    exists i :: 0 <= i < |requests| && requests[i].owner == owner
  }

  /** The holdings behind the requests, each owner's once. */
  function Holdings(requests: seq<RedemptionRequest>): int {
    if requests == [] then 0
    else
      var init, last := requests[..|requests| - 1], requests[|requests| - 1];
      Holdings(init) + (if Requested(init, last.owner) then 0 else last.available)
  }

  lemma {:induction false} SpoilsLater(init: seq<RedemptionRequest>, last: RedemptionRequest, k: nat)
    requires k < |init|
    ensures Spoils(init + [last], k) == Spoils(init, k)
  {
    var all := init + [last];
    assert forall j :: 0 <= j < |init| ==> all[j] == init[j];
    if j :| 0 <= j < k && init[j].owner == init[k].owner && init[j].available != init[k].available {
      assert all[j].owner == all[k].owner && all[j].available != all[k].available;
    }
  }

  /** One more request is grouped unless it spoils the group, and adds its holding if the owner is new. */
  lemma {:induction false} GroupOneMore(init: seq<RedemptionRequest>, last: RedemptionRequest, m: map<nat, Holding>)
    requires HoldingsOf(init, m)
    ensures var added := AddRedemption(m, last);
            && (added.Ok? <==> !Spoils(init + [last], |init|))
            && (added.Ok? ==> SumWeights(ClaimsOf(Availables(added.value))) == SumWeights(ClaimsOf(Availables(m)))
                              + (if Requested(init, last.owner) then 0 else last.available))
            && (added.Err? ==> added.error == SpoiledBy(last))
  {
    var all := init + [last];
    assert all[|init|] == last && forall j :: 0 <= j < |init| ==> all[j] == init[j];
    assert Requested(init, last.owner) <==> last.owner in m;
    if last.owner in m {
      var i :| 0 <= i < |init| && init[i].owner == last.owner;
      assert all[i].owner == last.owner;
    }
    if AddRedemption(m, last).Ok? {
      var after := AddRedemption(m, last).value;
      assert Availables(after) == Availables(m)[last.owner := last.available];
      SetOneWeight(Availables(m), last.owner, last.available);
    }
  }

  /** The fault of a request that cannot be grouped. */
  function SpoiledBy(request: RedemptionRequest): Fault {
    if request.shares <= 0 then InvalidAmount
    else if request.available <= 0 then InvalidHolding
    else InconsistentHolding
  }

  ghost predicate AllFit(requests: seq<RedemptionRequest>) {
    forall k :: 0 <= k < |requests| ==> !Spoils(requests, k)
  }

  /** The first request that spoils a longer list is the first of the shorter one, or the last when that one fits. */
  lemma {:induction false} FirstOfMore(init: seq<RedemptionRequest>, last: RedemptionRequest)
    ensures AllFit(init + [last]) <==> AllFit(init) && !Spoils(init + [last], |init|)
    ensures forall k: nat :: FirstSpoils(init + [last], k)
                        <==> FirstSpoils(init, k) || (k == |init| && AllFit(init) && Spoils(init + [last], k))
  {
    forall k | 0 <= k < |init|
      ensures Spoils(init + [last], k) == Spoils(init, k)
    {
      SpoilsLater(init, last, k);
    }
    hide Spoils;
  }

  /** Grouping stops at the first request that spoils it, and otherwise knows every owner's holding. */
  lemma {:induction false} GroupEnds(requests: seq<RedemptionRequest>)
    ensures var g := GroupRedemptions(requests);
            && (g.Ok? <==> AllFit(requests))
            && (g.Ok? ==> SumWeights(ClaimsOf(Availables(g.value))) == Holdings(requests))
            && (forall k: nat :: FirstSpoils(requests, k) ==> g == Err(SpoiledBy(requests[k])))
  {
    if requests == [] {
      assert Availables(map[]) == map[];
    } else {
      var init, last := requests[..|requests| - 1], requests[|requests| - 1];
      assert requests == init + [last];
      GroupEnds(init);
      GroupsWhen(init);
      FirstOfMore(init, last);
      var g := GroupRedemptions(init);
      if g.Ok? {
        GroupOneMore(init, last, g.value);
      }
      hide Spoils, AllFit, AddRedemption, SumWeights, ClaimsOf, Availables, Requested, SpoiledBy;
      hide Groupable, HoldingsOf;
    }
  }

  lemma {:induction false} FirstIsFound(requests: seq<RedemptionRequest>)
    requires !AllFit(requests)
    ensures exists k: nat :: FirstSpoils(requests, k)
  {
    var init, last := requests[..|requests| - 1], requests[|requests| - 1];
    assert requests == init + [last];
    FirstOfMore(init, last);
    if AllFit(init) {
      assert FirstSpoils(requests, |init|);
    } else {
      FirstIsFound(init);
      var k: nat :| FirstSpoils(init, k);
      assert FirstSpoils(requests, k);
    }
  }

  /** The owner asks for more than the own holding. */
  ghost predicate Overdraws(requests: seq<RedemptionRequest>, k: nat)
    requires k < |requests|
  {
    requests[k].available < SumFor(ShareEntries(requests), requests[k].owner)
  }

  lemma {:induction false} OverdrawnGroups(requests: seq<RedemptionRequest>, m: map<nat, Holding>, supply: int)
    requires GroupRedemptions(requests) == Ok(m)
    ensures (exists o :: o in m && m[o].available < m[o].weight)
       <==> exists k :: 0 <= k < |requests| && Overdraws(requests, k)
    ensures (exists o :: o in m && supply < m[o].available)
       <==> exists k :: 0 <= k < |requests| && supply < requests[k].available
  {
    GroupsWhen(requests);
    GroupMeaning(requests);
    forall o | o in m
      ensures m[o].weight == SumFor(ShareEntries(requests), o)
    {
      assert m[o].weight == Weights(m)[o];
    }
    if o :| o in m && m[o].available < m[o].weight {
      var k :| 0 <= k < |requests| && requests[k].owner == o;
      assert Overdraws(requests, k);
    }
    if o :| o in m && supply < m[o].available {
      var k :| 0 <= k < |requests| && requests[k].owner == o;
      assert supply < requests[k].available;
    }
  }

  /** What the first refused request, or the holdings, make of a batch. */
  lemma {:induction false} ClaimsEnd(requests: seq<RedemptionRequest>)
    ensures var r := RedemptionClaims(requests);
            && (requests == [] ==> r == Err(EntriesEmpty))
            && (forall k: nat :: FirstSpoils(requests, k) ==> r == Err(SpoiledBy(requests[k])))
            && (requests != [] && AllFit(requests) ==>
                  && GroupRedemptions(requests).Ok?
                  && r == (if exists k :: 0 <= k < |requests| && Overdraws(requests, k) then Err(ExceedsOwnerHolding)
                           else GroupRedemptions(requests)))
  {
    GroupEnds(requests);
    if GroupRedemptions(requests).Ok? {
      OverdrawnGroups(requests, GroupRedemptions(requests).value, 0);
    }
  }

  /**
   How a redemption batch ends. The burned shares are paid their part of the value, each owner the own part; what the
   parts leave over stays with the remaining shares, or goes to the protocol when none remain.
   */
  lemma {:induction false} RedeemEnds(nav: int, supply: int, requests: seq<RedemptionRequest>)
    ensures var r, entries := FinalizeRedemptions(nav, supply, requests), ShareEntries(requests);
            if nav < 0 then r == Err(InvalidNav)
            else if supply <= 0 then r == Err(InvalidSupply)
            else if requests == [] then r == Err(EntriesEmpty)
            else if exists k :: 0 <= k < |requests| && Spoils(requests, k)
            then exists k: nat :: FirstSpoils(requests, k) && r == Err(SpoiledBy(requests[k]))
            else if exists k :: 0 <= k < |requests| && Overdraws(requests, k) then r == Err(ExceedsOwnerHolding)
            else if exists k :: 0 <= k < |requests| && supply < requests[k].available
            then r == Err(HoldingExceedsSupply)
            else if supply < Holdings(requests) then r == Err(HoldingsExceedSupply)
            else
              && r.Ok?
              && var m := r.value;
                 && PricedAt(m.sharePriceFixed, nav, supply)
                 && m.burned == SumAll(entries) && m.endingSupply == supply - m.burned
                 && RoundsDown(m.aggregateFloor, m.burned * nav, supply)
                 && m.remainderNumerator == m.burned * nav - m.aggregateFloor * supply
                 && GrantsFloors(m.allocations, entries, nav, supply) && m.matured == Granted(m.allocations)
                 && m.retainedDust == m.aggregateFloor - m.matured
                 && m.lpRetainedDust == (if m.burned == supply then 0 else m.retainedDust)
                 && m.protocolDust == (if m.burned == supply then m.retainedDust else 0)
                 && m.navAfter == nav - m.matured - m.protocolDust
  {
    if 0 <= nav && 0 < supply {
      ClaimsEnd(requests);
      if !AllFit(requests) {
        FirstIsFound(requests);
      }
      if RedemptionClaims(requests).Ok? {
        var m := GroupRedemptions(requests).value;
        OverdrawnGroups(requests, m, supply);
        GroupEnds(requests);
        GroupMeaning(requests);
        RedemptionsNeverExceedSupply(nav, supply, requests);
        PriceMeans(nav, supply);
        FloorsGranted(ShareEntries(requests), nav, supply);
        TotalsGranted(ShareEntries(requests), nav, supply);
      }
      hide GroupRedemptions, RedemptionClaims, Weights, Availables, Overdraws, Spoils, Holdings, FirstSpoils, SpoiledBy;
      hide PricedAt, GrantsFloors, RoundsDown, AllocateIdentityFloors, SharePriceFixed;
      hide ClaimsOf, Totals, SumAll, SumWeights, Granted;
    }
  }

  // ---------------------------------------------------------------- burns of a lot

  /** How a burn of a lot ends: the basis given up so far is the burned part of the original basis, rounded down. */
  lemma {:induction false} CostBasisEnds(lot: CostBasisLot, burn: int)
    ensures var r := AllocateCostBasis(lot, burn);
            if lot.shares <= 0 || lot.basis < 0 || !(0 <= lot.burned <= lot.shares) || burn <= 0
            then r == Err(InvalidLot)
            else if lot.shares - lot.burned < burn then r == Err(BurnExceedsLot)
            else
              && r.Ok?
              && var s, gone := r.value, lot.burned + burn;
                 && RoundsDown(s.cumulativeBasis, lot.basis * gone, lot.shares)
                 && RoundsDown(s.cumulativeBasis - s.allocatedBasis, lot.basis * lot.burned, lot.shares)
                 && s.remainingShares == lot.shares - gone && s.remainingBasis == lot.basis - s.cumulativeBasis
                 && s.carriedRemainder == lot.basis * gone - s.cumulativeBasis * lot.shares
                 && s.nextLot == CostBasisLot(lot.shares, lot.basis, gone)
  {
    if AllocateCostBasis(lot, burn).Ok? {
      CostBasisStep(lot, burn);
      FloorRounds(lot.basis * (lot.burned + burn), lot.shares);
      FloorRounds(lot.basis * lot.burned, lot.shares);
      hide RoundsDown;
    }
  }
}
