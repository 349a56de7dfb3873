/** Paying redemptions at the end-of-period price, in a batch or one at a time. */
module ShareRedemption {
  import opened Common
  import opened OwnerClaims
  import opened ShareMint

  datatype RedemptionRequest = RedemptionRequest(owner: nat, shares: int, available: int)

  datatype Holding = Holding(weight: nat, available: nat)

  /** The grouping loop, request by request, with its faults in the order they are met. */
  function GroupRedemptions(requests: seq<RedemptionRequest>): Result<map<nat, Holding>, Fault> {
    if requests == [] then Ok(map[])
    else
      match GroupRedemptions(requests[..|requests| - 1])
      case Err(fault) => Err(fault)
      case Ok(m) => AddRedemption(m, requests[|requests| - 1])
  }

  function AddRedemption(m: map<nat, Holding>, r: RedemptionRequest): Result<map<nat, Holding>, Fault> {
    if r.shares <= 0 then Err(InvalidAmount)
    else if r.available <= 0 then Err(InvalidHolding)
    else if r.owner in m && m[r.owner].available != r.available then Err(InconsistentHolding)
    else Ok(m[r.owner := Holding((if r.owner in m then m[r.owner].weight else 0) + r.shares, r.available)])
  }

  function Weights(m: map<nat, Holding>): map<nat, nat> {
    map o | o in m :: m[o].weight
  }

  function Availables(m: map<nat, Holding>): map<nat, nat> {
    map o | o in m :: m[o].available
  }

  function RedemptionClaims(requests: seq<RedemptionRequest>): Result<map<nat, Holding>, Fault> {
    if requests == [] then Err(EntriesEmpty)
    else
      match GroupRedemptions(requests)
      case Err(fault) => Err(fault)
      case Ok(m) => if exists o :: o in m && m[o].available < m[o].weight then Err(ExceedsOwnerHolding) else Ok(m)
  }

  method AggregateRedemptions(requests: seq<RedemptionRequest>) returns (r: Result<map<nat, Holding>, Fault>)
    ensures r == RedemptionClaims(requests)
  {
    if |requests| == 0 {
      return Err(EntriesEmpty);
    }
    var byOwner: map<nat, Holding> := map[];
    for i := 0 to |requests|
      invariant GroupRedemptions(requests[..i]) == Ok(byOwner)
    {
      assert requests[..i + 1][..i] == requests[..i];
      var added := AddRedemption(byOwner, requests[i]);
      if added.Err? {
        FaultsPersist(requests, i + 1);
        return Err(added.error);
      }
      byOwner := added.value;
    }
    assert requests[..|requests|] == requests;
    if exists o :: o in byOwner && byOwner[o].available < byOwner[o].weight {
      return Err(ExceedsOwnerHolding);
    }
    return Ok(byOwner);
  }

  lemma {:induction false} FaultsPersist(requests: seq<RedemptionRequest>, n: nat)
    requires n <= |requests| && GroupRedemptions(requests[..n]).Err?
    ensures GroupRedemptions(requests) == GroupRedemptions(requests[..n])
    decreases |requests|
  {
    if n < |requests| {
      var init := requests[..|requests| - 1];
      assert init[..n] == requests[..n];
      FaultsPersist(init, n);
    } else {
      assert requests[..n] == requests;
    }
  }

  datatype Redeemed = Redeemed(sharePriceFixed: nat, burned: nat, endingSupply: int, aggregateFloor: nat,
                               matured: nat, retainedDust: int, lpRetainedDust: int, protocolDust: int,
                               navAfter: int, remainderNumerator: nat, allocations: seq<Allocation>)

  function FinalizeRedemptions(nav: int, supply: int, requests: seq<RedemptionRequest>): Result<Redeemed, Fault> {
    if nav < 0 then Err(InvalidNav)
    else if supply <= 0 then Err(InvalidSupply)
    else
      match RedemptionClaims(requests)
      case Err(fault) => Err(fault)
      case Ok(m) =>
        if exists o :: o in m && supply < m[o].available then Err(HoldingExceedsSupply)
        else if supply < SumWeights(ClaimsOf(Availables(m))) then Err(HoldingsExceedSupply)
        else RedeemClaims(nav, supply, ClaimsOf(Weights(m)))
  }

  function RedeemClaims(nav: nat, supply: Positive, claims: seq<Claim>): Result<Redeemed, Fault> {
    var f := AllocateIdentityFloors(claims, nav, supply);
    if supply < f.totalWeight then Err(RedemptionsExceedSupply)
    else
      var protocolDust := if f.totalWeight == supply then f.dust else 0;
      Ok(Redeemed(SharePriceFixed(nav, supply), f.totalWeight, supply - f.totalWeight, f.aggregateFloor,
                  f.granted, f.dust, if f.totalWeight == supply then 0 else f.dust, protocolDust,
                  nav - f.granted - protocolDust, f.totalRemainder, f.allocations))
  }

  method FinalizeRedemptionsAtEndPeriodPrice(nav: int, supply: int, requests: seq<RedemptionRequest>)
    returns (r: Result<Redeemed, Fault>)
    ensures r == FinalizeRedemptions(nav, supply, requests)
  {
    if nav < 0 {
      return Err(InvalidNav);
    }
    if supply <= 0 {
      return Err(InvalidSupply);
    }
    var grouped := AggregateRedemptions(requests);
    match grouped {
      case Err(fault) => return Err(fault);
      case Ok(m) =>
        if exists o :: o in m && supply < m[o].available {
          return Err(HoldingExceedsSupply);
        }
        if supply < SumWeights(ClaimsOf(Availables(m))) {
          return Err(HoldingsExceedSupply);
        }
        return RedeemClaims(nav, supply, ClaimsOf(Weights(m)));
    }
  }

  function ShareEntries(requests: seq<RedemptionRequest>): seq<Entry> {
    seq(|requests|, i requires 0 <= i < |requests| => Entry(requests[i].owner, requests[i].shares))
  }

  lemma {:induction false} WeightsAfter(m: map<nat, Holding>, r: RedemptionRequest)
    requires AddRedemption(m, r).Ok?
    ensures var prior := if r.owner in m then m[r.owner].weight else 0;
            Weights(AddRedemption(m, r).value) == Weights(m)[r.owner := prior + r.shares]
    ensures (r.owner in Weights(m) <==> r.owner in m) && (r.owner in m ==> Weights(m)[r.owner] == m[r.owner].weight)
  {
  }

  lemma {:induction false} GroupStep(init: seq<RedemptionRequest>, r: RedemptionRequest, m: map<nat, Holding>)
    requires AllPositive(ShareEntries(init)) && Weights(m) == Totals(ShareEntries(init)) && AddRedemption(m, r).Ok?
    ensures AllPositive(ShareEntries(init + [r]))
    ensures Weights(AddRedemption(m, r).value) == Totals(ShareEntries(init + [r]))
  {
    WeightsAfter(m, r);
    assert r.owner in Weights(m) <==> r.owner in m;
    assert ShareEntries(init + [r]) == ShareEntries(init) + [Entry(r.owner, r.shares)];
    TotalsAppend(ShareEntries(init), Entry(r.owner, r.shares));
  }

  /** A group holds every owner's total request. */
  lemma {:induction false} GroupMeaning(requests: seq<RedemptionRequest>)
    requires GroupRedemptions(requests).Ok?
    ensures AllPositive(ShareEntries(requests))
    ensures Weights(GroupRedemptions(requests).value) == Totals(ShareEntries(requests))
  {
    if requests == [] {
      assert Weights(map[]) == Totals(ShareEntries(requests));
    } else {
      var init, r := requests[..|requests| - 1], requests[|requests| - 1];
      GroupMeaning(init);
      GroupStep(init, r, GroupRedemptions(init).value);
      assert requests == init + [r];
    }
  }

  lemma {:induction false} SmallerSums(a: map<nat, nat>, b: map<nat, nat>)
    requires a.Keys == b.Keys
    requires forall o :: o in a ==> a[o] <= b[o]
    ensures SumWeights(ClaimsOf(a)) <= SumWeights(ClaimsOf(b))
    decreases |a|
  {
    if a != map[] {
      var o := MinOf(a.Keys);
      assert (a - {o}).Keys == a.Keys - {o} == (b - {o}).Keys;
      SmallerSums(a - {o}, b - {o});
    }
  }

  lemma {:induction false} ClaimsAreFair(nav: nat, supply: Positive, claims: seq<Claim>)
    requires claims != [] && RedeemClaims(nav, supply, claims).Ok?
    ensures var r := RedeemClaims(nav, supply, claims).value;
            && r.burned == SumWeights(claims) <= supply && r.endingSupply == supply - r.burned
            && r.matured * supply <= r.burned * nav
            && r.matured + r.protocolDust + r.navAfter == nav
            && 0 <= r.protocolDust && 0 <= r.navAfter
            && nav * r.endingSupply <= r.navAfter * supply
            && (r.endingSupply == 0 ==> r.navAfter == 0)
  {
    IdentityFloorDust(claims, nav, supply);
    var f := AllocateIdentityFloors(claims, nav, supply);
    if f.totalWeight == supply {
      FloorExact(nav, supply);
    } else {
      KeptValue(nav, supply, f.totalWeight, f.granted);
    }
  }

  /** Paying at most the worth of what is burned keeps the worth of what is not. */
  lemma {:induction false} KeptValue(nav: nat, supply: Positive, burned: nat, paid: nat)
    requires burned <= supply && paid * supply <= burned * nav
    ensures paid <= nav
    ensures nav * (supply - burned) <= (nav - paid) * supply
  {
    assert nav * (supply - burned) == nav * supply - burned * nav;
    assert (nav - paid) * supply == nav * supply - paid * supply;
    MulMono(burned, supply, nav);
    MulGap(nav, paid, supply);
  }

  /**
   What a successful redemption batch promises: it burns what was asked for, pays no
   more than the burned shares are worth, keeps the rest of the value with the rest of
   the shares, and leaves nothing behind when the whole supply is burned.
   */
  lemma {:induction false} RedemptionIsFair(nav: int, supply: int, requests: seq<RedemptionRequest>)
    requires FinalizeRedemptions(nav, supply, requests).Ok?
    ensures var r := FinalizeRedemptions(nav, supply, requests).value;
            && r.burned == SumAll(ShareEntries(requests))
            && 0 <= r.endingSupply == supply - r.burned
            && r.matured * supply <= r.burned * nav
            && r.matured + r.protocolDust + r.navAfter == nav
            && 0 <= r.protocolDust && 0 <= r.navAfter
            && nav * r.endingSupply <= r.navAfter * supply
            && (r.endingSupply == 0 ==> r.navAfter == 0)
  {
    var m := GroupRedemptions(requests).value;
    GroupMeaning(requests);
    GroupingConserves(ShareEntries(requests));
    ClaimsOfMap(Weights(m));
    assert ShareEntries(requests)[|requests| - 1].owner in Owners(ShareEntries(requests));
    assert Weights(m) != map[];
    ClaimsAreFair(nav, supply, ClaimsOf(Weights(m)));
  }

  /** Holdings bounded by the supply bound the burn, so that last guard never fires. */
  lemma {:induction false} RedemptionsNeverExceedSupply(nav: int, supply: int, requests: seq<RedemptionRequest>)
    ensures FinalizeRedemptions(nav, supply, requests) != Err(RedemptionsExceedSupply)
  {
    if 0 <= nav && 0 < supply && RedemptionClaims(requests).Ok? {
      var m := GroupRedemptions(requests).value;
      SmallerSums(Weights(m), Availables(m));
    } else {
      NoSupplyFault(requests);
    }
  }

  lemma {:induction false} NoSupplyFault(requests: seq<RedemptionRequest>)
    ensures GroupRedemptions(requests) != Err(RedemptionsExceedSupply)
  {
    if requests != [] {
      NoSupplyFault(requests[..|requests| - 1]);
    }
  }

  // ---------------------------------------------------------------- one request at a time

  lemma {:induction false} SingleClaim(owner: nat, weight: nat)
    ensures ClaimsOf(map[owner := weight]) == [Claim(owner, weight)]
  {
    var m: map<nat, nat> := map[owner := weight];
    assert m.Keys == {owner};
    assert MinOf(m.Keys) == owner;
    assert m - {owner} == map[];
  }

  lemma {:induction false} SumOne(claim: Claim, multiplier: nat, denominator: Positive)
    ensures SumWeights([claim]) == claim.weight
    ensures SumFloors([claim], multiplier, denominator) == claim.weight * multiplier / denominator
  {
    assert [claim][1..] == [];
  }

  /** A lone request within its holding and the supply is always paid its own floor. */
  lemma {:induction false} SingleRedemption(nav: int, supply: int, owner: nat, shares: int, available: int)
    requires 0 <= nav && 0 < shares <= available <= supply
    ensures var r := FinalizeRedemptions(nav, supply, [RedemptionRequest(owner, shares, available)]);
            && r.Ok? && r.value.burned == shares && r.value.matured == shares * nav / supply
            && r.value.allocations == [Allocation(owner, shares, shares * nav / supply, shares * nav % supply)]
  {
    var request := RedemptionRequest(owner, shares, available);
    assert [request][..|[request]| - 1] == [];
    var m: map<nat, Holding> := map[owner := Holding(shares, available)];
    assert AddRedemption(map[], request) == Ok(m);
    assert GroupRedemptions([request]) == Ok(m);
    assert Weights(m) == map[owner := shares] && Availables(m) == map[owner := available];
    SingleClaim(owner, shares);
    SingleClaim(owner, available);
    assert forall o :: o in m ==> o == owner;
    SumOne(Claim(owner, shares), nav, supply);
    SumOne(Claim(owner, available), nav, supply);
  }

  function SumSingles(requests: seq<RedemptionRequest>, nav: nat, supply: Positive): int {
    if requests == [] then 0
    else
      SumSingles(requests[..|requests| - 1], nav, supply) + requests[|requests| - 1].shares * nav / supply
  }

  predicate OneRequestPerOwner(requests: seq<RedemptionRequest>) {
    forall i, j :: 0 <= i < j < |requests| ==> requests[i].owner != requests[j].owner
  }

  /** One more request adds at least its own floor to the groups, and exactly that for a new owner. */
  lemma {:induction false} SinglesStep(m: map<nat, Holding>, r: RedemptionRequest, nav: nat, supply: Positive)
    requires AddRedemption(m, r).Ok?
    ensures var before := SumFloors(ClaimsOf(Weights(m)), nav, supply);
            var after := SumFloors(ClaimsOf(Weights(AddRedemption(m, r).value)), nav, supply);
            && before + r.shares * nav / supply <= after
            && (r.owner !in m ==> before + r.shares * nav / supply == after)
  {
    var prior := if r.owner in m then m[r.owner].weight else 0;
    WeightsAfter(m, r);
    hide SumFloors, ClaimsOf, Weights, AddRedemption;
    SetOneFloor(Weights(m), r.owner, prior + r.shares, nav, supply);
    JoinedFloor(prior, r.shares, nav, supply);
  }

  lemma {:induction false} SinglesAgainstGroups(requests: seq<RedemptionRequest>, nav: nat, supply: Positive)
    requires GroupRedemptions(requests).Ok?
    ensures var batch := SumFloors(ClaimsOf(Weights(GroupRedemptions(requests).value)), nav, supply);
            && SumSingles(requests, nav, supply) <= batch
            && (OneRequestPerOwner(requests) ==> SumSingles(requests, nav, supply) == batch)
  {
    if requests == [] {
      assert Weights(GroupRedemptions(requests).value) == map[];
    } else {
      hide SumFloors, ClaimsOf, Weights, AddRedemption;
      var init, r := requests[..|requests| - 1], requests[|requests| - 1];
      SinglesAgainstGroups(init, nav, supply);
      SinglesStep(GroupRedemptions(init).value, r, nav, supply);
      if OneRequestPerOwner(requests) {
        GroupedOwners(init);
        assert r.owner !in GroupRedemptions(init).value;
      }
    }
  }

  lemma {:induction false} GroupedOwners(requests: seq<RedemptionRequest>)
    requires GroupRedemptions(requests).Ok?
    ensures forall o :: o in GroupRedemptions(requests).value ==>
      exists i :: 0 <= i < |requests| && requests[i].owner == o
  {
    if requests != [] {
      var init := requests[..|requests| - 1];
      GroupedOwners(init);
      forall o | o in GroupRedemptions(requests).value
        ensures exists i :: 0 <= i < |requests| && requests[i].owner == o
      {
        if o in GroupRedemptions(init).value {
          var i :| 0 <= i < |init| && init[i].owner == o;
          assert requests[i].owner == o;
        } else {
          assert requests[|requests| - 1].owner == o;
        }
      }
    }
  }

  /** What the requests are paid when each is finalized in a batch of its own. */
  function PaidSeparately(nav: int, supply: int, requests: seq<RedemptionRequest>): int {
    if requests == [] then 0
    else
      var last := FinalizeRedemptions(nav, supply, [requests[|requests| - 1]]);
      PaidSeparately(nav, supply, requests[..|requests| - 1]) + (if last.Ok? then last.value.matured else 0)
  }

  /** Every request of a group is within the holding of its owner. */
  lemma {:induction false} WithinGroup(requests: seq<RedemptionRequest>, k: nat)
    requires GroupRedemptions(requests).Ok? && k < |requests|
    ensures var m, r := GroupRedemptions(requests).value, requests[k];
            && r.owner in m && 0 < r.shares <= m[r.owner].weight && m[r.owner].available == r.available
  {
    if k < |requests| - 1 {
      WithinGroup(requests[..|requests| - 1], k);
    }
  }

  lemma {:induction false} SeparateIsSingles(nav: nat, supply: Positive, requests: seq<RedemptionRequest>)
    requires forall k :: 0 <= k < |requests| ==> 0 < requests[k].shares <= requests[k].available <= supply
    ensures PaidSeparately(nav, supply, requests) == SumSingles(requests, nav, supply)
  {
    if requests != [] {
      hide FinalizeRedemptions;
      var r := requests[|requests| - 1];
      SeparateIsSingles(nav, supply, requests[..|requests| - 1]);
      SingleRedemption(nav, supply, r.owner, r.shares, r.available);
    }
  }

  /**
   Paying each request in a batch of its own at one checkpoint refines the common batch: with one request per owner
   it pays the same in total and leaves the same protocol dust when the whole supply is burned; with several
   requests per owner it never pays more.
   */
  lemma {:induction false} PerRequestRefinesBatch(nav: int, supply: int, requests: seq<RedemptionRequest>)
    requires FinalizeRedemptions(nav, supply, requests).Ok?
    ensures var batch := FinalizeRedemptions(nav, supply, requests).value;
            var paid := PaidSeparately(nav, supply, requests);
            && paid <= batch.matured
            && (OneRequestPerOwner(requests) ==> paid == batch.matured)
            && (OneRequestPerOwner(requests) && batch.burned == supply ==> nav - paid == batch.protocolDust)
  {
    forall k | 0 <= k < |requests|
      ensures 0 < requests[k].shares <= requests[k].available <= supply
    {
      WithinGroup(requests, k);
    }
    SeparateIsSingles(nav, supply, requests);
    SinglesAgainstGroups(requests, nav, supply);
    RedemptionIsFair(nav, supply, requests);
  }
}
