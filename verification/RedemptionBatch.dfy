/** A batch of redemptions with one request per owner, worked out request by request. */
module RedemptionBatch {
  import opened Common
  import opened OwnerClaims
  import opened ShareRedemption
  import opened RedemptionOrder

  /** Each request is within its holding, and all holdings together are within the supply. */
  ghost predicate Affordable(requests: seq<RedemptionRequest>, supply: int) {
    && OneRequestPerOwner(requests) && SumAvailable(requests) <= supply
    && forall k :: 0 <= k < |requests| ==> 0 < requests[k].shares <= requests[k].available <= supply
  }

  function SumAvailable(requests: seq<RedemptionRequest>): int {
    if requests == [] then 0 else SumAvailable(requests[..|requests| - 1]) + requests[|requests| - 1].available
  }

  function SumShares(requests: seq<RedemptionRequest>): int {
    if requests == [] then 0 else SumShares(requests[..|requests| - 1]) + requests[|requests| - 1].shares
  }

  function AvailableEntries(requests: seq<RedemptionRequest>): seq<Entry> {
    seq(|requests|, i requires 0 <= i < |requests| => Entry(requests[i].owner, requests[i].available))
  }

  ghost predicate OneEntryPerOwner(entries: seq<Entry>) {
    forall i, j :: 0 <= i < j < |entries| ==> entries[i].owner != entries[j].owner
  }

  // ---------------------------------------------------------------- sums with one entry per owner

  lemma {:induction false} NoneOfOwner(entries: seq<Entry>, owner: nat)
    requires forall i :: 0 <= i < |entries| ==> entries[i].owner != owner
    ensures SumFor(entries, owner) == 0
  {
    if entries != [] {
      NoneOfOwner(entries[..|entries| - 1], owner);
    }
  }

  lemma {:induction false} OwnSum(entries: seq<Entry>, k: nat)
    requires OneEntryPerOwner(entries) && k < |entries|
    ensures SumFor(entries, entries[k].owner) == entries[k].amount
  {
    var init := entries[..|entries| - 1];
    if k < |entries| - 1 {
      OwnSum(init, k);
    } else {
      NoneOfOwner(init, entries[k].owner);
    }
  }

  lemma {:induction false} SharesSum(requests: seq<RedemptionRequest>)
    ensures SumAll(ShareEntries(requests)) == SumShares(requests)
    ensures SumAll(AvailableEntries(requests)) == SumAvailable(requests)
  {
    if requests != [] {
      var init, r := requests[..|requests| - 1], requests[|requests| - 1];
      SharesSum(init);
      assert ShareEntries(requests) == ShareEntries(init) + [Entry(r.owner, r.shares)];
      assert AvailableEntries(requests) == AvailableEntries(init) + [Entry(r.owner, r.available)];
      SumAppended(ShareEntries(init), Entry(r.owner, r.shares));
      SumAppended(AvailableEntries(init), Entry(r.owner, r.available));
    }
  }

  lemma {:induction false} SumAppended(entries: seq<Entry>, e: Entry)
    ensures SumAll(entries + [e]) == SumAll(entries) + e.amount
  {
    Snoc(entries, e);
  }

  // ---------------------------------------------------------------- the groups

  lemma {:induction false} AffordableGroups(requests: seq<RedemptionRequest>, supply: int)
    requires Affordable(requests, supply)
    ensures GroupRedemptions(requests).Ok? && HoldingsOf(requests, GroupRedemptions(requests).value)
    ensures AllPositive(ShareEntries(requests)) && AllPositive(AvailableEntries(requests))
    ensures OneEntryPerOwner(ShareEntries(requests)) && OneEntryPerOwner(AvailableEntries(requests))
  {
    assert Groupable(requests);
    GroupsWhen(requests);
  }

  /** Each owner's group is that owner's one request. */
  lemma {:induction false} OwnGroup(requests: seq<RedemptionRequest>, supply: int, k: nat)
    requires Affordable(requests, supply) && k < |requests|
    ensures GroupRedemptions(requests).Ok?
    ensures var m, r := GroupRedemptions(requests).value, requests[k];
            r.owner in m && m[r.owner] == Holding(r.shares, r.available)
  {
    AffordableGroups(requests, supply);
    GroupMeaning(requests);
    var m, r := GroupRedemptions(requests).value, requests[k];
    OwnSum(ShareEntries(requests), k);
    assert ShareEntries(requests)[k].owner == r.owner;
    assert Weights(m)[r.owner] == r.shares;
  }

  lemma {:induction false} GroupOf(requests: seq<RedemptionRequest>, supply: int, o: nat) returns (k: nat)
    requires Affordable(requests, supply) && GroupRedemptions(requests).Ok? && o in GroupRedemptions(requests).value
    ensures k < |requests| && requests[k].owner == o
    ensures GroupRedemptions(requests).value[o] == Holding(requests[k].shares, requests[k].available)
  {
    AffordableGroups(requests, supply);
    k :| 0 <= k < |requests| && requests[k].owner == o;
    OwnGroup(requests, supply, k);
  }

  lemma {:induction false} HoldingOf(requests: seq<RedemptionRequest>, supply: int, o: nat)
    requires Affordable(requests, supply) && GroupRedemptions(requests).Ok? && AllPositive(AvailableEntries(requests))
    ensures o in GroupRedemptions(requests).value <==> o in Owners(AvailableEntries(requests))
    ensures o in GroupRedemptions(requests).value ==>
              GroupRedemptions(requests).value[o].available == SumFor(AvailableEntries(requests), o)
  {
    hide GroupRedemptions;
    var entries := AvailableEntries(requests);
    AffordableGroups(requests, supply);
    if o in GroupRedemptions(requests).value {
      var k := GroupOf(requests, supply, o);
      assert entries[k].owner == o;
      OwnSum(entries, k);
    }
    if o in Owners(entries) {
      var k :| 0 <= k < |entries| && entries[k].owner == o;
      assert requests[k].owner == o;
    }
  }

  lemma {:induction false} HoldingsAddUp(requests: seq<RedemptionRequest>, supply: int)
    requires Affordable(requests, supply)
    ensures GroupRedemptions(requests).Ok?
    ensures SumWeights(ClaimsOf(Availables(GroupRedemptions(requests).value))) == SumAvailable(requests)
  {
    hide Affordable, GroupRedemptions, SumWeights, ClaimsOf, SumAvailable, SumAll, AvailableEntries, SumFor;
    AffordableGroups(requests, supply);
    var m, entries := GroupRedemptions(requests).value, AvailableEntries(requests);
    forall o: nat
      ensures o in m <==> o in Owners(entries)
      ensures o in m ==> m[o].available == SumFor(entries, o)
    {
      HoldingOf(requests, supply, o);
    }
    assert Availables(m) == Totals(entries);
    GroupingConserves(entries);
    SharesSum(requests);
  }

  lemma {:induction false} ClaimListed(m: map<nat, nat>, o: nat) returns (i: nat)
    requires o in m
    ensures i < |ClaimsOf(m)| && ClaimsOf(m)[i] == Claim(o, m[o])
    decreases |m|
  {
    var least := MinOf(m.Keys);
    assert (m - {least}).Keys == m.Keys - {least};
    if least == o {
      i := 0;
    } else {
      var k := ClaimListed(m - {least}, o);
      i := k + 1;
    }
  }

  // ---------------------------------------------------------------- the batch

  /** The batch goes through, and its groups are the requests. */
  lemma {:induction false} BatchGoesThrough(nav: nat, supply: Positive, requests: seq<RedemptionRequest>)
    requires requests != [] && Affordable(requests, supply)
    ensures FinalizeRedemptions(nav, supply, requests).Ok? && GroupRedemptions(requests).Ok?
    ensures FinalizeRedemptions(nav, supply, requests)
         == RedeemClaims(nav, supply, ClaimsOf(Weights(GroupRedemptions(requests).value)))
  {
    HoldingsAddUp(requests, supply);
    hide GroupRedemptions, RedeemClaims;
    RedemptionsNeverExceedSupply(nav, supply, requests);
    var m := GroupRedemptions(requests).value;
    forall o | o in m
      ensures m[o].weight <= m[o].available <= supply
    {
      var k := GroupOf(requests, supply, o);
    }
    OnlyExcess(nav, supply, ClaimsOf(Weights(m)));
  }

  lemma {:induction false} OnlyExcess(nav: nat, supply: Positive, claims: seq<Claim>)
    ensures RedeemClaims(nav, supply, claims).Err? ==>
              RedeemClaims(nav, supply, claims) == Err(RedemptionsExceedSupply)
  {
  }

  function AllocationOf(r: RedemptionRequest, nav: nat, supply: Positive): Allocation
    requires 0 < r.shares
  {
    Allocate(Claim(r.owner, r.shares), nav, supply)
  }

  /**
   What the batch pays when every owner asks once: to each owner the floor of that owner's own request and to
   nobody else, in total what the requests are paid one by one, with dust only when the whole supply is burned.
   */
  lemma {:induction false} BatchPaysEach(nav: nat, supply: Positive, requests: seq<RedemptionRequest>)
    requires requests != [] && Affordable(requests, supply)
    ensures FinalizeRedemptions(nav, supply, requests).Ok?
    ensures var batch := FinalizeRedemptions(nav, supply, requests).value;
            && batch.burned == SumShares(requests) && batch.matured == SumSingles(requests, nav, supply)
            && batch.protocolDust == (if SumShares(requests) == supply then nav - batch.matured else 0)
            && (forall k :: 0 <= k < |requests| ==> AllocationOf(requests[k], nav, supply) in batch.allocations)
            && (forall a :: a in batch.allocations ==>
                  exists k :: 0 <= k < |requests| && a == AllocationOf(requests[k], nav, supply))
  {
    BatchGoesThrough(nav, supply, requests);
    BatchTotals(nav, supply, requests);
    forall k | 0 <= k < |requests|
      ensures AllocationOf(requests[k], nav, supply) in FinalizeRedemptions(nav, supply, requests).value.allocations
    {
      EachIsAllocated(nav, supply, requests, k);
    }
    NobodyElse(nav, supply, requests);
  }

  lemma {:induction false} BatchTotals(nav: nat, supply: Positive, requests: seq<RedemptionRequest>)
    requires requests != [] && Affordable(requests, supply) && FinalizeRedemptions(nav, supply, requests).Ok?
    ensures var batch := FinalizeRedemptions(nav, supply, requests).value;
            && batch.burned == SumShares(requests) && batch.matured == SumSingles(requests, nav, supply)
            && batch.protocolDust == (if SumShares(requests) == supply then nav - batch.matured else 0)
  {
    SharesSum(requests);
    RedemptionIsFair(nav, supply, requests);
    SinglesAgainstGroups(requests, nav, supply);
    hide GroupRedemptions;
  }

  lemma {:induction false} EachIsAllocated(nav: nat, supply: Positive, requests: seq<RedemptionRequest>, k: nat)
    requires requests != [] && Affordable(requests, supply) && k < |requests|
    ensures FinalizeRedemptions(nav, supply, requests).Ok?
    ensures AllocationOf(requests[k], nav, supply) in FinalizeRedemptions(nav, supply, requests).value.allocations
  {
    BatchGoesThrough(nav, supply, requests);
    OwnGroup(requests, supply, k);
    hide FinalizeRedemptions, GroupRedemptions;
    var m := GroupRedemptions(requests).value;
    var i := ClaimListed(Weights(m), requests[k].owner);
    var claims := ClaimsOf(Weights(m));
    assert AllocateIdentityFloors(claims, nav, supply).allocations[i] == Allocate(claims[i], nav, supply);
  }

  lemma {:induction false} NobodyElse(nav: nat, supply: Positive, requests: seq<RedemptionRequest>)
    requires requests != [] && Affordable(requests, supply)
    ensures FinalizeRedemptions(nav, supply, requests).Ok?
    ensures forall a :: a in FinalizeRedemptions(nav, supply, requests).value.allocations ==>
              exists k :: 0 <= k < |requests| && a == AllocationOf(requests[k], nav, supply)
  {
    BatchGoesThrough(nav, supply, requests);
    hide FinalizeRedemptions, GroupRedemptions;
    var m := GroupRedemptions(requests).value;
    var claims := ClaimsOf(Weights(m));
    ClaimsOfMap(Weights(m));
    forall i | 0 <= i < |claims|
      ensures exists k :: 0 <= k < |requests| &&
                          Allocate(claims[i], nav, supply) == AllocationOf(requests[k], nav, supply)
    {
      var k := GroupOf(requests, supply, claims[i].owner);
      assert claims[i] == Claim(requests[k].owner, requests[k].shares);
      assert Allocate(claims[i], nav, supply) == AllocationOf(requests[k], nav, supply);
    }
  }
}
