/**
 Grouping amounts by owner, and dividing a whole among owners by flooring each owner's
 exact claim. Every division is a floor of non-negative numbers, as `bigint` division is.
 */
module OwnerClaims {
  import opened Common

  const MICRO_USDC_PER_USDC: Positive := 1_000_000
  const SHARE_UNITS_PER_SHARE: Positive := 1_000_000_000_000_000_000
  const SHARE_PRICE_FIXED_SCALE: Positive := 1_000_000_000_000_000_000

  datatype Fault =
    | InvalidNav
    | InvalidSupply
    | GenesisNavWithoutShares
    | DepositAtZeroSharePrice
    | EntriesEmpty
    | InvalidAmount
    | InvalidHolding
    | MintsZeroShares
    | OwnerMintsZeroShares
    | InconsistentHolding
    | ExceedsOwnerHolding
    | HoldingExceedsSupply
    | HoldingsExceedSupply
    | RedemptionsExceedSupply
    | InvalidLot
    | BurnExceedsLot

  /** One deposit, or any other amount attributed to an owner. */
  datatype Entry = Entry(owner: nat, amount: int)

  datatype Claim = Claim(owner: nat, weight: nat)

  datatype Allocation = Allocation(owner: nat, weight: nat, amount: nat, remainder: nat)

  // ---------------------------------------------------------------- aggregation by owner

  ghost predicate AllPositive(entries: seq<Entry>) {
    forall i :: 0 <= i < |entries| ==> 0 < entries[i].amount
  }

  /** What `owner` put in over all entries. */
  function SumFor(entries: seq<Entry>, owner: nat): int {
    if entries == [] then 0
    else
      var last := entries[|entries| - 1];
      SumFor(entries[..|entries| - 1], owner) + (if last.owner == owner then last.amount else 0)
  }

  function SumAll(entries: seq<Entry>): int {
    if entries == [] then 0
    else SumAll(entries[..|entries| - 1]) + entries[|entries| - 1].amount
  }

  function Owners(entries: seq<Entry>): set<nat> {
    set i | 0 <= i < |entries| :: entries[i].owner
  }

  lemma {:induction false} SumForSign(entries: seq<Entry>, owner: nat)
    requires AllPositive(entries)
    ensures 0 <= SumFor(entries, owner)
    ensures 0 < SumFor(entries, owner) <==> owner in Owners(entries)
  {
    if entries != [] {
      SumForSign(entries[..|entries| - 1], owner);
      assert Owners(entries) == Owners(entries[..|entries| - 1]) + {entries[|entries| - 1].owner};
    }
  }

  /** The amount of every owner, the meaning of the grouping loop. */
  ghost function Totals(entries: seq<Entry>): (m: map<nat, nat>)
    requires AllPositive(entries)
    ensures m.Keys == Owners(entries)
  {
    map o | o in Owners(entries) :: (SumForSign(entries, o); SumFor(entries, o) as nat)
  }

  ghost predicate Least(m: nat, s: set<nat>) {
    m in s && forall x :: x in s ==> m <= x
  }

  function MinOf(s: set<nat>): (m: nat)
    requires s != {}
    ensures Least(m, s)
  {
    MinExists(s);
    var m :| m in s && forall x :: x in s ==> m <= x;
    m
  }

  lemma {:induction false} MinExists(s: set<nat>)
    requires s != {}
    ensures exists m :: Least(m, s)
  {
    var y :| y in s;
    var rest := s - {y};
    if rest == {} {
      assert s == {y};
      assert Least(y, s);
    } else {
      MinExists(rest);
      var m :| Least(m, rest);
      assert forall x :: x in s ==> x == y || x in rest;
      assert Least(if m < y then m else y, s);
    }
  }

  /** The claims of a grouped map, in owner order. */
  function ClaimsOf(m: map<nat, nat>): seq<Claim>
    decreases |m|
  {
    if m == map[] then []
    else
      var o := MinOf(m.Keys);
      assert (m - {o}).Keys == m.Keys - {o};
      [Claim(o, m[o])] + ClaimsOf(m - {o})
  }

  /** Each key of the map is claimed once, at its weight, in increasing order. */
  lemma {:induction false} ClaimsOfMap(m: map<nat, nat>)
    ensures |ClaimsOf(m)| == |m|
    ensures forall i :: 0 <= i < |ClaimsOf(m)| ==>
      ClaimsOf(m)[i].owner in m && m[ClaimsOf(m)[i].owner] == ClaimsOf(m)[i].weight
    ensures forall i, j :: 0 <= i < j < |ClaimsOf(m)| ==> ClaimsOf(m)[i].owner < ClaimsOf(m)[j].owner
    decreases |m|
  {
    if m != map[] {
      var o := MinOf(m.Keys);
      assert (m - {o}).Keys == m.Keys - {o};
      ClaimsOfMap(m - {o});
      var tail := ClaimsOf(m - {o});
      forall i | 0 <= i < |tail|
        ensures o < tail[i].owner && tail[i].owner in m && m[tail[i].owner] == tail[i].weight
      {
      }
    }
  }

  /** Groups entries by owner. */
  method AggregateClaims(entries: seq<Entry>) returns (r: Result<seq<Claim>, Fault>)
    ensures entries == [] ==> r == Err(EntriesEmpty)
    ensures entries != [] && !AllPositive(entries) ==> r == Err(InvalidAmount)
    ensures entries != [] && AllPositive(entries) ==> r == Ok(ClaimsOf(Totals(entries)))
  {
    if |entries| == 0 {
      return Err(EntriesEmpty);
    }
    var byOwner: map<nat, nat> := map[];
    for i := 0 to |entries|
      invariant AllPositive(entries[..i])
      invariant byOwner == Totals(entries[..i])
    {
      var e := entries[i];
      if e.amount <= 0 {
        return Err(InvalidAmount);
      }
      assert entries[..i + 1] == entries[..i] + [e];
      TotalsAppend(entries[..i], e);
      byOwner := byOwner[e.owner := (if e.owner in byOwner then byOwner[e.owner] else 0) + e.amount];
    }
    assert entries[..|entries|] == entries;
    return Ok(ClaimsOf(byOwner));
  }

  ghost function ClaimsFor(entries: seq<Entry>): Result<seq<Claim>, Fault> {
    if entries == [] then Err(EntriesEmpty)
    else if !AllPositive(entries) then Err(InvalidAmount)
    else Ok(ClaimsOf(Totals(entries)))
  }

  // ---------------------------------------------------------------- floors per identity

  function SumWeights(claims: seq<Claim>): nat {
    if claims == [] then 0 else claims[0].weight + SumWeights(claims[1..])
  }

  function SumFloors(claims: seq<Claim>, multiplier: nat, denominator: Positive): nat {
    if claims == [] then 0
    else claims[0].weight * multiplier / denominator + SumFloors(claims[1..], multiplier, denominator)
  }

  function SumRemainders(claims: seq<Claim>, multiplier: nat, denominator: Positive): nat {
    if claims == [] then 0
    else claims[0].weight * multiplier % denominator + SumRemainders(claims[1..], multiplier, denominator)
  }

  function Allocate(claim: Claim, multiplier: nat, denominator: Positive): Allocation {
    var numerator := claim.weight * multiplier;
    Allocation(claim.owner, claim.weight, numerator / denominator, numerator % denominator)
  }

  datatype Floors = Floors(totalWeight: nat, aggregateFloor: nat, granted: nat, dust: int,
                           totalRemainder: nat, allocations: seq<Allocation>)

  function AllocateIdentityFloors(claims: seq<Claim>, multiplier: nat, denominator: Positive): Floors {
    var totalWeight := SumWeights(claims);
    var aggregate := totalWeight * multiplier / denominator;
    var granted := SumFloors(claims, multiplier, denominator);
    Floors(totalWeight, aggregate, granted, aggregate - granted,
           totalWeight * multiplier % denominator,
           seq(|claims|, i requires 0 <= i < |claims| => Allocate(claims[i], multiplier, denominator)))
  }

  /** Numerator conservation: floors and remainders together are the exact claim. */
  lemma {:induction false} FloorsConserve(claims: seq<Claim>, multiplier: nat, denominator: Positive)
    ensures SumWeights(claims) * multiplier
         == SumFloors(claims, multiplier, denominator) * denominator
          + SumRemainders(claims, multiplier, denominator)
    ensures SumRemainders(claims, multiplier, denominator) <= |claims| * (denominator - 1)
  {
    if claims != [] {
      var w, rest := claims[0].weight, claims[1..];
      FloorsConserve(rest, multiplier, denominator);
      Distribute(w, SumWeights(rest), multiplier);
      FloorStep(w * multiplier, SumWeights(rest) * multiplier, SumFloors(rest, multiplier, denominator),
                SumRemainders(rest, multiplier, denominator), denominator);
      Distribute(|rest|, 1, denominator - 1);
    }
  }

  lemma {:induction false} DustOf(total: nat, floors: nat, remainders: nat, n: Positive, d: Positive)
    requires total == floors * d + remainders && remainders <= n * (d - 1)
    ensures remainders == (total / d - floors) * d + total % d
    ensures 0 <= total / d - floors < n
  {
    var dust := total / d - floors;
    FloorBounds(total, d);
    assert dust * d == total / d * d - floors * d;
    MulGap(dust, 0, d);
    MulGap(n - 1, dust, d);
    assert n * (d - 1) == n * d - n;
    assert (n - 1) * d == n * d - d;
  }

  /**
   The withheld dust is exactly what the owners' remainders add up to, in whole units:
   fewer units than there are owners, and never negative.
   */
  lemma {:induction false} IdentityFloorDust(claims: seq<Claim>, multiplier: nat, denominator: Positive)
    requires claims != []
    ensures var f := AllocateIdentityFloors(claims, multiplier, denominator);
            && SumRemainders(claims, multiplier, denominator) == f.dust * denominator + f.totalRemainder
            && 0 <= f.dust < |claims|
            && f.granted * denominator <= f.totalWeight * multiplier
  {
    FloorsConserve(claims, multiplier, denominator);
    DustOf(SumWeights(claims) * multiplier, SumFloors(claims, multiplier, denominator),
           SumRemainders(claims, multiplier, denominator), |claims|, denominator);
  }

  // ---------------------------------------------------------------- sums over grouped maps

  lemma {:induction false} MinWithout(m: map<nat, nat>, owner: nat, least: nat)
    requires owner in m && owner != least && least == MinOf(m.Keys)
    ensures ClaimsOf(m - {owner}) == [Claim(least, m[least])] + ClaimsOf(m - {least} - {owner})
  {
    var without := m - {owner};
    assert without.Keys == m.Keys - {owner};
    assert least in without && MinOf(without.Keys) == least;
    assert without - {least} == m - {least} - {owner};
  }

  /** Any owner can be taken out of the sum first. */
  lemma {:induction false} TakeOut(m: map<nat, nat>, owner: nat, multiplier: nat, denominator: Positive)
    requires owner in m
    ensures SumFloors(ClaimsOf(m), multiplier, denominator)
         == m[owner] * multiplier / denominator + SumFloors(ClaimsOf(m - {owner}), multiplier, denominator)
    decreases |m|
  {
    var least := MinOf(m.Keys);
    assert (m - {least}).Keys == m.Keys - {least};
    if least != owner {
      TakeOut(m - {least}, owner, multiplier, denominator);
      MinWithout(m, owner, least);
    }
  }

  lemma {:induction false} WeightsAreUnitFloors(claims: seq<Claim>)
    ensures SumWeights(claims) == SumFloors(claims, 1, 1)
  {
    if claims != [] {
      WeightsAreUnitFloors(claims[1..]);
    }
  }

  lemma {:induction false} SumForAppend(entries: seq<Entry>, e: Entry, owner: nat)
    ensures SumFor(entries + [e], owner) == SumFor(entries, owner) + (if e.owner == owner then e.amount else 0)
    ensures SumAll(entries + [e]) == SumAll(entries) + e.amount
  {
    assert (entries + [e])[..|entries|] == entries;
  }

  /** Changing one owner's total changes the sum by that owner's own change. */
  lemma {:induction false} SetOneFloor(m: map<nat, nat>, owner: nat, weight: nat, multiplier: nat,
                                       denominator: Positive)
    ensures SumFloors(ClaimsOf(m[owner := weight]), multiplier, denominator)
         == SumFloors(ClaimsOf(m), multiplier, denominator) + weight * multiplier / denominator
          - (if owner in m then m[owner] * multiplier / denominator else 0)
  {
    var m' := m[owner := weight];
    assert m' - {owner} == m - {owner};
    TakeOut(m', owner, multiplier, denominator);
    if owner in m {
      TakeOut(m, owner, multiplier, denominator);
    } else {
      assert m - {owner} == m;
    }
  }

  lemma {:induction false} OwnersAppend(entries: seq<Entry>, e: Entry)
    ensures Owners(entries + [e]) == Owners(entries) + {e.owner}
  {
    assert forall i :: 0 <= i < |entries| ==> (entries + [e])[i] == entries[i];
    assert (entries + [e])[|entries|] == e;
  }

  lemma {:induction false} TotalsAppend(entries: seq<Entry>, e: Entry)
    requires AllPositive(entries) && 0 < e.amount
    ensures AllPositive(entries + [e]) && 0 <= SumFor(entries, e.owner)
    ensures Totals(entries + [e])
         == Totals(entries)[e.owner := SumFor(entries, e.owner) + e.amount]
    ensures e.owner in Totals(entries) || SumFor(entries, e.owner) == 0
  {
    OwnersAppend(entries, e);
    SumForSign(entries, e.owner);
    var m, m' := Totals(entries + [e]), Totals(entries)[e.owner := SumFor(entries, e.owner) + e.amount];
    forall o | o in m
      ensures m[o] == m'[o]
    {
      SumForAppend(entries, e, o);
    }
    assert m == m';
  }

  lemma {:induction false} SetOneWeight(m: map<nat, nat>, owner: nat, weight: nat)
    ensures SumWeights(ClaimsOf(m[owner := weight]))
         == SumWeights(ClaimsOf(m)) + weight - (if owner in m then m[owner] else 0)
  {
    WeightsAreUnitFloors(ClaimsOf(m));
    WeightsAreUnitFloors(ClaimsOf(m[owner := weight]));
    SetOneFloor(m, owner, weight, 1, 1);
  }

  lemma {:induction false} GroupingStep(init: seq<Entry>, e: Entry)
    requires AllPositive(init) && 0 < e.amount && SumWeights(ClaimsOf(Totals(init))) == SumAll(init)
    ensures AllPositive(init + [e]) && SumWeights(ClaimsOf(Totals(init + [e]))) == SumAll(init + [e])
  {
    TotalsAppend(init, e);
    SumForAppend(init, e, e.owner);
    SetOneWeight(Totals(init), e.owner, SumFor(init, e.owner) + e.amount);
  }

  /** Grouping loses nothing: the owners' totals add up to the entries. */
  lemma {:induction false} GroupingConserves(entries: seq<Entry>)
    requires AllPositive(entries)
    ensures SumWeights(ClaimsOf(Totals(entries))) == SumAll(entries)
  {
    if entries == [] {
      assert Totals(entries) == map[];
    } else {
      var init, e := entries[..|entries| - 1], entries[|entries| - 1];
      GroupingConserves(init);
      GroupingStep(init, e);
      assert entries == init + [e];
    }
  }

  // ---------------------------------------------------------------- order and identity of entries

  lemma {:induction false} SumForConcat(a: seq<Entry>, b: seq<Entry>, owner: nat)
    ensures SumFor(a + b, owner) == SumFor(a, owner) + SumFor(b, owner)
    ensures SumAll(a + b) == SumAll(a) + SumAll(b)
    decreases |b|
  {
    if b == [] {
      assert a + b == a;
    } else {
      var init, e := b[..|b| - 1], b[|b| - 1];
      SumForConcat(a, init, owner);
      SumForAppend(a + init, e, owner);
      assert a + b == a + init + [e];
    }
  }

  lemma {:induction false} WithoutOne(b: seq<Entry>, j: nat, owner: nat)
    requires j < |b|
    ensures multiset(b[..j] + b[j + 1..]) == multiset(b) - multiset{b[j]}
    ensures SumFor(b, owner) == SumFor(b[..j] + b[j + 1..], owner) + (if b[j].owner == owner then b[j].amount else 0)
  {
    assert b == b[..j] + [b[j]] + b[j + 1..];
    SumForConcat(b[..j], b[j + 1..], owner);
    SumForConcat(b[..j] + [b[j]], b[j + 1..], owner);
    SumForAppend(b[..j], b[j], owner);
  }

  lemma {:induction false} PermutedSumFor(a: seq<Entry>, b: seq<Entry>, owner: nat)
    requires multiset(a) == multiset(b)
    ensures SumFor(a, owner) == SumFor(b, owner)
    decreases |a|
  {
    assert |multiset(a)| == |a| && |multiset(b)| == |b|;
    if a != [] {
      var init, e := a[..|a| - 1], a[|a| - 1];
      assert a == init + [e];
      assert e in multiset(b);
      var j :| 0 <= j < |b| && b[j] == e;
      WithoutOne(b, j, owner);
      PermutedSumFor(init, b[..j] + b[j + 1..], owner);
    }
  }

  lemma {:induction false} SameTotals(a: seq<Entry>, b: seq<Entry>)
    requires AllPositive(a) && AllPositive(b)
    requires forall o: nat :: SumFor(a, o) == SumFor(b, o)
    ensures Totals(a) == Totals(b)
  {
    forall o: nat
      ensures o in Owners(a) <==> o in Owners(b)
    {
      SumForSign(a, o);
      SumForSign(b, o);
    }
    assert Owners(a) == Owners(b);
  }

  /** The order in which entries arrive never matters. */
  lemma {:induction false} ClaimsIgnoreOrder(a: seq<Entry>, b: seq<Entry>)
    requires multiset(a) == multiset(b)
    ensures ClaimsFor(a) == ClaimsFor(b)
  {
    assert |multiset(a)| == |a| && |multiset(b)| == |b|;
    assert AllPositive(a) <==> AllPositive(b) by {
      assert forall i :: 0 <= i < |a| ==> a[i] in multiset(a);
      assert forall i :: 0 <= i < |b| ==> b[i] in multiset(b);
      assert forall e :: e in multiset(a) ==> e in b;
      assert forall e :: e in multiset(b) ==> e in a;
    }
    if AllPositive(a) {
      forall o: nat
        ensures SumFor(a, o) == SumFor(b, o)
      {
        PermutedSumFor(a, b, o);
      }
      SameTotals(a, b);
    }
  }

  /** Nor does splitting one owner's entry into two of the same owner. */
  lemma {:induction false} ClaimsIgnoreEntrySplit(before: seq<Entry>, owner: nat, x: Positive, y: Positive,
                                                  after: seq<Entry>)
    ensures ClaimsFor(before + [Entry(owner, x), Entry(owner, y)] + after)
         == ClaimsFor(before + [Entry(owner, x + y)] + after)
  {
    var a := before + [Entry(owner, x), Entry(owner, y)] + after;
    var b := before + [Entry(owner, x + y)] + after;
    SplitPositive(before, [Entry(owner, x), Entry(owner, y)], after);
    SplitPositive(before, [Entry(owner, x + y)], after);
    if AllPositive(a) {
      forall o: nat
        ensures SumFor(a, o) == SumFor(b, o)
      {
        SumForConcat(before + [Entry(owner, x), Entry(owner, y)], after, o);
        SumForConcat(before + [Entry(owner, x + y)], after, o);
        SumForAppend(before, Entry(owner, x), o);
        SumForAppend(before + [Entry(owner, x)], Entry(owner, y), o);
        assert before + [Entry(owner, x), Entry(owner, y)] == before + [Entry(owner, x)] + [Entry(owner, y)];
        SumForAppend(before, Entry(owner, x + y), o);
      }
      SameTotals(a, b);
    }
  }

  lemma {:induction false} SplitPositive(before: seq<Entry>, mid: seq<Entry>, after: seq<Entry>)
    requires AllPositive(mid)
    ensures AllPositive(before + mid + after) <==> AllPositive(before) && AllPositive(after)
  {
    var all := before + mid + after;
    if AllPositive(all) {
      assert forall i :: 0 <= i < |before| ==> before[i] == all[i];
      assert forall i :: 0 <= i < |after| ==> after[i] == all[|before| + |mid| + i];
    }
  }

  lemma {:induction false} JoinedFloor(x: nat, y: nat, multiplier: nat, denominator: Positive)
    ensures x * multiplier / denominator + y * multiplier / denominator
         <= (x + y) * multiplier / denominator
    ensures 0 * multiplier / denominator == 0
  {
    assert (x + y) * multiplier == x * multiplier + y * multiplier;
    FloorAdd(x * multiplier, y * multiplier, denominator);
  }

  /**
   Splitting one owner's total between that owner and a new identity never gains:
   the two get at most what the one got, and the whole batch is granted no more.
   */
  lemma {:induction false} IdentitySplitNeverGains(m: map<nat, nat>, owner: nat, other: nat, x: nat, y: nat,
                                multiplier: nat, denominator: Positive)
    requires owner in m && m[owner] == x + y && other !in m
    ensures x * multiplier / denominator + y * multiplier / denominator
         <= m[owner] * multiplier / denominator
    ensures SumFloors(ClaimsOf(m[owner := x][other := y]), multiplier, denominator)
         <= SumFloors(ClaimsOf(m), multiplier, denominator)
  {
    hide ClaimsOf, SumFloors;
    var split := m[owner := x][other := y];
    TakeOut(m, owner, multiplier, denominator);
    TakeOut(split, other, multiplier, denominator);
    TakeOut(split - {other}, owner, multiplier, denominator);
    assert split - {other} - {owner} == m - {owner};
    JoinedFloor(x, y, multiplier, denominator);
  }
}
