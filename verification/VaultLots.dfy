/** First-in first-out consumption of a position's share lots. */
module VaultLots {
  import opened Common
  import opened CostBasis
  import opened OwnerClaims
  import opened VaultTables

  datatype Plan = Plan(parts: seq<LotBurn>, basis: int, remaining: int)

  /** One turn of the loop over the position's lots. */
  function PlanLot(lots: seq<Lot>, allocations: seq<BurnAllocation>, plan: Plan, i: nat): Result<Plan, Fault>
    requires i < |lots|
  {
    var burned := LotBurned(allocations, i);
    var available := lots[i].shares - burned;
    var used := if plan.remaining < available then plan.remaining else available;
    if used == 0 then Ok(plan)
    else
      match AllocateCostBasis(CostBasisLot(lots[i].shares, lots[i].basis, burned), used)
      case Err(fault) => Err(fault)
      case Ok(step) =>
        var part := LotBurn(i, used, step.allocatedBasis, burned, step.nextLot.burned,
                            LotBasis(allocations, i), step.cumulativeBasis);
        Ok(Plan(plan.parts + [part], plan.basis + step.allocatedBasis, plan.remaining - used))
  }

  /** The plan for burning `need` shares of `user` after the first `n` lots. */
  function PlanBurn(lots: seq<Lot>, allocations: seq<BurnAllocation>, user: nat, need: int, n: nat): Result<Plan, Fault>
    requires n <= |lots|
  {
    if n == 0 then Ok(Plan([], 0, need))
    else
      match PlanBurn(lots, allocations, user, need, n - 1)
      case Err(fault) => Err(fault)
      case Ok(plan) =>
        if lots[n - 1].user != user || plan.remaining == 0 then Ok(plan)
        else PlanLot(lots, allocations, plan, n - 1)
  }

  function Recorded(allocations: seq<BurnAllocation>, burn: nat, parts: seq<LotBurn>): seq<BurnAllocation> {
    if parts == [] then allocations
    else Recorded(allocations, burn, parts[..|parts| - 1]) + [BurnAllocation(burn, parts[|parts| - 1])]
  }

  function PartShares(parts: seq<LotBurn>): int {
    if parts == [] then 0 else PartShares(parts[..|parts| - 1]) + parts[|parts| - 1].burned
  }

  function PartBasis(parts: seq<LotBurn>): int {
    if parts == [] then 0 else PartBasis(parts[..|parts| - 1]) + parts[|parts| - 1].basis
  }

  // ---------------------------------------------------------------- what every run of burns keeps

  ghost predicate LotSound(lot: Lot, burned: int, basis: int) {
    && 0 < lot.shares && 0 <= lot.basis && 0 <= burned <= lot.shares
    && basis == CumulativeBasis(lot.shares, lot.basis, burned)
  }

  /** A lot's cumulative basis is one floor of what is burned, however that was split. */
  ghost predicate LotsSound(lots: seq<Lot>, allocations: seq<BurnAllocation>) {
    forall i :: 0 <= i < |lots| ==> LotSound(lots[i], LotBurned(allocations, i), LotBasis(allocations, i))
  }

  /** No lot of a position is touched before every older lot of it is used up. */
  ghost predicate FirstInFirstOut(lots: seq<Lot>, allocations: seq<BurnAllocation>) {
    forall i, j :: 0 <= i < j < |lots| && lots[i].user == lots[j].user && 0 < LotBurned(allocations, j) ==>
      LotBurned(allocations, i) == lots[i].shares
  }

  /** Each allocation starts where the previous one of its lot ended. */
  ghost predicate Chained(allocations: seq<BurnAllocation>) {
    forall k :: 0 <= k < |allocations| ==> ChainedAt(allocations, k)
  }

  ghost predicate ChainedAt(allocations: seq<BurnAllocation>, k: nat)
    requires k < |allocations|
  {
    var part := allocations[k].part;
    && part.priorBurned == LotBurned(allocations[..k], part.lot)
    && part.priorBasis == LotBasis(allocations[..k], part.lot)
    && 0 < part.burned == part.cumulativeBurned - part.priorBurned
    && part.basis == part.cumulativeBasis - part.priorBasis
  }

  // ---------------------------------------------------------------- one more allocation

  lemma {:induction false} OneMore(allocations: seq<BurnAllocation>, a: BurnAllocation, lot: nat)
    ensures LotBurned(allocations + [a], lot)
         == if a.part.lot == lot then a.part.cumulativeBurned else LotBurned(allocations, lot)
    ensures LotBasis(allocations + [a], lot)
         == if a.part.lot == lot then a.part.cumulativeBasis else LotBasis(allocations, lot)
  {
    assert (allocations + [a])[..|allocations|] == allocations;
  }

  lemma {:induction false} OneMoreUnburned(lots: seq<Lot>, allocations: seq<BurnAllocation>, a: BurnAllocation,
                                           user: nat, n: nat)
    requires n <= |lots| && a.part.lot < |lots|
    ensures var used := a.part.cumulativeBurned - LotBurned(allocations, a.part.lot);
            && UnburnedOf(lots, allocations + [a], user, n) == UnburnedOf(lots, allocations, user, n)
               - (if a.part.lot < n && lots[a.part.lot].user == user then used else 0)
            && UnburnedTotal(lots, allocations + [a], n) == UnburnedTotal(lots, allocations, n)
               - (if a.part.lot < n then used else 0)
  {
    if n != 0 {
      OneMoreUnburned(lots, allocations, a, user, n - 1);
      OneMore(allocations, a, n - 1);
    }
  }

  lemma {:induction false} OneMoreChained(allocations: seq<BurnAllocation>, a: BurnAllocation)
    requires Chained(allocations)
    requires a.part.priorBurned == LotBurned(allocations, a.part.lot)
    requires a.part.priorBasis == LotBasis(allocations, a.part.lot)
    requires 0 < a.part.burned == a.part.cumulativeBurned - a.part.priorBurned
    requires a.part.basis == a.part.cumulativeBasis - a.part.priorBasis
    ensures Chained(allocations + [a])
  {
    var longer := allocations + [a];
    forall k | 0 <= k < |longer|
      ensures ChainedAt(longer, k)
    {
      if k < |allocations| {
        assert longer[..k] == allocations[..k];
        assert ChainedAt(allocations, k);
      } else {
        assert longer[..k] == allocations;
      }
    }
  }

  // ---------------------------------------------------------------- the plan, lot by lot

  /** What is left to burn once `available` shares have been offered. */
  function Left(need: int, available: int): int {
    if need <= available then 0 else need - available
  }

  lemma {:induction false} UnburnedSign(lots: seq<Lot>, allocations: seq<BurnAllocation>, user: nat, n: nat)
    requires n <= |lots| && LotsSound(lots, allocations)
    ensures 0 <= UnburnedOf(lots, allocations, user, n) <= UnburnedTotal(lots, allocations, n)
  {
    if n != 0 {
      UnburnedSign(lots, allocations, user, n - 1);
      assert LotSound(lots[n - 1], LotBurned(allocations, n - 1), LotBasis(allocations, n - 1));
    }
  }

  /** The planned part takes a sound lot to a sound lot. */
  lemma {:induction false} PlannedPart(lots: seq<Lot>, allocations: seq<BurnAllocation>, plan: Plan, i: nat)
    requires i < |lots| && LotsSound(lots, allocations) && 0 < plan.remaining
    ensures PlanLot(lots, allocations, plan, i).Ok?
    ensures var next := PlanLot(lots, allocations, plan, i).value;
            var burned, available := LotBurned(allocations, i), Unburned(lots, allocations, i);
            && next.remaining == Left(plan.remaining, available)
            && (available == 0 ==> next == plan)
            && (0 < available ==>
                 && |next.parts| == |plan.parts| + 1 && next.parts[..|plan.parts|] == plan.parts
                 && var part := next.parts[|plan.parts|];
                    && part.lot == i && part.priorBurned == burned
                    && part.priorBasis == LotBasis(allocations, i)
                    && 0 < part.burned == plan.remaining - next.remaining
                    && part.cumulativeBurned == burned + part.burned
                    && part.basis == part.cumulativeBasis - part.priorBasis
                    && next.basis == plan.basis + part.basis
                    && 0 <= part.basis
                    && LotSound(lots[i], part.cumulativeBurned, part.cumulativeBasis))
  {
    var burned, available := LotBurned(allocations, i), Unburned(lots, allocations, i);
    assert LotSound(lots[i], burned, LotBasis(allocations, i));
    var used := if plan.remaining < available then plan.remaining else available;
    if 0 < used {
      CostBasisStep(CostBasisLot(lots[i].shares, lots[i].basis, burned), used);
    }
  }

  ghost predicate Untouched(before: seq<BurnAllocation>, after: seq<BurnAllocation>, lot: nat) {
    LotBurned(after, lot) == LotBurned(before, lot) && LotBasis(after, lot) == LotBasis(before, lot)
  }

  ghost predicate UsedUp(lots: seq<Lot>, allocations: seq<BurnAllocation>, user: nat, n: nat)
    requires n <= |lots|
  {
    forall i :: 0 <= i < n && lots[i].user == user ==> LotBurned(allocations, i) == lots[i].shares
  }

  /** Recording a sound part of the oldest unfinished lot keeps all lots sound and in order. */
  lemma {:induction false} RecordedSound(lots: seq<Lot>, allocations: seq<BurnAllocation>, a: BurnAllocation)
    requires var lot := a.part.lot;
             && lot < |lots| && LotsSound(lots, allocations)
             && LotSound(lots[lot], a.part.cumulativeBurned, a.part.cumulativeBasis)
             && FirstInFirstOut(lots, allocations) && UsedUp(lots, allocations, lots[lot].user, lot)
             && 0 < Unburned(lots, allocations, lot)
    ensures LotsSound(lots, allocations + [a]) && FirstInFirstOut(lots, allocations + [a])
    ensures forall i :: 0 <= i < |lots| && i != a.part.lot ==> Untouched(allocations, allocations + [a], i)
    ensures LotBurned(allocations + [a], a.part.lot) == a.part.cumulativeBurned
  {
    var after := allocations + [a];
    forall i
      ensures LotBurned(after, i)
           == if a.part.lot == i then a.part.cumulativeBurned else LotBurned(allocations, i)
      ensures LotBasis(after, i)
           == if a.part.lot == i then a.part.cumulativeBasis else LotBasis(allocations, i)
    {
      OneMore(allocations, a, i);
    }
    forall i | 0 <= i < |lots|
      ensures LotSound(lots[i], LotBurned(after, i), LotBasis(after, i))
    {
      assert LotSound(lots[i], LotBurned(allocations, i), LotBasis(allocations, i));
    }
  }

  ghost predicate Tallied(lots: seq<Lot>, allocations: seq<BurnAllocation>, user: nat, need: int, n: nat, plan: Plan)
    requires n <= |lots|
  {
    && plan.remaining == Left(need, UnburnedOf(lots, allocations, user, n))
    && PartShares(plan.parts) == need - plan.remaining
    && PartBasis(plan.parts) == plan.basis && 0 <= plan.basis
    && (forall k :: 0 <= k < |plan.parts| ==> plan.parts[k].lot < n && lots[plan.parts[k].lot].user == user)
  }

  /** The lots as they stand once the first `n` have been offered to the burn. */
  ghost predicate Planned(lots: seq<Lot>, allocations: seq<BurnAllocation>, after: seq<BurnAllocation>, user: nat,
                          n: nat, remaining: int)
    requires n <= |lots|
  {
    && LotsSound(lots, after) && Chained(after) && FirstInFirstOut(lots, after)
    && (forall i :: n <= i < |lots| ==> Untouched(allocations, after, i))
    && (0 < remaining ==> UsedUp(lots, after, user, n))
  }

  lemma {:induction false} RecordedPart(allocations: seq<BurnAllocation>, burn: nat, parts: seq<LotBurn>, part: LotBurn)
    ensures Recorded(allocations, burn, parts + [part])
         == Recorded(allocations, burn, parts) + [BurnAllocation(burn, part)]
    ensures PartShares(parts + [part]) == PartShares(parts) + part.burned
    ensures PartBasis(parts + [part]) == PartBasis(parts) + part.basis
  {
    assert (parts + [part])[..|parts|] == parts;
  }

  lemma {:induction false} PlanIsSound(lots: seq<Lot>, allocations: seq<BurnAllocation>, user: nat, need: int, n: nat,
                                       burn: nat)
    requires n <= |lots| && 0 <= need && LotsSound(lots, allocations) && Chained(allocations)
    requires FirstInFirstOut(lots, allocations)
    ensures PlanBurn(lots, allocations, user, need, n).Ok?
    ensures var plan := PlanBurn(lots, allocations, user, need, n).value;
            && Tallied(lots, allocations, user, need, n, plan)
            && Planned(lots, allocations, Recorded(allocations, burn, plan.parts), user, n, plan.remaining)
  {
    if n != 0 {
      PlanIsSound(lots, allocations, user, need, n - 1, burn);
      var plan := PlanBurn(lots, allocations, user, need, n - 1).value;
      TallyTurn(lots, allocations, user, need, n - 1, plan);
      LotsTurn(lots, allocations, user, need, n - 1, burn, plan);
    }
  }

  lemma {:induction false} AvailableSign(lots: seq<Lot>, allocations: seq<BurnAllocation>, i: nat)
    requires i < |lots| && LotsSound(lots, allocations)
    ensures 0 <= Unburned(lots, allocations, i)
  {
    assert LotSound(lots[i], LotBurned(allocations, i), LotBasis(allocations, i));
  }

  lemma {:induction false} TallyExtends(lots: seq<Lot>, allocations: seq<BurnAllocation>, user: nat, need: int, n: nat,
                                        plan: Plan, next: Plan, part: LotBurn)
    requires n < |lots| && lots[n].user == user && Tallied(lots, allocations, user, need, n, plan)
    requires next.remaining == Left(plan.remaining, Unburned(lots, allocations, n))
    requires 0 < plan.remaining && next.parts == plan.parts + [part] && part.lot == n
    requires part.burned == plan.remaining - next.remaining && next.basis == plan.basis + part.basis && 0 <= part.basis
    ensures Tallied(lots, allocations, user, need, n + 1, next)
  {
    RecordedPart(allocations, 0, plan.parts, part);
  }

  lemma {:induction false} TallyTurn(lots: seq<Lot>, allocations: seq<BurnAllocation>, user: nat, need: int, n: nat,
                                     plan: Plan)
    requires n < |lots| && LotsSound(lots, allocations)
    requires PlanBurn(lots, allocations, user, need, n) == Ok(plan)
    requires Tallied(lots, allocations, user, need, n, plan)
    ensures PlanBurn(lots, allocations, user, need, n + 1).Ok?
    ensures Tallied(lots, allocations, user, need, n + 1, PlanBurn(lots, allocations, user, need, n + 1).value)
  {
    hide LotsSound;
    AvailableSign(lots, allocations, n);
    if lots[n].user == user && 0 < plan.remaining {
      PlannedPart(lots, allocations, plan, n);
      var next := PlanLot(lots, allocations, plan, n).value;
      if 0 < Unburned(lots, allocations, n) {
        assert next.parts == plan.parts + [next.parts[|plan.parts|]];
        TallyExtends(lots, allocations, user, need, n, plan, next, next.parts[|plan.parts|]);
      }
    }
  }

  lemma {:induction false} LotsTurn(lots: seq<Lot>, allocations: seq<BurnAllocation>, user: nat, need: int, n: nat,
                                    burn: nat, plan: Plan)
    requires n < |lots| && LotsSound(lots, allocations) && 0 <= plan.remaining
    requires PlanBurn(lots, allocations, user, need, n) == Ok(plan)
    requires Planned(lots, allocations, Recorded(allocations, burn, plan.parts), user, n, plan.remaining)
    ensures PlanBurn(lots, allocations, user, need, n + 1).Ok?
    ensures var next := PlanBurn(lots, allocations, user, need, n + 1).value;
            Planned(lots, allocations, Recorded(allocations, burn, next.parts), user, n + 1, next.remaining)
  {
    var after := Recorded(allocations, burn, plan.parts);
    if lots[n].user != user || plan.remaining == 0 {
      PlanSkips(lots, allocations, after, user, n, plan.remaining);
    } else {
      PlannedPart(lots, allocations, plan, n);
      var next := PlanLot(lots, allocations, plan, n).value;
      if Unburned(lots, allocations, n) == 0 {
        assert Untouched(allocations, after, n);
        PlanSkips(lots, allocations, after, user, n, plan.remaining);
      } else {
        AvailableSign(lots, allocations, n);
        var part := next.parts[|plan.parts|];
        assert next.parts == plan.parts + [part];
        RecordedPart(allocations, burn, plan.parts, part);
        PlanExtends(lots, allocations, after, BurnAllocation(burn, part), plan.remaining, next.remaining);
      }
    }
  }

  /** A lot that is not this user's, or not needed, or empty is passed over. */
  lemma {:induction false} PlanSkips(lots: seq<Lot>, allocations: seq<BurnAllocation>, after: seq<BurnAllocation>,
                                     user: nat, n: nat, remaining: int)
    requires n < |lots| && Planned(lots, allocations, after, user, n, remaining) && 0 <= remaining
    requires lots[n].user != user || remaining == 0 || LotBurned(after, n) == lots[n].shares
    ensures Planned(lots, allocations, after, user, n + 1, remaining)
  {
    hide LotsSound, Chained, FirstInFirstOut;
  }

  lemma {:induction false} PlanExtends(lots: seq<Lot>, allocations: seq<BurnAllocation>, before: seq<BurnAllocation>,
                                       a: BurnAllocation,
                    remaining: int, next: int)
    requires var part := a.part;
             && part.lot < |lots|
             && Planned(lots, allocations, before, lots[part.lot].user, part.lot, remaining) && 0 < remaining
             && part.priorBurned == LotBurned(allocations, part.lot)
             && part.priorBasis == LotBasis(allocations, part.lot)
             && 0 < part.burned == part.cumulativeBurned - part.priorBurned
             && part.basis == part.cumulativeBasis - part.priorBasis
             && LotSound(lots[part.lot], part.cumulativeBurned, part.cumulativeBasis)
             && 0 < Unburned(lots, allocations, part.lot)
             && (0 < next ==> part.cumulativeBurned == lots[part.lot].shares)
    ensures Planned(lots, allocations, before + [a], lots[a.part.lot].user, a.part.lot + 1, next)
  {
    var n := a.part.lot + 1;
    assert Untouched(allocations, before, n - 1);
    OneMoreChained(before, a);
    RecordedSound(lots, before, a);
    forall i | n <= i < |lots|
      ensures Untouched(allocations, before + [a], i)
    {
      assert Untouched(allocations, before, i) && Untouched(before, before + [a], i);
    }
    if 0 < next {
      forall i | 0 <= i < n && lots[i].user == lots[n - 1].user
        ensures LotBurned(before + [a], i) == lots[i].shares
      {
        assert i < n - 1 ==> Untouched(before, before + [a], i);
      }
    }
  }

  // ---------------------------------------------------------------- the whole burn

  /** Nobody else's lots move, and the burner's fall by what was burned. */
  lemma {:induction false} RecordedUnburned(lots: seq<Lot>, allocations: seq<BurnAllocation>, burn: nat,
                                            parts: seq<LotBurn>, user: nat, other: nat)
    requires forall k :: 0 <= k < |parts| ==> parts[k].lot < |lots| && lots[parts[k].lot].user == user
    requires Chained(Recorded(allocations, burn, parts))
    ensures var after := Recorded(allocations, burn, parts);
            && UnburnedOf(lots, after, other, |lots|) == UnburnedOf(lots, allocations, other, |lots|)
               - (if other == user then PartShares(parts) else 0)
            && UnburnedTotal(lots, after, |lots|) == UnburnedTotal(lots, allocations, |lots|) - PartShares(parts)
  {
    if parts != [] {
      var init, part := parts[..|parts| - 1], parts[|parts| - 1];
      var before, a := Recorded(allocations, burn, init), BurnAllocation(burn, part);
      ChainedPrefix(before, a);
      RecordedUnburned(lots, allocations, burn, init, user, other);
      OneMoreUnburned(lots, before, a, other, |lots|);
    }
  }

  lemma {:induction false} ChainedPrefix(allocations: seq<BurnAllocation>, a: BurnAllocation)
    requires Chained(allocations + [a])
    ensures Chained(allocations)
    ensures a.part.cumulativeBurned - LotBurned(allocations, a.part.lot) == a.part.burned
  {
    var longer := allocations + [a];
    assert ChainedAt(longer, |allocations|) && longer[..|allocations|] == allocations;
    forall k | 0 <= k < |allocations|
      ensures ChainedAt(allocations, k)
    {
      assert ChainedAt(longer, k) && longer[..k] == allocations[..k];
    }
  }

  /**
   Burning no more than the position holds always finds the lots: the guard for missing
   cost basis cannot fire, exactly the requested shares are burned, only this position's
   lots move, and every lot stays sound.
   */
  lemma {:induction false} BurnConsumesLots(lots: seq<Lot>, allocations: seq<BurnAllocation>, user: nat, need: int,
                                            burn: nat)
    requires LotsSound(lots, allocations) && Chained(allocations) && FirstInFirstOut(lots, allocations)
    requires 0 <= need <= UnburnedOf(lots, allocations, user, |lots|)
    ensures PlanBurn(lots, allocations, user, need, |lots|).Ok?
    ensures var plan := PlanBurn(lots, allocations, user, need, |lots|).value;
            var after := Recorded(allocations, burn, plan.parts);
            && plan.remaining == 0 && (forall k :: 0 <= k < |plan.parts| ==> plan.parts[k].lot < |lots|)
            && PartShares(plan.parts) == need && PartBasis(plan.parts) == plan.basis && 0 <= plan.basis
            && LotsSound(lots, after) && Chained(after) && FirstInFirstOut(lots, after)
            && (forall other :: UnburnedOf(lots, after, other, |lots|)
                 == UnburnedOf(lots, allocations, other, |lots|) - (if other == user then need else 0))
            && UnburnedTotal(lots, after, |lots|) == UnburnedTotal(lots, allocations, |lots|) - need
  {
    PlanIsSound(lots, allocations, user, need, |lots|, burn);
    var plan := PlanBurn(lots, allocations, user, need, |lots|).value;
    forall other
      ensures UnburnedOf(lots, Recorded(allocations, burn, plan.parts), other, |lots|)
           == UnburnedOf(lots, allocations, other, |lots|) - (if other == user then need else 0)
    {
      RecordedUnburned(lots, allocations, burn, plan.parts, user, other);
    }
    RecordedUnburned(lots, allocations, burn, plan.parts, user, user);
  }
}
