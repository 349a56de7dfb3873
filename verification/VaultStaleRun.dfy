/** A run in which a snapshot from before the previous close gets the next one refused. */
module VaultStaleRun {
  import opened Common
  import opened VaultTables
  import opened VaultInvariant
  import opened VaultSteps
  import opened VaultConsistency
  import opened VaultOutcomes
  import opened VaultQuiet
  import opened VaultAllPaid
  import opened VaultScripts
  import RedemptionBatch
  import ShareRedemption
  import VaultActivating

  lemma {:induction false} PartWorth(part: nat, whole: Positive)
    ensures 0 < whole * FIRST_SHARES && part * FIRST_SHARES * whole / (whole * FIRST_SHARES) == part
  {
    assert part * FIRST_SHARES * whole == part * (whole * FIRST_SHARES);
    FloorExact(part, whole * FIRST_SHARES);
  }

  /** The snapshot of a worker that comes back on the fourth day, with the evidence of a day when it still ran. */
  function Returning(treasury: nat): CloseInput {
    QuietInput(Taken(3, 0, 4 * DAY_MS + 90_000, treasury), Some(Taken(2, 0, DAY_MS + 90_000, treasury)))
  }

  /** The founder redeems a part, and the worker misses two days before it closes the first of them. */
  function StaleRun(seed: nat, part: Positive): seq<Step> {
    [Opening(seed), Asking(FOUNDER_USER, part * FIRST_SHARES), Admitting(1, Capacity(part, seed)),
     CloseStep(3 * DAY_MS + 59_998, Returning(seed))]
  }

  /** The vault whose founder's redemption of a part has been admitted. */
  ghost predicate Redeems(b: Book, seed: nat, part: nat) {
    && Consistent(b) && b.clock == DAY_MS + 60_002 && b.fees == [] && b.inception.Some? && b.payables == []
    && |b.closings| == |b.cycles| == 1 && b.cycles[0].cutoff == 1 && NoDust(b.closings)
    && |b.deposits| == 1 && b.deposits[0].status == Active(0)
    && |b.shareEvents| == 1 && Minted(b.shareEvents[0], FOUNDER_USER, seed * FIRST_SHARES)
    && |b.requests| == 1 && b.requests[0].user == FOUNDER_USER && b.requests[0].shares == part * FIRST_SHARES
    && b.requests[0].status == Redeeming && b.requests[0].endsAt == 4 * DAY_MS + 60_002
  }

  lemma {:induction false} AsksForPart(vault: nat, seed: Positive, part: Positive) returns (b: Book)
    requires part <= seed
    ensures Run(vault, StaleRun(seed, part)[..3]) == b && Redeems(b, seed, part)
  {
    hide Consistent, Apply, Run, Balance, Supply;
    var founded := Opens(vault, seed);
    SoleHolding(founded.shareEvents, FOUNDER_USER, seed * FIRST_SHARES);
    MulMono(part, seed, FIRST_SHARES);
    b := AskAndAdmit(founded, FOUNDER_USER, part * FIRST_SHARES, 1, Capacity(part, seed));
    var steps := StaleRun(seed, part);
    assert steps[..1] == [Opening(seed)];
    RunStep(vault, steps, 1);
    RunStep(vault, steps, 2);
  }

  /** The vault after the late close has paid the founder's part. */
  ghost predicate PartPaid(b: Book, seed: nat, part: nat) {
    && Consistent(b) && b.clock == 4 * DAY_MS + 120_000 && b.fees == [] && b.inception.Some?
    && |b.cycles| == 2 && b.cycles[1].cutoff == 2 && NoDust(b.closings) && PendingTotal(b.deposits) == 0
    && (forall cutoff :: EligibleDeposits(b.deposits, cutoff) == [])
    && MaturedTotal(b.payables) == part && Supply(b.shareEvents) == (seed - part) * FIRST_SHARES
    && |b.requests| == 1 && b.requests[0].status == Claimable
    && Held(b.reserves, 0, part * FIRST_SHARES) && StatusAt(b.history, 0, 4 * DAY_MS + 90_000) == Some(Redeeming)
  }

  lemma {:induction false} NothingPending(deposits: seq<Deposit>)
    requires |deposits| == 1 && deposits[0].status.Active?
    ensures PendingTotal(deposits) == 0 && forall cutoff :: EligibleDeposits(deposits, cutoff) == []
  {
    assert deposits[..0] == [] && PendingTotal([]) == 0;
    forall cutoff
      ensures EligibleDeposits(deposits, cutoff) == []
    {
      SelectNone(1, (i: nat) => i < |deposits| && deposits[i].status == Pending && deposits[i].eligible <= cutoff);
    }
  }

  lemma {:induction false} OneByOne(b: Book, nav: nat, supply: Positive)
    requires |b.requests| == 1
    ensures RedemptionBatch.SumShares(Everyone(b)) == b.requests[0].shares
    ensures ShareRedemption.SumSingles(Everyone(b), nav, supply) == b.requests[0].shares * nav / supply
  {
    var batch := Everyone(b);
    assert batch[..0] == [] && batch[0].shares == b.requests[0].shares;
    assert RedemptionBatch.SumShares([]) == 0 && ShareRedemption.SumSingles([], nav, supply) == 0;
  }

  lemma {:induction false} PartFigures(b: Book, after: Book, seed: Positive, part: Positive)
    requires Redeems(b, seed, part) && part <= seed && 0 < seed * FIRST_SHARES
    requires EveryonePaid(b, after, seed, seed * FIRST_SHARES)
    ensures MaturedTotal(after.payables) == part && Supply(after.shareEvents) == (seed - part) * FIRST_SHARES
    ensures |after.requests| == 1 && after.requests[0].status == Claimable
    ensures |after.closings| == 2 && after.closings[1].dust == 0
    ensures Held(b.reserves, 0, part * FIRST_SHARES)
    ensures StatusAt(b.history, 0, 4 * DAY_MS + 90_000) == Some(Redeeming)
  {
    hide Consistent, Supply, ShareRedemption.SumSingles, RedemptionBatch.SumShares, StatusAt, ReserveOf;
    Nothing();
    hide MaturedTotal;
    OneByOne(b, seed, seed * FIRST_SHARES);
    PartWorth(part, seed);
    OneRipe(b, 4 * DAY_MS + 90_000);
    RipeIsReserved(b, 4 * DAY_MS + 90_000, 0);
  }

  lemma {:induction false} OneRipe(b: Book, at: int)
    requires |b.requests| == 1 && b.requests[0].status == Redeeming && b.requests[0].endsAt <= at
    ensures AllRipe(b, at)
  {
  }

  lemma {:induction false} PaysPart(vault: nat, seed: Positive, part: Positive) returns (after: Book)
    requires part <= seed
    ensures Run(vault, StaleRun(seed, part)) == after && PartPaid(after, seed, part)
  {
    Nothing();
    hide Consistent, Run, Balance, Supply, EligibleDeposits, PendingTotal, MaturedTotal, CloseDue, EveryonePaid,
         StatusAt, ReserveOf;
    var b := AsksForPart(vault, seed, part);
    var input, steps := Returning(seed), StaleRun(seed, part);
    RunStep(vault, steps, 3);
    assert steps[..4] == steps;
    NothingPending(b.deposits);
    SoleHolding(b.shareEvents, FOUNDER_USER, seed * FIRST_SHARES);
    OneRipe(b, input.snapshot.created);
    after := PayingClose(b, 3 * DAY_MS + 59_998, input.snapshot, input.recovery);
    PartFigures(b, after, seed, part);
    OneMoreWithout(after.closings, 1);
  }

  /** As of the snapshot the paid request is still being redeemed, and demands its part of what is left. */
  lemma {:induction false} DemandsAgain(b: Book, seed: Positive, part: Positive)
    requires PartPaid(b, seed, part) && part <= seed
    ensures ReservedThen(b, 4 * DAY_MS + 90_000) == [0]
    ensures Demand(b.reserves, [0], seed - part, (seed - part) * FIRST_SHARES) == if part == seed then 0 else part
  {
    hide Consistent, StatusAt, ReserveOf, EligibleDeposits, Supply;
    var at := 4 * DAY_MS + 90_000;
    SelectAll(1, (r: nat) => ReserveOf(b.reserves, r).Some? && StatusAt(b.history, r, at).Some?
                             && Reserved(StatusAt(b.history, r, at).value));
    assert [0][..0] == [] && Demand(b.reserves, [], seed - part, (seed - part) * FIRST_SHARES) == 0;
    if part < seed {
      PartWorth(part, seed - part);
    }
  }

  /**
   The worker closes its second missed day with the same snapshot, taken before its first close paid the part. The
   part is reserved once more, and the close is refused exactly when that is more than what is left of the vault: for
   want of shares when nothing is left, for want of collateral otherwise.
   */
  lemma {:induction false} StaleSnapshotRefused(vault: nat, seed: Positive, part: Positive)
    requires part <= seed
    ensures var r := CloseDue(Run(vault, StaleRun(seed, part)), 60_000, Returning(seed));
            if part == seed then r == Err(RedemptionSupplyMissing)
            else if seed < 2 * part then r == Err(CollateralShortfall)
            else r.Ok?
  {
    hide Consistent, Run, Supply, EligibleDeposits, MaturedTotal, PendingTotal, CloseDue, StatusAt, ReserveOf, Demand,
         ReservedRequests, LiabilityDue, NavOf, VaultActivating.MintDue;
    var input := Returning(seed);
    var b := PaysPart(vault, seed, part);
    DemandsAgain(b, seed, part);
    QuietTickets(b, 0, 0, 0);
    NoDustBy(b.closings, input.snapshot.created);
    NothingDue(b.deposits, 3, seed - part, Supply(b.shareEvents));
    QuietLiability(b, 3, input.snapshot, input.recovery);
    CloseEndsBy(b, 60_000, input);
  }
}
