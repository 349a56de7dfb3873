/** Dust over whole runs: one in which a full burn leaves it, and what follows in every run. */
module VaultDustRun {
  import opened Common
  import opened VaultTables
  import opened VaultInvariant
  import opened VaultSteps
  import opened VaultConsistency
  import opened VaultOutcomes
  import opened VaultQuiet
  import opened VaultAllPaid
  import opened VaultScripts
  import RedemptionBatch
  import ShareRedemption
  import VaultActivating
  import VaultDust
  import VaultPublished
  import VaultReplay
  import VaultRuns

  const GUEST: nat := 1

  /** The guest's deposit beside the founder's, each of one micro-unit. */
  function Joining(): Step {
    DepositStep(1, GUEST, 1, "guest", "deposit")
  }

  function Minting(): Step {
    CloseStep(DAY_MS - 1, QuietInput(Taken(1, 1, 2 * DAY_MS + 30_000, 2), None))
  }

  /** A vault with the guest's deposit pending. */
  ghost predicate Joined(b: Book) {
    && Consistent(b) && b.clock == DAY_MS + 60_001 && b.fees == [] && b.requests == [] && b.reserves == []
    && b.payables == [] && b.inception.Some? && |b.closings| == |b.cycles| == 1 && b.cycles[0].cutoff == 1
    && NoDust(b.closings)
    && |b.deposits| == 2 && b.deposits[0].status == Active(0) && b.positions == {FOUNDER_USER}
    && b.deposits[1].user == GUEST && b.deposits[1].amount == 1 && b.deposits[1].eligible == 2
    && b.deposits[1].status == Pending
    && |b.shareEvents| == 1 && Minted(b.shareEvents[0], FOUNDER_USER, FIRST_SHARES)
  }

  lemma {:induction false} GuestJoins(vault: nat) returns (b: Book)
    ensures Run(vault, [Opening(1), Joining()]) == b && Joined(b)
  {
    hide Consistent, Run, Supply;
    var founded := Opens(vault, 1);
    RunStep(vault, [Opening(1), Joining()], 1);
    assert [Opening(1), Joining()][..1] == [Opening(1)];
    assert [Opening(1), Joining()][..2] == [Opening(1), Joining()];
    VaultRuns.StepConsistent(founded, Joining());
    b := Apply(founded, Joining());
  }

  /** Two holders with equal shares. */
  ghost predicate Shared(b: Book) {
    && Consistent(b) && b.clock == 2 * DAY_MS + 60_000 && b.fees == [] && b.requests == [] && b.payables == []
    && b.inception.Some? && |b.closings| == |b.cycles| == 2 && b.cycles[1].cutoff == 2 && NoDust(b.closings)
    && b.reserves == []
    && |b.deposits| == 2 && b.deposits[0].status.Active? && b.deposits[1].status.Active?
    && b.positions == {FOUNDER_USER, GUEST}
    && |b.shareEvents| == 2 && Minted(b.shareEvents[0], FOUNDER_USER, FIRST_SHARES)
    && Minted(b.shareEvents[1], GUEST, FIRST_SHARES)
  }

  lemma {:induction false} GuestEligible(b: Book)
    requires Joined(b)
    ensures EligibleDeposits(b.deposits, 2) == [1] && QuietNav(b, 2) == 1 && Supply(b.shareEvents) == FIRST_SHARES
  {
    hide Consistent;
    SoleHolding(b.shareEvents, FOUNDER_USER, FIRST_SHARES);
    var d := b.deposits;
    assert d[..1][..0] == [] && d[..1] == [d[0]];
    assert PendingTotal([]) == 0 && PendingTotal(d[..1]) == 0 && PendingTotal(d) == 1 && MaturedTotal([]) == 0;
    var eligible := (i: nat) => i < |d| && d[i].status == Pending && d[i].eligible <= 2;
    assert Select(0, eligible) == [] && Select(1, eligible) == [] && Select(2, eligible) == [1];
  }

  lemma {:induction false} GuestMints(vault: nat) returns (after: Book)
    ensures Run(vault, [Opening(1), Joining(), Minting()]) == after && Shared(after)
  {
    hide Consistent, CloseDue, Run, Supply, EligibleDeposits, QuietNav;
    var b := GuestJoins(vault);
    GuestEligible(b);
    after := MintingClose(b, DAY_MS - 1, Taken(1, 1, 2 * DAY_MS + 30_000, 2), 1, FIRST_SHARES);
    RunStep(vault, [Opening(1), Joining(), Minting()], 2);
    assert [Opening(1), Joining(), Minting()][..2] == [Opening(1), Joining()];
    assert [Opening(1), Joining(), Minting()][..3] == [Opening(1), Joining(), Minting()];
    assert after.shareEvents[0] == after.shareEvents[..1][0];
  }

  /** Both holders ask for everything, and a late close finds the vault worth `value`. */
  function DustRun(value: nat): seq<Step> {
    [Opening(1), Joining(), Minting(), Asking(FOUNDER_USER, FIRST_SHARES), Admitting(2, Capacity(1, 2)),
     Asking(GUEST, FIRST_SHARES), Admitting(3, Capacity(1, 1)), CloseStep(3 * DAY_MS + 59_996, Emptying(value))]
  }

  function Emptying(value: nat): CloseInput {
    QuietInput(Taken(5, 2, 5 * DAY_MS + 90_000, value), Some(Taken(4, 2, 2 * DAY_MS + 90_000, value)))
  }

  /** Two holders on their way out. */
  ghost predicate Leaving(b: Book) {
    && Consistent(b) && b.clock == 2 * DAY_MS + 60_004 && b.fees == [] && b.payables == [] && b.inception.Some?
    && |b.closings| == |b.cycles| == 2 && b.cycles[1].cutoff == 2 && NoDust(b.closings)
    && |b.deposits| == 2 && b.deposits[0].status.Active? && b.deposits[1].status.Active?
    && Supply(b.shareEvents) == 2 * FIRST_SHARES
    && |b.requests| == 2 && (forall r :: 0 <= r < 2 ==> Leaves(b.requests[r]))
  }

  predicate Leaves(r: Request) {
    r.shares == FIRST_SHARES && r.status == Redeeming && r.endsAt <= 5 * DAY_MS + 60_004
  }

  lemma {:induction false} EqualHoldings(shareEvents: seq<ShareEvent>)
    requires |shareEvents| == 2 && Minted(shareEvents[0], FOUNDER_USER, FIRST_SHARES)
    requires Minted(shareEvents[1], GUEST, FIRST_SHARES)
    ensures Balance(shareEvents, FOUNDER_USER) == FIRST_SHARES == Balance(shareEvents, GUEST)
    ensures Supply(shareEvents) == 2 * FIRST_SHARES
  {
    var first := shareEvents[..1];
    assert first[..0] == [] && first[0] == shareEvents[0];
    assert Supply([]) == 0 && Supply(first) == FIRST_SHARES;
    assert Balance([], FOUNDER_USER) == 0 == Balance([], GUEST);
    assert Balance(first, FOUNDER_USER) == FIRST_SHARES && Balance(first, GUEST) == 0;
  }

  lemma {:induction false} BothAsk(vault: nat, value: nat) returns (b: Book)
    ensures Run(vault, DustRun(value)[..7]) == b && Leaving(b)
  {
    hide Consistent, Apply, Run, Balance, Supply;
    var shared := GuestMints(vault);
    EqualHoldings(shared.shareEvents);
    var first := AskAndAdmit(shared, FOUNDER_USER, FIRST_SHARES, 2, Capacity(1, 2));
    b := AskAndAdmit(first, GUEST, FIRST_SHARES, 3, Capacity(1, 1));
    assert b.requests[0] == b.requests[..1][0] == first.requests[0];
    var steps := DustRun(value);
    RunStep(vault, steps, 3);
    RunStep(vault, steps, 4);
    RunStep(vault, steps, 5);
    RunStep(vault, steps, 6);
    assert steps[..3] == [Opening(1), Joining(), Minting()];
  }

  /** The vault after everyone has left. */
  ghost predicate Emptied(b: Book, value: nat) {
    && Consistent(b) && b.clock == 5 * DAY_MS + 120_000 && b.fees == [] && b.inception.Some?
    && |b.closings| == |b.cycles| == 3 && b.cycles[2].cutoff == 3 && PendingTotal(b.deposits) == 0
    && (forall cutoff :: EligibleDeposits(b.deposits, cutoff) == [])
    && MaturedTotal(b.payables) == value - value % 2 && Supply(b.shareEvents) == 0
    && b.closings[2].supply == 0 && b.closings[2].dust == value % 2 && NoDust(b.closings[..2])
    && (forall r :: 0 <= r < |b.requests| ==> b.requests[r].status == Claimable)
  }

  lemma {:induction false} NonePending(deposits: seq<Deposit>)
    requires |deposits| == 2 && deposits[0].status.Active? && deposits[1].status.Active?
    ensures PendingTotal(deposits) == 0 && forall cutoff :: EligibleDeposits(deposits, cutoff) == []
  {
    assert deposits[..1][..0] == [] && deposits[..1] == [deposits[0]];
    assert PendingTotal([]) == 0 && PendingTotal(deposits[..1]) == 0;
    forall cutoff
      ensures EligibleDeposits(deposits, cutoff) == []
    {
      SelectNone(2, (i: nat) => i < |deposits| && deposits[i].status == Pending && deposits[i].eligible <= cutoff);
    }
  }

  lemma {:induction false} TwoByTwo(b: Book, value: nat)
    requires |b.requests| == 2 && (forall r :: 0 <= r < 2 ==> Leaves(b.requests[r]))
    ensures RedemptionBatch.SumShares(Everyone(b)) == 2 * FIRST_SHARES
    ensures ShareRedemption.SumSingles(Everyone(b), value, 2 * FIRST_SHARES) == value - value % 2
  {
    var batch, supply := Everyone(b), 2 * FIRST_SHARES;
    assert Leaves(b.requests[0]) && Leaves(b.requests[1]);
    assert batch[..1][..0] == [] && batch[..1] == [batch[0]];
    assert batch[0].shares == FIRST_SHARES == batch[1].shares;
    HalfWorth(value);
    assert RedemptionBatch.SumShares([]) == 0 && RedemptionBatch.SumShares(batch[..1]) == FIRST_SHARES;
    assert ShareRedemption.SumSingles([], value, supply) == 0;
    assert ShareRedemption.SumSingles(batch[..1], value, supply) == value / 2;
  }

  lemma {:induction false} HalfWorth(value: nat)
    ensures FIRST_SHARES * value / (2 * FIRST_SHARES) == value / 2
  {
  }

  lemma {:induction false} EmptyFigures(b: Book, after: Book, value: nat)
    requires Leaving(b) && EveryonePaid(b, after, value, 2 * FIRST_SHARES)
    ensures MaturedTotal(after.payables) == value - value % 2 && Supply(after.shareEvents) == 0
    ensures |after.closings| == 3 && after.closings[2].supply == 0 && after.closings[2].dust == value % 2
    ensures forall r :: 0 <= r < |after.requests| ==> after.requests[r].status == Claimable
  {
    hide Consistent, Supply, ShareRedemption.SumSingles, RedemptionBatch.SumShares;
    Nothing();
    hide MaturedTotal;
    TwoByTwo(b, value);
  }

  lemma {:induction false} AllLeave(b: Book, at: int)
    requires Leaving(b) && 5 * DAY_MS + 60_004 <= at
    ensures AllRipe(b, at)
  {
    hide Consistent, Supply;
    forall r | 0 <= r < |b.requests|
      ensures RipeRequest(b.requests[r], at)
    {
      assert Leaves(b.requests[r]);
    }
  }

  lemma {:induction false} Empties(vault: nat, value: nat) returns (after: Book)
    ensures Run(vault, DustRun(value)) == after && Emptied(after, value)
  {
    Nothing();
    hide Consistent, Run, Supply, EligibleDeposits, PendingTotal, MaturedTotal, CloseDue, EveryonePaid, StatusAt;
    var b := BothAsk(vault, value);
    var input, steps := Emptying(value), DustRun(value);
    RunStep(vault, steps, 7);
    assert steps[..8] == steps;
    NonePending(b.deposits);
    AllLeave(b, input.snapshot.created);
    after := PayingClose(b, 3 * DAY_MS + 59_996, input.snapshot, input.recovery);
    EmptyFigures(b, after, value);
  }

  /** The day after everyone has left, with the treasury unchanged. */
  function NextDay(value: nat): CloseInput {
    QuietInput(Taken(6, 2, 5 * DAY_MS + 150_000, value), Some(Taken(4, 2, 2 * DAY_MS + 90_000, value)))
  }

  lemma {:induction false} NobodyReserved(b: Book, at: int)
    requires Consistent(b) && b.clock <= at
    requires forall r :: 0 <= r < |b.requests| ==> b.requests[r].status == Claimable
    ensures ReservedThen(b, at) == []
  {
    LaterStatuses(b, at);
    hide Consistent, StatusAt;
    SelectNone(|b.requests|, (r: nat) => ReserveOf(b.reserves, r).Some? && StatusAt(b.history, r, at).Some?
                                         && Reserved(StatusAt(b.history, r, at).value));
  }

  lemma {:induction false} LaterStatuses(b: Book, at: int)
    requires Consistent(b) && b.clock <= at
    ensures forall r: nat :: r < |b.requests| ==> StatusAt(b.history, r, at) == Some(b.requests[r].status)
  {
    hide LotBook, MarksSound, PayablesSound, CheckpointsSound, DepositsSound, FeesSound, BurnsMatched, SinceClose,
         Aligned, ClosingsSound, QueueSound, StatusAt, VaultReplay.Linked;
  }

  /**
   Two holders of equal shares leave a vault together. An odd value leaves a unit of dust behind, value without
   shares, and the next close is refused for it; an even value leaves nothing, and the next close goes through.
   */
  lemma {:induction false} DustBlocksTheNextClose(vault: nat, value: nat)
    ensures var b := Run(vault, DustRun(value));
            && |b.closings| == 3 && b.closings[2].supply == 0 && b.closings[2].dust == value % 2
            && var r := CloseDue(b, 60_000, NextDay(value));
               if value % 2 == 1 then r == Err(PositiveNavWithoutShares) else r.Ok?
  {
    hide Consistent, Run, Supply, EligibleDeposits, MaturedTotal, PendingTotal, CloseDue, StatusAt, ReserveOf,
         ReservedRequests, LiabilityDue, NavOf, VaultActivating.MintDue;
    var input := NextDay(value);
    var b := Empties(vault, value);
    NobodyReserved(b, input.snapshot.created);
    if value % 2 == 0 {
      OneMoreWithout(b.closings, 2);
      NoDustBy(b.closings, input.snapshot.created);
    }
    QuietTickets(b, 0, 0, 0);
    NothingDue(b.deposits, 4, value % 2, Supply(b.shareEvents));
    QuietLiability(b, 4, input.snapshot, input.recovery);
    CloseEndsBy(b, 60_000, input);
  }

  // ---------------------------------------------------------------- every run after dust

  /**
   Once a close has withheld dust, the vault never closes another cycle, whatever operations follow, as long as the
   snapshots are taken after that close.
   */
  lemma {:induction false} DustEndsTheVault(vault: nat, steps: seq<Step>, later: seq<Step>, i: nat)
    requires i < |Run(vault, steps).closings| && 0 < Run(vault, steps).closings[i].dust
    requires forall k :: 0 <= k < |later| && later[k].CloseStep? ==>
                           Run(vault, steps).closings[i].at <= later[k].input.snapshot.created
    ensures Run(vault, steps + later).closings == Run(vault, steps).closings
    decreases |later|
  {
    hide Consistent, Apply, CloseDue;
    if later == [] {
      assert steps + later == steps;
    } else {
      var init, last := later[..|later| - 1], later[|later| - 1];
      assert forall k :: 0 <= k < |init| ==> init[k] == later[k];
      DustEndsTheVault(vault, steps, init, i);
      assert steps + later == (steps + init) + [last];
      Snoc(steps + init, last);
      var b := Run(vault, steps + init);
      if last.CloseStep? {
        VaultRuns.RunConsistent(vault, steps + init);
        VaultDust.DustRefusesCloses(b, last.tick, last.input, i);
      }
      VaultPublished.OtherSteps(b, last);
    }
  }
}
