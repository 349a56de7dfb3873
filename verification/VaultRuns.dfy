/** What holds after every run of the vault's operations. */
module VaultRuns {
  import opened Common
  import opened VaultTables
  import opened VaultLots
  import opened VaultInvariant
  import opened VaultSteps
  import opened VaultConsistency
  import VaultClose
  import VaultCycle
  import VaultQueue
  import VaultReplay

  lemma {:induction false} StepConsistent(b: Book, step: Step)
    requires Consistent(b)
    ensures Consistent(Apply(b, step))
  {
    hide Consistent, CloseDue, AdmitNext, RecordDeposit, RequestRedemption;
    if Attempt(b, step).Ok? {
      match step
      case DepositStep(tick, user, amount, source, key) => DepositConsistent(b, tick, user, amount, source, key);
      case RequestStep(tick, user, shares, key) => RequestConsistent(b, tick, user, shares, key);
      case AdmitStep(tick, reconciliation, capacity) => AdmitConsistent(b, tick, reconciliation, capacity);
      case CloseStep(tick, input) => var _ := VaultCycle.CloseDueStages(b, tick, input);
    }
  }

  /** Whatever operations run, in whatever order, with whatever inputs: the book stays consistent. */
  lemma {:induction false} RunConsistent(vault: nat, steps: seq<Step>)
    ensures Consistent(Run(vault, steps))
    decreases |steps|
  {
    hide Consistent, Apply;
    if steps == [] {
      EmptyIsConsistent(vault);
    } else {
      RunConsistent(vault, steps[..|steps| - 1]);
      StepConsistent(Run(vault, steps[..|steps| - 1]), steps[|steps| - 1]);
    }
  }

  lemma {:induction false} Sizes(b: Book)
    requires Consistent(b)
    ensures |b.cycles| == |b.closings| == |b.checkpoints| == |b.liabilities| == |b.liquidity|
    ensures Sound(b, b.clock) && ClosingsSound(b.closings, b.checkpoints)
    ensures Aligned(b.cycles, b.checkpoints, b.liquidity, b.closings)
  {
    VaultClose.LiabilitiesOf(b, b.clock);
  }

  /**
   No close ever dilutes the shares that were active at its checkpoint, for any mix of burns
   and mints: a share is worth no less after it than at its checkpoint, the value is never
   negative, and no value is left without shares.
   */
  lemma {:induction false} ClosesNeverDilute(vault: nat, steps: seq<Step>, i: nat)
    requires i < |Run(vault, steps).closings|
    ensures var b := Run(vault, steps);
            && i < |b.checkpoints|
            && var c, cp := b.closings[i], b.checkpoints[i];
               && cp.nav * c.supply <= c.nav * cp.supply
               && 0 <= c.nav && 0 <= c.dust && (c.supply == 0 ==> c.nav == 0)
               && c.nav + c.matured + c.dust == cp.nav + c.activated
  {
    var b := Run(vault, steps);
    RunConsistent(vault, steps);
    hide Run;
    Sizes(b);
    assert ClosingSound(b.closings[i], b.checkpoints[i], i);
  }

  lemma {:induction false} DaysApart(cycles: seq<Cycle>, i: nat, j: nat)
    requires i <= j < |cycles|
    requires forall k :: 0 < k < |cycles| ==> cycles[k].cutoff == cycles[k - 1].cutoff + 1
    ensures cycles[j].cutoff == cycles[i].cutoff + (j - i)
  {
    if i < j {
      DaysApart(cycles, i, j - 1);
    }
  }

  /** Cycles close on consecutive days, none left out and none repeated, each exactly once. */
  lemma {:induction false} CutoffsAreConsecutive(vault: nat, steps: seq<Step>, i: nat, j: nat)
    requires i <= j < |Run(vault, steps).cycles|
    ensures var b := Run(vault, steps);
            && b.cycles[j].cutoff == b.cycles[i].cutoff + (j - i)
            && |b.closings| == |b.cycles| && b.cycles[i].status == Closed
            && b.closings[i].cycle == i == b.closings[i].checkpoint
  {
    var b := Run(vault, steps);
    RunConsistent(vault, steps);
    hide Run, Consistent, Sound;
    Sizes(b);
    DaysApart(b.cycles, i, j);
    assert ClosingSound(b.closings[i], b.checkpoints[i], i);
  }

  /** Book versions are gapless, and each event carries the hash of the one before it. */
  lemma {:induction false} VersionsAreGapless(vault: nat, steps: seq<Step>, i: nat)
    requires i < |Run(vault, steps).events|
    ensures var b := Run(vault, steps);
            b.events[i].version == i + 1
            && b.events[i].previous == VaultTables.LastDigest(b.events[..i])
  {
    var b := Run(vault, steps);
    RunConsistent(vault, steps);
    hide Run;
    FoldVersions(b.vault, b.events, i);
  }

  lemma {:induction false} FoldVersions(vault: nat, events: seq<Event>, i: nat)
    requires VaultReplay.FoldAll(vault, events).Ok? && i < |events|
    ensures events[i].version == i + 1 && events[i].previous == LastDigest(events[..i])
  {
    if i < |events| - 1 {
      FoldVersions(vault, events[..|events| - 1], i);
      assert events[..|events| - 1][..i] == events[..i];
    }
  }

  // ---------------------------------------------------------------- lots over runs

  /**
   However redemptions have consumed them: every lot's cumulative basis is one floor of what
   was burned, a lot burned to nothing has given up exactly its whole basis, and the lots of
   a position hold exactly its balance.
   */
  lemma {:induction false} LotsFollowBurns(vault: nat, steps: seq<Step>, i: nat)
    requires i < |Run(vault, steps).lots|
    ensures var b := Run(vault, steps);
            var lot, burned, basis := b.lots[i], LotBurned(b.allocations, i), LotBasis(b.allocations, i);
            && 0 < lot.shares && 0 <= burned <= lot.shares && basis == lot.basis * burned / lot.shares
            && (burned == lot.shares ==> basis == lot.basis)
            && Balance(b.shareEvents, lot.user) == UnburnedOf(b.lots, b.allocations, lot.user, |b.lots|)
            && (forall j :: i < j < |b.lots| && b.lots[j].user == lot.user && 0 < LotBurned(b.allocations, j) ==>
                  burned == lot.shares)
  {
    var b := Run(vault, steps);
    RunConsistent(vault, steps);
    hide Run;
    Sizes(b);
    assert LotSound(b.lots[i], LotBurned(b.allocations, i), LotBasis(b.allocations, i));
    FloorExact(b.lots[i].basis, b.lots[i].shares);
  }

  // ---------------------------------------------------------------- the queue over runs

  /** A blocked head is never overtaken, and nobody has two requests open. */
  lemma {:induction false} QueueIsFair(vault: nat, steps: seq<Step>, i: nat, j: nat)
    requires i < j < |Run(vault, steps).requests|
    ensures var requests := Run(vault, steps).requests;
            && (!InQueue(requests[j].status) ==> !InQueue(requests[i].status))
            && (Unfinished(requests[i].status) && Unfinished(requests[j].status) ==>
                  requests[i].user != requests[j].user)
  {
    var b := Run(vault, steps);
    RunConsistent(vault, steps);
    hide Run;
    Sizes(b);
  }

  /** A request has one burn and one payable once it is claimable, and neither before. */
  lemma {:induction false} PaidExactlyOnce(vault: nat, steps: seq<Step>, r: nat)
    requires r < |Run(vault, steps).requests|
    ensures var b := Run(vault, steps);
            var paid := if b.requests[r].status == Claimable then 1 else 0;
            PayablesFor(b.payables, r) == paid == BurnsFor(b.shareEvents, r)
  {
    var b := Run(vault, steps);
    RunConsistent(vault, steps);
    hide Run;
    Sizes(b);
    VaultQueue.PaidOnce(b.payables, r);
    var found := PayableOf(b.payables, r);
    if found.Some? {
      assert PayableSound(b.payables[found.value], b.reserveMarks, b.requests);
    }
    assert BurnsFor(b.shareEvents, r) == PayablesFor(b.payables, r);
  }
}
