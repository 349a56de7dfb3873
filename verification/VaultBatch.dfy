/** Every close pays its matured redemptions exactly as one batch at its checkpoint would. */
module VaultBatch {
  import opened Common
  import opened VaultTables
  import opened VaultReplay
  import opened VaultInvariant
  import opened VaultSteps
  import opened VaultConsistency
  import opened VaultPaying
  import opened VaultClosing
  import opened VaultCycle
  import opened VaultPayout
  import RedemptionBatch
  import ShareRedemption
  import OwnerClaims

  /** The payables that a close added pay each listed request the allocation that the batch has for its owner. */
  ghost predicate PaysAllocations(before: seq<Payable>, after: seq<Payable>, rows: seq<nat>,
                                  batch: seq<ShareRedemption.RedemptionRequest>,
                                  allocations: seq<OwnerClaims.Allocation>)
  {
    && |batch| == |rows| && |after| == |before| + |rows| && after[..|before|] == before
    && forall k :: 0 <= k < |rows| ==>
         && after[|before| + k].request == rows[k]
         && Allocated(allocations, batch[k].owner, batch[k].shares, after[|before| + k].amount)
  }

  predicate Allocated(allocations: seq<OwnerClaims.Allocation>, owner: nat, shares: int, amount: int) {
    exists i :: 0 <= i < |allocations| && allocations[i].owner == owner && allocations[i].weight == shares
                && allocations[i].amount == amount
  }

  lemma {:induction false} RowsAreRedeeming(requests: seq<Request>, marks: seq<ReserveMark>, cycle: nat, at: int)
    ensures var rows := MaturedRequests(requests, marks, cycle, cycle, at);
            && Distinct(rows) && Numbers(rows, |requests|)
            && (forall k :: 0 <= k < |rows| ==> requests[rows[k]].status == Redeeming)
  {
    SelectOrdered(|requests|, (r: nat) => Matured(requests, marks, cycle, cycle, at, r));
  }

  lemma {:induction false} QueueAndLots(b: Book, now: int)
    requires Sound(b, now)
    ensures QueueSound(b.requests, b.reserves, b.shareEvents) && LotBook(b.shareEvents, b.lots, b.allocations)
    ensures 0 <= Supply(b.shareEvents)
  {
    hide LotBook, QueueSound, MarksSound, PayablesSound, CheckpointsSound, DepositsSound, FeesSound, HistorySound,
         BurnsMatched;
    BalanceWithinSupply(b.shareEvents, b.lots, b.allocations, 0);
  }

  lemma {:induction false} NoneBefore(v: Book, marks: seq<ReserveMark>, c: nat)
    requires Unused(v, c) && |v.reserveMarks| <= |marks| && marks[..|v.reserveMarks|] == v.reserveMarks
    ensures MaturedAt(v.payables, marks, c) == 0 && BurnedAt(v.payables, marks, c) == 0
  {
    forall k | 0 <= k < |v.payables|
      ensures v.payables[k].mark < |marks| && marks[v.payables[k].mark].checkpoint != c
    {
      var mark := v.payables[k].mark;
      assert marks[mark] == marks[..|v.reserveMarks|][mark];
    }
    NothingPaidYet(v.payables, marks, c);
  }

  /** The figures of a settled cycle, against the batch for its matured requests. */
  ghost predicate PaidAsBatch(requests: seq<Request>, shareEvents: seq<ShareEvent>, before: seq<Payable>,
                              after: seq<Payable>, cp: Checkpoint, rows: seq<nat>, burned: int, matured: int, dust: int)
    requires Numbers(rows, |requests|)
  {
    var batch := BatchOf(requests, shareEvents, rows);
    var paid := ShareRedemption.FinalizeRedemptions(cp.nav, cp.supply, batch);
    if rows == [] then after == before && burned == 0 && matured == 0 && dust == 0
    else
      && paid.Ok? && burned == paid.value.burned && matured == paid.value.matured && dust == paid.value.protocolDust
      && PaysAllocations(before, after, rows, batch, paid.value.allocations)
  }

  lemma {:induction false} AllocationsArePaid(before: seq<Payable>, after: seq<Payable>, requests: seq<Request>,
                                              shareEvents: seq<ShareEvent>, marks: seq<ReserveMark>, cp: Checkpoint,
                                              cycle: nat, rows: seq<nat>)
    requires PaidInOrder(before, after, requests, marks, cp, cycle, rows) && Numbers(rows, |requests|)
    requires 0 <= cp.nav && 0 < cp.supply && rows != []
    requires RedemptionBatch.Affordable(BatchOf(requests, shareEvents, rows), cp.supply)
    ensures ShareRedemption.FinalizeRedemptions(cp.nav, cp.supply, BatchOf(requests, shareEvents, rows)).Ok?
    ensures var batch := BatchOf(requests, shareEvents, rows);
            PaysAllocations(before, after, rows, batch,
                            ShareRedemption.FinalizeRedemptions(cp.nav, cp.supply, batch).value.allocations)
  {
    hide ShareRedemption.FinalizeRedemptions, Balance;
    var batch := BatchOf(requests, shareEvents, rows);
    RedemptionBatch.BatchPaysEach(cp.nav, cp.supply, batch);
    var allocations := ShareRedemption.FinalizeRedemptions(cp.nav, cp.supply, batch).value.allocations;
    forall k | 0 <= k < |rows|
      ensures after[|before| + k].request == rows[k]
      ensures Allocated(allocations, batch[k].owner, batch[k].shares, after[|before| + k].amount)
    {
      assert PaysOut(after[|before| + k], requests, marks, cp, cycle, rows[k]);
      var a := RedemptionBatch.AllocationOf(batch[k], cp.nav, cp.supply);
      var i :| 0 <= i < |allocations| && allocations[i] == a;
    }
  }

  lemma {:induction false} NoneIsNoBatch(requests: seq<Request>, shareEvents: seq<ShareEvent>, before: seq<Payable>,
                                         after: seq<Payable>, marks: seq<ReserveMark>, cp: Checkpoint, cycle: nat)
    requires PaidInOrder(before, after, requests, marks, cp, cycle, [])
    requires MaturedAt(before, marks, cycle) == 0 && BurnedAt(before, marks, cycle) == 0
    ensures PaidAsBatch(requests, shareEvents, before, after, cp, [], BurnedAt(after, marks, cycle),
                        MaturedAt(after, marks, cycle), DustOf(after, marks, cp, cycle))
  {
    hide MaturedAt, BurnedAt;
    assert after == before;
  }

  /** What a close withholds when the whole supply is burned. */
  function DustOf(payables: seq<Payable>, marks: seq<ReserveMark>, cp: Checkpoint, cycle: nat): int {
    if 0 < cp.supply && BurnedAt(payables, marks, cycle) == cp.supply then cp.nav - MaturedAt(payables, marks, cycle)
    else 0
  }

  lemma {:induction false} SomeAreABatch(requests: seq<Request>, shareEvents: seq<ShareEvent>, before: seq<Payable>,
                                         after: seq<Payable>, marks: seq<ReserveMark>, cp: Checkpoint, cycle: nat,
                                         rows: seq<nat>)
    requires PaidInOrder(before, after, requests, marks, cp, cycle, rows) && Numbers(rows, |requests|) && rows != []
    requires MaturedAt(before, marks, cycle) == 0 && BurnedAt(before, marks, cycle) == 0 && 0 <= cp.nav
    requires RedemptionBatch.Affordable(BatchOf(requests, shareEvents, rows), cp.supply)
    ensures PaidAsBatch(requests, shareEvents, before, after, cp, rows, BurnedAt(after, marks, cycle),
                        MaturedAt(after, marks, cycle), DustOf(after, marks, cp, cycle))
  {
    SomeSupply(requests, shareEvents, rows, cp.supply);
    hide PaidInOrder, ShareRedemption.FinalizeRedemptions, BatchOf, RedemptionBatch.Affordable, MaturedAt, BurnedAt,
         PaysAllocations;
    PaymentsAddUp(before, after, requests, marks, cp, cycle, rows, shareEvents);
    RedemptionBatch.BatchPaysEach(cp.nav, cp.supply, BatchOf(requests, shareEvents, rows));
    AllocationsArePaid(before, after, requests, shareEvents, marks, cp, cycle, rows);
  }

  lemma {:induction false} SettledAsBatch(v: Book, after: seq<Payable>, marks: seq<ReserveMark>, c: nat, at: int,
                                          now: int)
    requires Sound(v, now) && Unused(v, c) && 0 <= v.checkpoints[c].nav
    requires |v.reserveMarks| <= |marks| && marks[..|v.reserveMarks|] == v.reserveMarks
    requires var rows := MaturedRequests(v.requests, marks, c, c, at);
             PaidInOrder(v.payables, after, v.requests, marks, v.checkpoints[c], c, rows)
    ensures PaidAsBatch(v.requests, v.shareEvents, v.payables, after, v.checkpoints[c],
                        MaturedRequests(v.requests, marks, c, c, at), BurnedAt(after, marks, c),
                        MaturedAt(after, marks, c),
                        DustOf(after, marks, v.checkpoints[c], c))
  {
    var rows := MaturedRequests(v.requests, marks, c, c, at);
    NoneBefore(v, marks, c);
    UnusedSupply(v, c);
    QueueAndLots(v, now);
    hide Sound, Unused, MaturedRequests, LotBook, QueueSound, Balance, Supply, MaturedAt, BurnedAt, PaidAsBatch,
         PaidInOrder, DustOf, BatchOf, RedemptionBatch.Affordable;
    RowsAreRedeeming(v.requests, marks, c, at);
    if rows == [] {
      NoneIsNoBatch(v.requests, v.shareEvents, v.payables, after, marks, v.checkpoints[c], c);
    } else {
      BatchIsAffordable(v.requests, v.reserves, v.shareEvents, v.lots, v.allocations, rows);
      SomeAreABatch(v.requests, v.shareEvents, v.payables, after, marks, v.checkpoints[c], c, rows);
    }
  }

  lemma {:induction false} UnusedSupply(v: Book, c: nat)
    requires Unused(v, c)
    ensures c < |v.checkpoints| && v.checkpoints[c].supply == Supply(v.shareEvents)
  {
  }

  lemma {:induction false} SomeSupply(requests: seq<Request>, shareEvents: seq<ShareEvent>, rows: seq<nat>, supply: int)
    requires Numbers(rows, |requests|) && rows != []
    requires RedemptionBatch.Affordable(BatchOf(requests, shareEvents, rows), supply)
    ensures 0 < supply && BatchOf(requests, shareEvents, rows) != []
  {
    var first := BatchOf(requests, shareEvents, rows)[0];
  }

  // ---------------------------------------------------------------- the close

  lemma {:induction false} StagedPayments(b: Book, at: int, s: Stages)
    requires Staged(b, at, s)
    ensures var c, v := |b.closings|, s.valued;
            && Sound(v, s.now) && Unused(v, c) && 0 <= v.checkpoints[c].nav
            && |v.reserveMarks| <= |s.settled.reserveMarks|
            && s.settled.reserveMarks[..|v.reserveMarks|] == v.reserveMarks
            && PaidInOrder(v.payables, s.settled.payables, v.requests, s.settled.reserveMarks, v.checkpoints[c], c,
                           MaturedRequests(v.requests, s.settled.reserveMarks, c, c, at))
            && v.requests == b.requests && v.payables == b.payables && v.shareEvents == b.shareEvents
  {
    hide Sound, PaidUp, Collateralized, PaidExactly, MarkActiveReserves, MaturedRequests, Unused, PaidInOrder,
         SettleCycle, ActivateDeposits;
    var c := |b.closings|;
    ReserveStage(s.valued, c, at, s.now);
  }

  lemma {:induction false} EndedPayments(b: Book, at: int, s: Stages)
    requires Staged(b, at, s) && |b.cycles| == |b.closings|
    ensures |b.closings| < |s.valued.checkpoints|
    ensures var after, c, w := Ended(b, s), |b.closings|, s.settled;
            && after.payables == w.payables && after.reserveMarks == w.reserveMarks && c < |after.closings|
            && c < |after.checkpoints| && after.checkpoints[c] == s.valued.checkpoints[c]
            && var cp, closing := after.checkpoints[c], after.closings[c];
               && closing.matured == MaturedAt(w.payables, w.reserveMarks, c)
               && closing.dust == DustOf(w.payables, w.reserveMarks, cp, c)
  {
    hide Linked, Sound, PaidUp, Collateralized, PaidExactly, MarkActiveReserves, MaturedRequests, Unused, PaidInOrder,
         SettleCycle, ActivateDeposits, MaturedAt, BurnedAt, ActivatedAt, Supply;
  }

  /**
   A close pays its matured requests as one batch at its checkpoint would: one payable each, in queue order, at the
   allocation of its owner, with the batch's total as the matured amount and the batch's protocol dust withheld.
   */
  lemma {:induction false} CloseIsBatch(b: Book, tick: Positive, input: CloseInput)
    requires Consistent(b) && CloseDue(b, tick, input).Ok?
    ensures var after, c := CloseDue(b, tick, input).value, |b.closings|;
            && c < |after.closings| && c < |after.checkpoints|
            && PaidAsBatch(b.requests, b.shareEvents, b.payables, after.payables, after.checkpoints[c],
                           MaturedRequests(b.requests, after.reserveMarks, c, c, input.snapshot.created),
                           BurnedAt(after.payables, after.reserveMarks, c), after.closings[c].matured,
                           after.closings[c].dust)
  {
    hide Consistent, CloseDue, Staged, Ended, ValuedFrom, Sound, Unused, PaidInOrder, PaidAsBatch, MaturedRequests,
         MaturedAt, BurnedAt, DustOf;
    var s := CloseDueStages(b, tick, input);
    var at, c := input.snapshot.created, |b.closings|;
    BoundarySizes(b);
    StagedPayments(b, at, s);
    EndedPayments(b, at, s);
    SettledAsBatch(s.valued, s.settled.payables, s.settled.reserveMarks, c, at, s.now);
  }

  lemma {:induction false} BoundarySizes(b: Book)
    requires Consistent(b)
    ensures |b.cycles| == |b.closings|
  {
    hide Linked, Sound, SinceClose, ClosingsSound;
  }
}
