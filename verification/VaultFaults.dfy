/** Every way a due close can fail: the guards against impossible states never fire. */
module VaultFaults {
  import opened Common
  import opened VaultTables
  import opened VaultRows
  import opened VaultReplay
  import opened VaultInvariant
  import opened VaultSteps
  import opened VaultConsistency
  import opened VaultClosing
  import opened VaultClose
  import opened VaultCycle
  import opened VaultCollateral
  import VaultActivating
  import VaultPaying

  /** The figures and prices that a caller can bring about from outside. */
  predicate OrdinaryFault(fault: VaultSteps.Fault) {
    || fault == NotDue || fault == InceptionSeedNegative || fault == InceptionMismatch || fault == NavNegative
    || fault == PositiveNavWithoutShares || fault == LiabilityMarkMismatch || VaultActivating.ActivationFault(fault)
  }

  ghost predicate DistinctTickets(tickets: seq<Ticket>) {
    forall i, j :: 0 <= i < j < |tickets| ==> tickets[i].id != tickets[j].id
  }

  // ---------------------------------------------------------------- gross marks are always accepted

  lemma {:induction false} OpenAmong(tickets: seq<Ticket>, at: int)
    ensures forall k :: 0 <= k < |OpenTickets(tickets, at)| ==> OpenTickets(tickets, at)[k] in tickets
    ensures DistinctTickets(tickets) ==> DistinctTickets(OpenTickets(tickets, at))
  {
    if tickets != [] {
      var init, t := tickets[..|tickets| - 1], tickets[|tickets| - 1];
      OpenAmong(init, at);
      if DistinctTickets(tickets) {
        assert forall i :: 0 <= i < |init| ==> init[i] == tickets[i];
        assert forall x :: x in init ==> x.id != t.id;
      }
    }
  }

  lemma {:induction false} MarkFound(marks: seq<MarkWrite>, k: nat)
    requires k < |marks| && forall i, j :: 0 <= i < j < |marks| ==> marks[i].ticket != marks[j].ticket
    ensures MarkFor(marks, marks[k].ticket) == Some(marks[k])
  {
    if k < |marks| - 1 {
      MarkFound(marks[..|marks| - 1], k);
    }
  }

  lemma {:induction false} GrossMarksCover(open: seq<Ticket>, at: int)
    requires DistinctTickets(open)
    ensures MarksCover(open, GrossMarks(open, at))
    ensures forall k :: 0 <= k < |open| ==> MarkAccepted(MarkFor(GrossMarks(open, at), open[k].id), open[k], at)
  {
    var marks := GrossMarks(open, at);
    assert forall k :: 0 <= k < |open| ==> marks[k].ticket == open[k].id;
    forall i | 0 <= i < |open|
      ensures HasMark(marks, open[i].id)
    {
      assert marks[i].ticket == open[i].id;
    }
    forall j | 0 <= j < |marks|
      ensures HasTicket(open, marks[j].ticket)
    {
      assert open[j].id == marks[j].ticket;
    }
    forall k | 0 <= k < |open|
      ensures MarkAccepted(MarkFor(marks, open[k].id), open[k], at)
    {
      MarkFound(marks, k);
    }
  }

  lemma {:induction false} MarksNeverFail(b: Book, cycle: nat, open: seq<Ticket>, marks: seq<MarkWrite>, at: int)
    requires forall k :: 0 <= k < |open| ==> MarkAccepted(MarkFor(marks, open[k].id), open[k], at)
    ensures MarkTickets(b, cycle, open, marks, at).Ok?
  {
    if open != [] {
      MarksNeverFail(b, cycle, open[..|open| - 1], marks, at);
    }
  }

  /** Up to the checkpoint, only the valuation itself can fail. */
  lemma {:induction false} CheckpointFaults(b: Book, cycle: nat, from: int, input: CloseInput)
    requires DistinctTickets(input.tickets)
    ensures var at := input.snapshot.created;
            var r := CheckpointCycle(b, cycle, from, input, GrossMarks(OpenTickets(input.tickets, at), at));
            r.Err? ==> r.error == NavNegative || r.error == PositiveNavWithoutShares || r.error == LiabilityMarkMismatch
  {
    hide Recognize, OpenTickets, LiabilityNow, MarksCover, MarkFor, GrossMarks;
    var at := input.snapshot.created;
    var open := OpenTickets(input.tickets, at);
    OpenAmong(input.tickets, at);
    GrossMarksCover(open, at);
    MarksNeverFail(Recognize(b, cycle, input.tickets, from, at), cycle, open, GrossMarks(open, at), at);
  }

  // ---------------------------------------------------------------- from the checkpoint on

  lemma {:induction false} ReserveFaults(v: Book, c: nat, cp: Checkpoint, l: Liability, at: int)
    ensures var r := MarkActiveReserves(v, c, c, cp, at);
            && (r.Err? ==> r.error == RedemptionSupplyMissing)
            && (r.Ok? && MarkLiquidity(r.value, c, c, cp, l).Err? ==>
                  MarkLiquidity(r.value, c, c, cp, l).error == CollateralShortfall)
  {
    hide ReservedRequests, MarkReserves, MarkedReserve;
  }

  predicate StaleFault(fault: VaultSteps.Fault) {
    fault == RedemptionSupplyMissing || fault == CollateralShortfall
  }

  /** Settling and closing, once the cycle has its checkpoint. */
  lemma {:induction false} SettlementFaults(b: Book, v: Book, cutoff: int, at: int, now: int)
    requires Started(b, cutoff, now) && AtCheckpoint(b, v, cutoff) && Linked(v) && Sound(v, now)
    ensures var c := |b.closings|;
            var r := SettleCycle(v, c, c, v.checkpoints[c], v.liabilities[c], at, now);
            && (r.Err? ==> StaleFault(r.error) && !Fresh(b, at))
            && (r.Ok? ==>
                  var a := ActivateDeposits(r.value, cutoff, c, v.checkpoints[c]);
                  && (a.Err? ==> VaultActivating.ActivationFault(a.error))
                  && (a.Ok? ==> CloseBooks(a.value, c, c, v.checkpoints[c], now).Ok?))
  {
    hide Consistent, Linked, Sound, MarkActiveReserves, MarkLiquidity, FinalizeMatured, Unused,
         VaultPaying.PaidExactly, ActivateDeposits, CloseBooks, VaultPaying.PaidUp, Collateralized, ClosingNow,
         DepositsSound, Fresh;
    var c := |b.closings|;
    var cp, l := v.checkpoints[c], v.liabilities[c];
    ReserveFaults(v, c, cp, l, at);
    if Fresh(b, at) {
      FreshCollateral(b, v, cutoff, at, now);
    }
    var r := MarkActiveReserves(v, c, c, cp, at);
    CheckpointOf(v, c, now);
    StartedSizes(b, cutoff, now);
    if r.Ok? && MarkLiquidity(r.value, c, c, cp, l).Ok? {
      var w := SettleStage(b, v, cutoff, at, now);
      DepositsOf(w, now);
      VaultActivating.ActivationFaults(w, cutoff, c, cp);
      if ActivateDeposits(w, cutoff, c, cp).Ok? {
        FinishStage(b, v, w, cutoff, now);
      }
    }
  }

  // ---------------------------------------------------------------- the whole close

  /** A close that is due always has a source that its cycle accepts. */
  lemma {:induction false} DueIsAccepted(b: Book, input: CloseInput, cutoff: int, now: int)
    requires Due(b, input, cutoff, now)
    ensures var recovery := if OnTime(input.snapshot, cutoff) then None else UsableRecovery(input, cutoff);
            var used := input.(recovery := recovery);
            && SourceAccepted(used, cutoff) && RecoveryAccepted(used, cutoff)
            && used.financialVersion == used.snapshot.bookVersion
  {
  }

  lemma {:induction false} DueIsObserved(b: Book, input: CloseInput, cutoff: int, now: int)
    requires Due(b, input, cutoff, now)
    ensures input.snapshot.observed <= now
  {
  }

  lemma {:induction false} CycleFaults(b: Book, begun: Book, cutoff: int, from: int, input: CloseInput, now: int)
    requires Started(b, cutoff, now) && Opening(b, begun, cutoff) && Linked(begun) && Sound(begun, now)
    requires SourceAccepted(input, cutoff) && RecoveryAccepted(input, cutoff)
    requires input.financialVersion == input.snapshot.bookVersion && DistinctTickets(input.tickets)
    ensures var at := input.snapshot.created;
            var r := CloseOpenCycle(begun, |b.cycles|, cutoff, from, input,
                                    GrossMarks(OpenTickets(input.tickets, at), at), now);
            r.Err? ==> OrdinaryFault(r.error) || (StaleFault(r.error) && !Fresh(b, at))
  {
    hide Consistent, Linked, Sound, Started, CheckpointCycle, SettleCycle, ActivateDeposits, CloseBooks, Unused, Fresh,
         Opening, SourceAccepted, RecoveryAccepted, GrossMarks, OpenTickets, DistinctTickets;
    var at := input.snapshot.created;
    var marks := GrossMarks(OpenTickets(input.tickets, at), at);
    CheckpointFaults(begun, |b.cycles|, from, input);
    ClosingsWithinSizes(b, begun, cutoff, now);
    if CheckpointCycle(begun, |b.cycles|, from, input, marks).Ok? {
      CheckpointStage(b, begun, cutoff, from, input, marks, now);
      SettlementFaults(b, CheckpointCycle(begun, |b.cycles|, from, input, marks).value, cutoff, at, now);
    }
  }

  /**
   A due close can fail only because it is not due, because the figures it is given leave no
   value, value without shares or dust, or because a deposit is too small at the checkpoint price.
   With a snapshot older than the previous close it can also fail on the collateral or on
   reserves without supply; no other guard can fire at all.
   */
  lemma {:induction false} CloseFaults(b: Book, tick: Positive, input: CloseInput)
    requires Consistent(b) && DistinctTickets(input.tickets)
    ensures var r := CloseDue(b, tick, input);
            r.Err? ==> OrdinaryFault(r.error) || (StaleFault(r.error) && !Fresh(b, input.snapshot.created))
  {
    hide Linked, Sound, Started, Consistent, CloseCycle, CloseOpenCycle, Incepted, Opening, Due, DistinctTickets, Fresh;
    var now := b.clock + tick;
    var cutoff := DueCutoff(b, now);
    if Due(b, input, cutoff, now) {
      InceptionFault(b, input.snapshot);
      if Incepted(b, input.snapshot).Ok? {
        DueStarts(b, tick);
        StartedSizes(b, cutoff, now);
        SoundLater(b, now);
        DueIsAccepted(b, input, cutoff, now);
        var incepted := Incepted(b, input.snapshot).value;
        CycleOpens(b, incepted, input.snapshot, cutoff, now);
        var recovery := if OnTime(input.snapshot, cutoff) then None else UsableRecovery(input, cutoff);
        var from := if incepted.inception.Some? then incepted.inception.value.at else input.snapshot.created;
        DueIsObserved(b, input, cutoff, now);
        OpenedCycleCloses(incepted, cutoff, from, input.(recovery := recovery),
                          GrossMarks(OpenTickets(input.tickets, input.snapshot.created), input.snapshot.created), now);
        CycleFaults(b, AddCycle(incepted, Cycle(cutoff, Open, 0)), cutoff, from, input.(recovery := recovery), now);
      }
    }
  }

  lemma {:induction false} InceptionFault(b: Book, s: Snapshot)
    ensures b.inception.None? && Seed(s) < 0 ==> Incepted(b, s) == Err(InceptionSeedNegative)
    ensures b.inception.None? && 0 <= Seed(s) && SOURCE_MAX_AGE_MS < s.created - s.observed ==>
              Incepted(b, s) == Err(InceptionMismatch)
    ensures Incepted(b, s).Err? ==>
              b.inception.None? && (Seed(s) < 0 || SOURCE_MAX_AGE_MS < s.created - s.observed)
  {
  }
}
