/** A close up to its checkpoint: what it recognizes, marks and values. */
module VaultMarking {
  import opened Common
  import opened VaultTables
  import opened VaultRows
  import opened VaultReplay
  import opened VaultInvariant
  import opened VaultSteps
  import VaultLinks
  import VaultStepLinks

  // ---------------------------------------------------------------- signs of the sums

  lemma {:induction false} FeesSign(fees: seq<FeeAccrual>, at: int)
    requires FeesSound(fees)
    ensures 0 <= FeesAt(fees, at)
  {
    if fees != [] {
      FeesSign(fees[..|fees| - 1], at);
    }
  }

  lemma {:induction false} PendingSign(deposits: seq<Deposit>, checkpoints: nat)
    requires DepositsSound(deposits, checkpoints)
    ensures 0 <= PendingTotal(deposits)
  {
    if deposits != [] {
      PendingSign(deposits[..|deposits| - 1], checkpoints);
    }
  }

  ghost predicate AmountsSign(payables: seq<Payable>) {
    forall k :: 0 <= k < |payables| ==> 0 <= payables[k].amount
  }

  lemma {:induction false} MaturedSign(payables: seq<Payable>)
    requires AmountsSign(payables)
    ensures 0 <= MaturedTotal(payables)
  {
    if payables != [] {
      MaturedSign(payables[..|payables| - 1]);
    }
  }

  lemma {:induction false} PayableAmounts(payables: seq<Payable>, marks: seq<ReserveMark>, requests: seq<Request>)
    requires PayablesSound(payables, marks, requests)
    ensures AmountsSign(payables)
  {
    forall k | 0 <= k < |payables|
      ensures 0 <= payables[k].amount
    {
      assert PayableSound(payables[k], marks, requests);
    }
  }

  /** No deposit is active at a checkpoint that does not exist yet. */
  lemma {:induction false} NotYetActive(deposits: seq<Deposit>, checkpoints: nat)
    requires DepositsSound(deposits, checkpoints)
    ensures ActivatedAt(deposits, checkpoints) == 0
  {
    if deposits != [] {
      NotYetActive(deposits[..|deposits| - 1], checkpoints);
    }
  }

  // ---------------------------------------------------------------- recognition

  lemma {:induction false} FeesStaySound(b: Book, due: seq<Ticket>)
    requires FeesSound(b.fees)
    ensures FeesSound(AccrueFees(b, due).fees)
  {
    if due != [] {
      FeesStaySound(b, due[..|due| - 1]);
    }
  }

  /** What recognition and ticket marks leave as it was. */
  ghost predicate Marking(b: Book, after: Book) {
    after == b.(events := after.events, fees := after.fees, recognitions := after.recognitions,
                ticketMarks := after.ticketMarks)
  }

  lemma {:induction false} MarkingKeepsSound(b: Book, after: Book, now: int)
    requires Sound(b, now) && Marking(b, after) && FeesSound(after.fees)
    ensures Sound(after, now)
  {
    hide LotBook, QueueSound, MarksSound, PayablesSound, CheckpointsSound, DepositsSound, FeesSound, HistorySound,
         BurnsMatched;
  }

  lemma {:induction false} RecognizeSound(b: Book, cycle: nat, tickets: seq<Ticket>, from: int, through: int, now: int)
    requires Linked(b) && Sound(b, now)
    ensures var after := Recognize(b, cycle, tickets, from, through);
            Linked(after) && Sound(after, now) && Marking(b, after)
  {
    hide Linked, FeesSound, FeesDue, SettlementsDue;
    var fees := FeesDue(b.fees, tickets, from, through);
    var due := SettlementsDue(b.recognitions, tickets, from, through);
    VaultStepLinks.FeesLinked(b, fees);
    FeesStaySound(b, fees);
    VaultStepLinks.RecognitionsLinked(AccrueFees(b, fees), cycle, due);
    MarkingKeepsSound(b, Recognize(b, cycle, tickets, from, through), now);
  }

  lemma {:induction false} MarkTicketsSound(b: Book, cycle: nat, open: seq<Ticket>, marks: seq<MarkWrite>, at: int,
                                            now: int)
    requires Linked(b) && Sound(b, now) && MarkTickets(b, cycle, open, marks, at).Ok?
    ensures var after := MarkTickets(b, cycle, open, marks, at).value;
            Linked(after) && Sound(after, now) && Marking(b, after)
  {
    hide Linked;
    VaultStepLinks.TicketsLinked(b, cycle, open, marks, at);
    MarkingKeepsSound(b, MarkTickets(b, cycle, open, marks, at).value, now);
  }

  // ---------------------------------------------------------------- the checkpoint

  /** The checkpoint that `ValueCycle` records. */
  function CheckpointNow(b: Book, l: Liability, input: CloseInput, open: seq<Ticket>): Checkpoint {
    Checkpoint(l.cycle, |b.liabilities|, input.snapshot.id, l.grossAssets, l.grossAssets - l.deductions,
               Supply(b.shareEvents), OpenStake(open) - l.marked, FinalizedPnl(b.recognitions), 0)
  }

  lemma {:induction false} LiabilityIsSound(b: Book, cycle: nat, input: CloseInput, open: seq<Ticket>, now: int)
    requires Sound(b, now)
    ensures var l := LiabilityNow(b, cycle, input, open);
            && 0 <= l.pending && 0 <= l.matured && 0 <= l.fees && l.marked == l.gross
            && 0 <= l.deductions - l.pending - l.matured
  {
    FeesSign(b.fees, input.snapshot.created);
    PendingSign(b.deposits, |b.checkpoints|);
    PayableAmounts(b.payables, b.reserveMarks, b.requests);
    MaturedSign(b.payables);
  }

  /** What a successful valuation writes, and that it passed its guards: the last one stands against any dust. */
  lemma {:induction false} ValueCycleOutcome(b: Book, cycle: nat, input: CloseInput, open: seq<Ticket>)
    ensures var l, r := LiabilityNow(b, cycle, input, open), ValueCycle(b, cycle, input, open);
            var cp := CheckpointNow(b, l, input, open);
            var dust := DustBy(b.closings, input.snapshot.created);
            && (r.Ok? <==> 0 <= cp.nav && (cp.supply == 0 ==> cp.nav == 0) && dust == 0)
            && (r.Ok? ==> r == Ok(AddCheckpoint(AddLiability(b, l), cp)))
            && (r.Err? ==> r == Err(if cp.nav < 0 then NavNegative
                                    else if cp.supply == 0 && cp.nav != 0 then PositiveNavWithoutShares
                                    else LiabilityMarkMismatch))
  {
  }

  ghost predicate Checkpointing(b: Book, after: Book) {
    after == b.(events := after.events, liabilities := after.liabilities, checkpoints := after.checkpoints)
  }

  lemma {:induction false} CheckpointsStaySound(checkpoints: seq<Checkpoint>, liabilities: seq<Liability>,
                                                cp: Checkpoint,
                                                l: Liability)
    requires CheckpointsSound(checkpoints, liabilities) && CheckpointSound(cp, l, |checkpoints|)
    ensures CheckpointsSound(checkpoints + [cp], liabilities + [l])
  {
  }

  lemma {:induction false} MarksSurviveCheckpoint(marks: seq<ReserveMark>, requests: seq<Request>,
                                                  checkpoints: seq<Checkpoint>, cp: Checkpoint)
    requires MarksSound(marks, requests, checkpoints)
    ensures MarksSound(marks, requests, checkpoints + [cp])
  {
    forall k | 0 <= k < |marks|
      ensures MarkSound(marks[k], requests, checkpoints + [cp])
    {
      assert MarkSound(marks[k], requests, checkpoints);
    }
  }

  lemma {:induction false} CheckpointKeepsSound(b: Book, l: Liability, cp: Checkpoint, now: int)
    requires Sound(b, now) && CheckpointSound(cp, l, |b.checkpoints|)
    ensures Sound(AddCheckpoint(AddLiability(b, l), cp), now)
    ensures Checkpointing(b, AddCheckpoint(AddLiability(b, l), cp))
  {
    hide LotBook, QueueSound, MarksSound, PayablesSound, CheckpointsSound, FeesSound, HistorySound, BurnsMatched;
    var after := AddCheckpoint(AddLiability(b, l), cp);
    var newCp, newL := after.checkpoints[|b.checkpoints|], after.liabilities[|b.liabilities|];
    CheckpointsStaySound(b.checkpoints, b.liabilities, newCp, newL);
    MarksSurviveCheckpoint(b.reserveMarks, b.requests, b.checkpoints, newCp);
  }

  lemma {:induction false} ValuesLinked(b: Book, l: Liability, cp: Checkpoint)
    requires Linked(b) && 0 <= cp.nav <= cp.gross && 0 <= cp.supply == Supply(b.shareEvents)
    requires l.grossAssets == cp.gross && l.deductions == cp.gross - cp.nav
    requires VaultLinks.ClosingsWithin(b.closings, |b.checkpoints|)
    ensures Linked(AddCheckpoint(AddLiability(b, l), cp))
  {
    hide Linked;
    VaultLinks.LiabilityLinked(b, l);
    VaultLinks.CheckpointLinked(AddLiability(b, l), cp);
  }

  lemma {:induction false} ValueCycleSound(b: Book, cycle: nat, input: CloseInput, open: seq<Ticket>, now: int)
    requires Linked(b) && Sound(b, now) && cycle == |b.checkpoints| && ValueCycle(b, cycle, input, open).Ok?
    requires VaultLinks.ClosingsWithin(b.closings, |b.checkpoints|)
    ensures var after := ValueCycle(b, cycle, input, open).value;
            && Linked(after) && Sound(after, now) && Checkpointing(b, after)
            && |after.checkpoints| == |b.checkpoints| + 1 && after.checkpoints[..|b.checkpoints|] == b.checkpoints
            && |after.liabilities| == |b.liabilities| + 1 && after.liabilities[..|b.liabilities|] == b.liabilities
            && after.checkpoints[|b.checkpoints|].supply == Supply(b.shareEvents)
            && after.liabilities[|b.liabilities|] == LiabilityNow(b, cycle, input, open).(event := Next(b))
  {
    hide Linked;
    var l := LiabilityNow(b, cycle, input, open);
    var cp := CheckpointNow(b, l, input, open);
    ValueCycleOutcome(b, cycle, input, open);
    LiabilityIsSound(b, cycle, input, open, now);
    BalanceWithinSupply(b.shareEvents, b.lots, b.allocations, 0);
    assert CheckpointSound(cp, l, |b.checkpoints|);
    CheckpointKeepsSound(b, l, cp, now);
    ValuesLinked(b, l, cp);
  }
}
