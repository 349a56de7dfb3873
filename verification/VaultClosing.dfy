/** A whole close: from a consistent book to a consistent book, and every way it can fail. */
module VaultClosing {
  import opened Common
  import opened VaultTables
  import opened VaultRows
  import opened VaultReplay
  import opened VaultInvariant
  import opened VaultSteps
  import opened VaultMarking
  import opened VaultReserving
  import opened VaultPaying
  import VaultLinks
  import VaultQueue

  // ---------------------------------------------------------------- opening the cycle

  lemma {:induction false} SoundLater(b: Book, now: int)
    requires Sound(b, b.clock) && b.clock <= now
    ensures Sound(b, now)
  {
    hide LotBook, QueueSound, MarksSound, PayablesSound, CheckpointsSound, DepositsSound, FeesSound, HistorySound,
         BurnsMatched;
    VaultQueue.HistoryLater(b.history, b.requests, b.clock, now);
  }

  /** What inception and the opening of the cycle leave as it was. */
  ghost predicate Opening(b: Book, after: Book, cutoff: int) {
    && after == b.(events := after.events, inception := after.inception, deposits := after.deposits,
                   cycles := after.cycles)
    && after.inception.Some? && (b.inception.Some? ==> after.deposits == b.deposits)
    && |after.cycles| == |b.cycles| + 1 && after.cycles[..|b.cycles|] == b.cycles
    && after.cycles[|b.cycles|].cutoff == cutoff
  }

  lemma {:induction false} InceptedSound(b: Book, s: Snapshot, now: int)
    requires Linked(b) && Sound(b, now) && Incepted(b, s).Ok?
    ensures var after := Incepted(b, s).value;
            && Linked(after) && Sound(after, now) && after.inception.Some?
            && after == b.(events := after.events, inception := after.inception, deposits := after.deposits)
            && (b.inception.Some? ==> after == b)
  {
    hide Linked, LotBook, QueueSound, MarksSound, PayablesSound, CheckpointsSound, FeesSound, HistorySound,
         BurnsMatched;
    var seed := s.treasury - Senior(s) - s.openStake - s.openReserve;
    if b.inception.None? {
      var row := Inception(s.id, seed, s.created, 0);
      VaultLinks.InceptionLinked(b, row);
      if 0 < seed {
        VaultLinks.DepositLinked(AddInception(b, row),
                                 Deposit(FOUNDER_USER, seed, DayOf(s.created), FOUNDER_SOURCE, Pending, 0));
      }
    }
  }

  lemma {:induction false} CycleOpens(b: Book, incepted: Book, s: Snapshot, cutoff: int, now: int)
    requires Linked(b) && Sound(b, now) && Incepted(b, s) == Ok(incepted)
    ensures var begun := AddCycle(incepted, Cycle(cutoff, Open, 0));
            Linked(begun) && Sound(begun, now) && Opening(b, begun, cutoff) && |incepted.cycles| == |b.cycles|
  {
    hide Linked, LotBook, QueueSound, MarksSound, PayablesSound, CheckpointsSound, DepositsSound, FeesSound,
         HistorySound, BurnsMatched, Incepted;
    InceptedSound(b, s, now);
    VaultLinks.CycleLinked(incepted, Cycle(cutoff, Open, 0));
  }

  // ---------------------------------------------------------------- what the checkpoint starts from

  lemma {:induction false} NothingPaidYet(payables: seq<Payable>, marks: seq<ReserveMark>, checkpoint: nat)
    requires forall k :: 0 <= k < |payables| ==>
                           payables[k].mark < |marks| && marks[payables[k].mark].checkpoint != checkpoint
    ensures MaturedAt(payables, marks, checkpoint) == 0 && BurnedAt(payables, marks, checkpoint) == 0
  {
    if payables != [] {
      NothingPaidYet(payables[..|payables| - 1], marks, checkpoint);
    }
  }

  /** No mark is of a cycle that is only now being valued. */
  ghost predicate NoMarksAt(marks: seq<ReserveMark>, cycle: nat) {
    forall k :: 0 <= k < |marks| ==> marks[k].cycle != cycle && marks[k].checkpoint != cycle
  }

  lemma {:induction false} NoMarksYet(b: Book)
    requires MarksSound(b.reserveMarks, b.requests, b.checkpoints)
    ensures NoMarksAt(b.reserveMarks, |b.checkpoints|)
  {
    forall k | 0 <= k < |b.reserveMarks|
      ensures b.reserveMarks[k].cycle != |b.checkpoints| && b.reserveMarks[k].checkpoint != |b.checkpoints|
    {
      assert MarkSound(b.reserveMarks[k], b.requests, b.checkpoints);
    }
  }

  /** A fresh checkpoint: nothing has been paid, marked or activated at it. */
  ghost predicate Unused(b: Book, cycle: nat) {
    && cycle < |b.checkpoints| && NoMarksAt(b.reserveMarks, cycle)
    && ActivatedAt(b.deposits, cycle) == 0
    && Supply(b.shareEvents) == b.checkpoints[cycle].supply
    && (forall k :: 0 <= k < |b.payables| ==> b.payables[k].mark < |b.reserveMarks|)
  }

  lemma {:induction false} PayablesMarked(b: Book, now: int)
    requires Sound(b, now)
    ensures forall k :: 0 <= k < |b.payables| ==> b.payables[k].mark < |b.reserveMarks|
  {
    hide LotBook, QueueSound, MarksSound, CheckpointsSound, DepositsSound, FeesSound, HistorySound, BurnsMatched;
    forall k | 0 <= k < |b.payables|
      ensures b.payables[k].mark < |b.reserveMarks|
    {
      assert PayableSound(b.payables[k], b.reserveMarks, b.requests);
    }
  }

  /** Valuing a cycle gives a checkpoint that is not yet used. */
  lemma {:induction false} ValuedUnused(b: Book, valued: Book, now: int)
    requires Sound(b, now) && Checkpointing(b, valued) && |valued.checkpoints| == |b.checkpoints| + 1
    requires valued.checkpoints[|b.checkpoints|].supply == Supply(b.shareEvents)
    ensures Unused(valued, |b.checkpoints|)
  {
    hide LotBook, QueueSound, MarksSound, PayablesSound, CheckpointsSound, DepositsSound, FeesSound, HistorySound,
         BurnsMatched;
    NoMarksYet(b);
    NotYetActive(b.deposits, |b.checkpoints|);
    PayablesMarked(b, now);
  }

  /** Before any payment, what was paid at the checkpoint is nothing. */
  lemma {:induction false} NothingPaidUp(valued: Book, b: Book, cycle: nat)
    requires Unused(valued, cycle) && Reserving(valued, b)
    ensures PaidUp(b, cycle, MaturedTotal(b.payables))
  {
    forall k | 0 <= k < |b.payables|
      ensures b.payables[k].mark < |b.reserveMarks| && b.reserveMarks[b.payables[k].mark].checkpoint != cycle
    {
      var mark := b.payables[k].mark;
      assert b.reserveMarks[mark] == b.reserveMarks[..|valued.reserveMarks|][mark];
    }
    NothingPaidYet(b.payables, b.reserveMarks, cycle);
  }

  // ---------------------------------------------------------------- marking, paying

  lemma {:induction false} ReserveStage(b: Book, cycle: nat, at: int, now: int)
    requires Linked(b) && Sound(b, now) && cycle < |b.checkpoints|
    requires MarkActiveReserves(b, cycle, cycle, b.checkpoints[cycle], at).Ok?
    ensures var after := MarkActiveReserves(b, cycle, cycle, b.checkpoints[cycle], at).value;
            && Linked(after) && Sound(after, now) && Reserving(b, after)
            && MarksFrom(b, after, ReservedRequests(b.history, b.reserves, |b.requests|, at))
  {
    hide Linked, Sound, ReservedRequests;
    var requests := ReservedRequests(b.history, b.reserves, |b.requests|, at);
    if requests != [] {
      MarkReservesSound(b, cycle, requests, now);
    }
  }

  ghost predicate Collecting(b: Book, after: Book) {
    after == b.(events := after.events, liquidity := after.liquidity)
  }

  lemma {:induction false} LiquidityStage(b: Book, cycle: nat, cp: Checkpoint, l: Liability, now: int)
    requires Linked(b) && Sound(b, now) && MarkLiquidity(b, cycle, cycle, cp, l).Ok?
    ensures var after := MarkLiquidity(b, cycle, cycle, cp, l).value;
            var reserve := MarkedReserve(b.reserveMarks, cycle);
            && Linked(after) && Sound(after, now) && Collecting(b, after)
            && |after.liquidity| == |b.liquidity| + 1 && after.liquidity[..|b.liquidity|] == b.liquidity
            && after.liquidity[|b.liquidity|]
               == Liquidity(cycle, cycle, l.deductions, reserve, l.deductions - l.marked + l.gross + reserve,
                            cp.gross - (l.deductions - l.marked + l.gross + reserve), Next(b))
            && 0 <= after.liquidity[|b.liquidity|].free
  {
    hide Linked, LotBook, QueueSound, MarksSound, PayablesSound, CheckpointsSound, DepositsSound, FeesSound,
         HistorySound, BurnsMatched;
    var reserve := MarkedReserve(b.reserveMarks, cycle);
    var collateral := l.deductions - l.marked + l.gross + reserve;
    VaultLinks.LiquidityLinked(b, Liquidity(cycle, cycle, l.deductions, reserve, collateral, cp.gross - collateral, 0));
  }

  /** No request rests in the admitted state, so there is none to start redeeming. */
  lemma {:induction false} NoneAdmitted(b: Book, at: int)
    requires RequestsSound(b.requests, b.reserves, b.shareEvents)
    ensures AdmittedBy(b.requests, at) == []
  {
    var admitted := (r: nat) => r < |b.requests| && b.requests[r].status == Admitted && b.requests[r].startsAt <= at;
    forall r: nat | r < |b.requests|
      ensures !admitted(r)
    {
      assert RequestSound(b.requests[r], r, b.reserves, b.shareEvents);
    }
    SelectNone(|b.requests|, admitted);
  }

  lemma {:induction false} MaturedAreRipe(b: Book, cycle: nat, at: int)
    requires cycle < |b.checkpoints| && Supply(b.shareEvents) <= b.checkpoints[cycle].supply
    ensures AllRipe(b, cycle, MaturedRequests(b.requests, b.reserveMarks, cycle, cycle, at))
  {
    SelectOrdered(|b.requests|, (r: nat) => Matured(b.requests, b.reserveMarks, cycle, cycle, at, r));
  }

  /** Finalizing the matured redemptions never fails. */
  lemma {:induction false} PayStage(b: Book, cycle: nat, at: int, before: int, now: int) returns (after: Book)
    requires Linked(b) && Sound(b, now) && cycle < |b.checkpoints| && PaidUp(b, cycle, before)
    requires 0 <= b.checkpoints[cycle].nav
    ensures FinalizeMatured(b, cycle, cycle, b.checkpoints[cycle], at, now) == Ok(after)
    ensures Linked(after) && Sound(after, now) && Paying(b, after) && PaidUp(after, cycle, before)
    ensures PaidExactly(b.requests, after.requests, MaturedRequests(b.requests, b.reserveMarks, cycle, cycle, at))
    ensures PaidInOrder(b.payables, after.payables, b.requests, b.reserveMarks, b.checkpoints[cycle], cycle,
                        MaturedRequests(b.requests, b.reserveMarks, cycle, cycle, at))
  {
    SupplyFallen(b, cycle, before);
    hide Linked, Sound, PaidUp, MaturedRequests, AdmittedBy, FinalizeEach, AllRipe, PaidExactly, PaidInOrder;
    RequestsOf(b, now);
    NoneAdmitted(b, at);
    MaturedAreRipe(b, cycle, at);
    after := PayAll(b, cycle, MaturedRequests(b.requests, b.reserveMarks, cycle, cycle, at), before, now);
  }

  lemma {:induction false} SupplyFallen(b: Book, cycle: nat, before: int)
    requires PaidUp(b, cycle, before)
    ensures cycle < |b.checkpoints| && Supply(b.shareEvents) <= b.checkpoints[cycle].supply
  {
  }

  lemma {:induction false} RequestsOf(b: Book, now: int)
    requires Sound(b, now)
    ensures RequestsSound(b.requests, b.reserves, b.shareEvents)
  {
    hide LotBook, RequestsSound, MarksSound, PayablesSound, CheckpointsSound, DepositsSound, FeesSound, HistorySound,
         BurnsMatched;
  }
}
