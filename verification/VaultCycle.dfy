/** The stages of a close put together: it keeps the book consistent, and fails only where it should. */
module VaultCycle {
  import opened Common
  import opened VaultTables
  import opened VaultRows
  import opened VaultReplay
  import opened VaultInvariant
  import opened VaultSteps
  import opened VaultConsistency
  import opened VaultMarking
  import opened VaultPaying
  import opened VaultActivating
  import opened VaultClosing
  import opened VaultClose
  import VaultLinks

  // ---------------------------------------------------------------- to the checkpoint

  /** The book at its new checkpoint, beside the one that the close started from. */
  ghost predicate AtCheckpoint(b: Book, v: Book, cutoff: int) {
    var c := |b.closings|;
    && v.vault == b.vault && v.clock == b.clock && v.closings == b.closings && v.inception.Some?
    && |v.checkpoints| == c + 1 && v.checkpoints[..c] == b.checkpoints
    && |v.liabilities| == c + 1 && v.liabilities[..c] == b.liabilities
    && |v.cycles| == c + 1 && v.cycles[..c] == b.cycles && v.cycles[c].cutoff == cutoff
    && v.liquidity == b.liquidity && Unused(v, c)
    && v.liabilities[c].pending == PendingTotal(v.deposits) && v.liabilities[c].matured == MaturedTotal(v.payables)
    && v.history == b.history && v.requests == b.requests && v.reserves == b.reserves && v.shareEvents == b.shareEvents
    && v.payables == b.payables && (b.inception.Some? ==> v.deposits == b.deposits)
  }

  lemma {:induction false} ClosingsWithinSizes(b: Book, begun: Book, cutoff: int, now: int)
    requires Started(b, cutoff, now) && Opening(b, begun, cutoff)
    ensures VaultLinks.ClosingsWithin(begun.closings, |begun.checkpoints|) && |begun.checkpoints| == |b.closings|
    ensures |b.cycles| == |b.closings| == |b.liabilities|
  {
    StartedSizes(b, cutoff, now);
    LiabilitiesOf(b, b.clock);
    forall i | 0 <= i < |b.closings|
      ensures b.closings[i].checkpoint < |b.checkpoints|
    {
      assert ClosingSound(b.closings[i], b.checkpoints[i], i);
    }
  }

  lemma {:induction false} MarkedStage(b: Book, begun: Book, cutoff: int, from: int, input: CloseInput,
                                       marks: seq<MarkWrite>, now: int)
    requires Started(b, cutoff, now) && Opening(b, begun, cutoff) && Linked(begun) && Sound(begun, now)
    requires var at := input.snapshot.created;
             MarkTickets(Recognize(begun, |b.cycles|, input.tickets, from, at), |b.cycles|,
                         OpenTickets(input.tickets, at), marks, at).Ok?
    ensures var at := input.snapshot.created;
            var marked := MarkTickets(Recognize(begun, |b.cycles|, input.tickets, from, at), |b.cycles|,
                                      OpenTickets(input.tickets, at), marks, at).value;
            Linked(marked) && Sound(marked, now) && Marking(begun, marked)
  {
    hide Linked, Sound, Started, Opening, Recognize, MarkTickets, OpenTickets;
    var at := input.snapshot.created;
    RecognizeSound(begun, |b.cycles|, input.tickets, from, at, now);
    MarkTicketsSound(Recognize(begun, |b.cycles|, input.tickets, from, at), |b.cycles|, OpenTickets(input.tickets, at),
                     marks, at, now);
  }

  lemma {:induction false} CheckpointStage(b: Book, begun: Book, cutoff: int, from: int, input: CloseInput,
                                           marks: seq<MarkWrite>, now: int)
    requires Started(b, cutoff, now) && Opening(b, begun, cutoff) && Linked(begun) && Sound(begun, now)
    requires CheckpointCycle(begun, |b.cycles|, from, input, marks).Ok?
    ensures var v := CheckpointCycle(begun, |b.cycles|, from, input, marks).value;
            Linked(v) && Sound(v, now) && AtCheckpoint(b, v, cutoff)
  {
    hide Linked, Sound, Started, Recognize, MarkTickets, OpenTickets, ValueCycle, MarksCover;
    var at := input.snapshot.created;
    var open := OpenTickets(input.tickets, at);
    var marked := MarkTickets(Recognize(begun, |b.cycles|, input.tickets, from, at), |b.cycles|, open, marks, at).value;
    MarkedStage(b, begun, cutoff, from, input, marks, now);
    ClosingsWithinSizes(b, begun, cutoff, now);
    ValueCycleSound(marked, |b.cycles|, input, open, now);
    ValuedUnused(marked, ValueCycle(marked, |b.cycles|, input, open).value, now);
  }

  // ---------------------------------------------------------------- to the payables

  /** The reserve and liquidity that the cycle's checkpoint recorded. */
  ghost predicate Collateralized(b: Book, c: nat) {
    && c < |b.liquidity| && c < |b.checkpoints| && c < |b.liabilities|
    && var q, cp, l := b.liquidity[c], b.checkpoints[c], b.liabilities[c];
       && q.activeReserve == MarkedReserve(b.reserveMarks, c) && q.deductions == l.deductions
       && q.collateral == l.deductions - l.marked + l.gross + q.activeReserve
       && 0 <= q.free == cp.gross - q.collateral
  }

  /** From the checkpoint on: what the stages of settlement leave as it was. */
  ghost predicate SettledFrom(v: Book, w: Book) {
    && w == v.(events := w.events, reserveMarks := w.reserveMarks, liquidity := w.liquidity,
               shareEvents := w.shareEvents, allocations := w.allocations, payables := w.payables,
               requests := w.requests, history := w.history)
    && |w.liquidity| == |v.liquidity| + 1 && w.liquidity[..|v.liquidity|] == v.liquidity
  }

  lemma {:induction false} SettleStage(b: Book, v: Book, cutoff: int, at: int, now: int) returns (w: Book)
    requires Linked(v) && Sound(v, now) && AtCheckpoint(b, v, cutoff) && 0 <= v.checkpoints[|b.closings|].nav
    requires var c := |b.closings|;
             MarkActiveReserves(v, c, c, v.checkpoints[c], at).Ok?
             && MarkLiquidity(MarkActiveReserves(v, c, c, v.checkpoints[c], at).value, c, c, v.checkpoints[c],
                              v.liabilities[c]).Ok?
    ensures var c := |b.closings|;
            SettleCycle(v, c, c, v.checkpoints[c], v.liabilities[c], at, now) == Ok(w)
    ensures Linked(w) && Sound(w, now) && SettledFrom(v, w) && PaidUp(w, |b.closings|, MaturedTotal(v.payables))
    ensures w.liquidity[|b.liquidity|].cycle == |b.closings| == w.liquidity[|b.liquidity|].checkpoint
    ensures |b.liquidity| == |b.closings| ==> Collateralized(w, |b.closings|)
    ensures var c := |b.closings|;
            && w.reserveMarks == MarkActiveReserves(v, c, c, v.checkpoints[c], at).value.reserveMarks
            && PaidExactly(v.requests, w.requests, MaturedRequests(v.requests, w.reserveMarks, c, c, at))
            && PaidInOrder(v.payables, w.payables, v.requests, w.reserveMarks, v.checkpoints[c], c,
                           MaturedRequests(v.requests, w.reserveMarks, c, c, at))
  {
    hide Linked, Sound, PaidUp, MarkActiveReserves, MarkLiquidity, FinalizeMatured, Unused, PaidExactly, PaidInOrder,
         MaturedRequests;
    var c := |b.closings|;
    var cp, l := v.checkpoints[c], v.liabilities[c];
    ReserveStage(v, c, at, now);
    var reserved := MarkActiveReserves(v, c, c, cp, at).value;
    NothingPaidUp(v, reserved, c);
    LiquidityStage(reserved, c, cp, l, now);
    var liquid := MarkLiquidity(reserved, c, c, cp, l).value;
    PaidUpFrame(reserved, liquid, c, MaturedTotal(v.payables));
    w := PayStage(liquid, c, at, MaturedTotal(v.payables), now);
  }

  lemma {:induction false} PaidUpFrame(b: Book, after: Book, cycle: nat, before: int)
    requires PaidUp(b, cycle, before) && Collecting(b, after)
    ensures PaidUp(after, cycle, before)
  {
  }

  // ---------------------------------------------------------------- to the closing state

  lemma {:induction false} ReadyAfter(v: Book, w: Book, active: Book, c: nat, now: int)
    requires Unused(v, c) && SettledFrom(v, w) && PaidUp(w, c, MaturedTotal(v.payables)) && Minting(w, active)
    requires c < |v.liabilities| && CheckpointSound(v.checkpoints[c], v.liabilities[c], c)
    requires v.liabilities[c].pending == PendingTotal(v.deposits)
             && v.liabilities[c].matured == MaturedTotal(v.payables)
    requires FairlyActivated(w, active, c, v.checkpoints[c]) && 0 <= Supply(w.shareEvents)
    ensures ReadyToClose(active, c)
  {
  }

  lemma {:induction false} SupplySign(b: Book, now: int)
    requires Sound(b, now)
    ensures 0 <= Supply(b.shareEvents)
  {
    hide QueueSound, MarksSound, PayablesSound, CheckpointsSound, DepositsSound, FeesSound, HistorySound, BurnsMatched;
    BalanceWithinSupply(b.shareEvents, b.lots, b.allocations, 0);
  }

  lemma {:induction false} UnderwayAfter(b: Book, v: Book, w: Book, active: Book, cutoff: int)
    requires AtCheckpoint(b, v, cutoff) && SettledFrom(v, w) && Minting(w, active) && |b.liquidity| == |b.closings|
    requires w.liquidity[|b.liquidity|].cycle == |b.closings| == w.liquidity[|b.liquidity|].checkpoint
    ensures Underway(b, active, cutoff)
  {
    hide Unused;
  }

  lemma {:induction false} CheckpointOf(v: Book, c: nat, now: int)
    requires Sound(v, now) && c < |v.checkpoints|
    ensures |v.liabilities| == |v.checkpoints| && CheckpointSound(v.checkpoints[c], v.liabilities[c], c)
  {
    LiabilitiesOf(v, now);
  }

  lemma {:induction false} FinishStage(b: Book, v: Book, w: Book, cutoff: int, now: int)
    requires Started(b, cutoff, now) && AtCheckpoint(b, v, cutoff) && Sound(v, now)
    requires Linked(w) && Sound(w, now) && SettledFrom(v, w) && PaidUp(w, |b.closings|, MaturedTotal(v.payables))
    requires w.liquidity[|b.liquidity|].cycle == |b.closings| == w.liquidity[|b.liquidity|].checkpoint
    requires ActivateDeposits(w, cutoff, |b.closings|, v.checkpoints[|b.closings|]).Ok?
    ensures var c := |b.closings|;
            var active := ActivateDeposits(w, cutoff, c, v.checkpoints[c]).value;
            var closing := ClosingNow(active, c, c, v.checkpoints[c], now);
            && CloseBooks(active, c, c, v.checkpoints[c], now).Ok?
            && CloseBooks(active, c, c, v.checkpoints[c], now).value.(clock := now) == Shut(active, closing, now)
            && Consistent(Shut(active, closing, now)) && Minting(w, active)
  {
    hide Linked, Sound, Started, Consistent, PaidUp, ActivateDeposits, ReadyToClose, Unused, FairlyActivated,
         ClosingNow;
    var c := |b.closings|;
    var cp := v.checkpoints[c];
    var active := ActivateDeposits(w, cutoff, c, cp).value;
    ActivationFair(w, cutoff, c, cp, now);
    CheckpointOf(v, c, now);
    SupplySign(w, now);
    ReadyAfter(v, w, active, c, now);
    StartedSizes(b, cutoff, now);
    UnderwayAfter(b, v, w, active, cutoff);
    ShutConsistent(b, active, cutoff, now);
    ShutIsClose(active, c, cp, now);
  }

  lemma {:induction false} ShutIsClose(active: Book, c: nat, cp: Checkpoint, now: int)
    requires ClosingSound(ClosingNow(active, c, c, cp, now), cp, c)
    ensures CloseBooks(active, c, c, cp, now).Ok?
    ensures CloseBooks(active, c, c, cp, now).value.(clock := now)
         == Shut(active, ClosingNow(active, c, c, cp, now), now)
  {
  }

  // ---------------------------------------------------------------- the whole transaction

  /** The stages of a close: the book at its checkpoint, with its payables, and with its mints. */
  datatype Stages = Stages(cutoff: int, now: int, valued: Book, settled: Book, active: Book)

  /** What the stages of a successful close have to do with each other. */
  ghost predicate Staged(b: Book, at: int, s: Stages) {
    var c := |b.closings|;
    && AtCheckpoint(b, s.valued, s.cutoff) && Linked(s.valued) && Sound(s.valued, s.now)
    && 0 <= s.valued.checkpoints[c].nav
    && SettledFrom(s.valued, s.settled) && Sound(s.settled, s.now)
    && SettleCycle(s.valued, c, c, s.valued.checkpoints[c], s.valued.liabilities[c], at, s.now) == Ok(s.settled)
    && ActivateDeposits(s.settled, s.cutoff, c, s.valued.checkpoints[c]) == Ok(s.active)
    && PaidUp(s.settled, c, MaturedTotal(s.valued.payables)) && Collateralized(s.settled, c)
    && PaidExactly(s.valued.requests, s.settled.requests,
                   MaturedRequests(s.valued.requests, s.settled.reserveMarks, c, c, at))
    && PaidInOrder(s.valued.payables, s.settled.payables, s.valued.requests, s.settled.reserveMarks,
                   s.valued.checkpoints[c], c, MaturedRequests(s.valued.requests, s.settled.reserveMarks, c, c, at))
    && Minting(s.settled, s.active) && Sound(s.active, s.now)
    && (var r := MarkActiveReserves(s.valued, c, c, s.valued.checkpoints[c], at);
        r.Ok? && s.settled.reserveMarks == r.value.reserveMarks)
  }

  /** The book that the stages end in. */
  function Ended(b: Book, s: Stages): Book
    requires |b.closings| < |s.valued.checkpoints|
  {
    var c := |b.closings|;
    Shut(s.active, ClosingNow(s.active, c, c, s.valued.checkpoints[c], s.now), s.now)
  }

  lemma {:induction false} SettledThrough(v: Book, c: nat, at: int, now: int)
    requires c < |v.checkpoints| && c < |v.liabilities|
    requires SettleCycle(v, c, c, v.checkpoints[c], v.liabilities[c], at, now).Ok?
    ensures var reserved := MarkActiveReserves(v, c, c, v.checkpoints[c], at);
            reserved.Ok? && MarkLiquidity(reserved.value, c, c, v.checkpoints[c], v.liabilities[c]).Ok?
  {
    hide MarkActiveReserves, MarkLiquidity, FinalizeMatured;
  }

  lemma {:induction false} CloseStages(b: Book, begun: Book, cutoff: int, from: int, input: CloseInput,
                                       marks: seq<MarkWrite>, now: int) returns (s: Stages)
    requires Started(b, cutoff, now) && Opening(b, begun, cutoff) && Linked(begun) && Sound(begun, now)
    requires CloseOpenCycle(begun, |b.cycles|, cutoff, from, input, marks, now).Ok?
    ensures s.cutoff == cutoff && s.now == now && Staged(b, input.snapshot.created, s)
    ensures CheckpointCycle(begun, |b.cycles|, from, input, marks) == Ok(s.valued)
    ensures CloseOpenCycle(begun, |b.cycles|, cutoff, from, input, marks, now).value.(clock := now) == Ended(b, s)
    ensures Consistent(Ended(b, s))
  {
    hide Linked, Sound, Started, Consistent, CheckpointCycle, MarkActiveReserves, MarkLiquidity, FinalizeMatured,
         ActivateDeposits, CloseBooks, SettleCycle, PaidUp, PaidExactly, PaidInOrder, Unused, Collateralized,
         ClosingNow, Opening, SourceAccepted, RecoveryAccepted, FairlyActivated;
    ClosingsWithinSizes(b, begun, cutoff, now);
    CheckpointStage(b, begun, cutoff, from, input, marks, now);
    var v := CheckpointCycle(begun, |b.cycles|, from, input, marks).value;
    CheckpointOf(v, |b.closings|, now);
    StartedSizes(b, cutoff, now);
    SettledThrough(v, |b.closings|, input.snapshot.created, now);
    var w := SettleStage(b, v, cutoff, input.snapshot.created, now);
    FinishStage(b, v, w, cutoff, now);
    ActivationFair(w, cutoff, |b.closings|, v.checkpoints[|b.closings|], now);
    s := Stages(cutoff, now, v, w, ActivateDeposits(w, cutoff, |b.closings|, v.checkpoints[|b.closings|]).value);
  }

  lemma {:induction false} DueStarts(b: Book, tick: Positive)
    requires Consistent(b)
    ensures Started(b, DueCutoff(b, b.clock + tick), b.clock + tick)
  {
    hide Linked, Sound, SinceClose, Aligned, ClosingsSound;
  }

  /** The part of the due close that ends at its checkpoint. */
  function ValuedFrom(b: Book, cutoff: int, input: CloseInput): Result<Book, VaultSteps.Fault> {
    match Incepted(b, input.snapshot)
    case Err(fault) => Err(fault)
    case Ok(incepted) =>
      var recovery := if OnTime(input.snapshot, cutoff) then None else UsableRecovery(input, cutoff);
      var from := if incepted.inception.Some? then incepted.inception.value.at else input.snapshot.created;
      var at := input.snapshot.created;
      CheckpointCycle(AddCycle(incepted, Cycle(cutoff, Open, 0)), |incepted.cycles|, from, input.(recovery := recovery),
                      GrossMarks(OpenTickets(input.tickets, at), at))
  }

  /** The close that is due opens the cycle that it closes, and its source was observed before. */
  lemma {:induction false} OpenedCycleCloses(incepted: Book, cutoff: int, from: int, input: CloseInput,
                                             marks: seq<MarkWrite>, now: int)
    requires input.snapshot.observed <= now
    ensures var begun, c := AddCycle(incepted, Cycle(cutoff, Open, 0)), |incepted.cycles|;
            var closed := CloseOpenCycle(begun, c, cutoff, from, input, marks, now);
            CloseCycle(begun, c, cutoff, from, input, marks, now) == closed
  {
    hide CloseOpenCycle;
  }

  /** A close that succeeds leaves the book consistent. */
  lemma {:induction false} CloseDueStages(b: Book, tick: Positive, input: CloseInput) returns (s: Stages)
    requires Consistent(b) && CloseDue(b, tick, input).Ok?
    ensures s.cutoff == DueCutoff(b, s.now) && s.now == b.clock + tick && Staged(b, input.snapshot.created, s)
    ensures ValuedFrom(b, s.cutoff, input) == Ok(s.valued)
    ensures CloseDue(b, tick, input) == Ok(Ended(b, s)) && Consistent(Ended(b, s))
  {
    hide Linked, Sound, Started, Consistent, CloseCycle, CloseOpenCycle, Incepted, Opening, Ended, CheckpointCycle;
    var now := b.clock + tick;
    var cutoff := DueCutoff(b, now);
    DueStarts(b, tick);
    StartedSizes(b, cutoff, now);
    SoundLater(b, now);
    var incepted := Incepted(b, input.snapshot).value;
    CycleOpens(b, incepted, input.snapshot, cutoff, now);
    var begun := AddCycle(incepted, Cycle(cutoff, Open, 0));
    var recovery := if OnTime(input.snapshot, cutoff) then None else UsableRecovery(input, cutoff);
    var from := if incepted.inception.Some? then incepted.inception.value.at else input.snapshot.created;
    var at := input.snapshot.created;
    OpenedCycleCloses(incepted, cutoff, from, input.(recovery := recovery),
                      GrossMarks(OpenTickets(input.tickets, at), at), now);
    s := CloseStages(b, begun, cutoff, from, input.(recovery := recovery),
                     GrossMarks(OpenTickets(input.tickets, at), at), now);
  }
}
