/** How every due close ends, decided by figures that are known before it starts. */
module VaultOutcomes {
  import opened Common
  import opened VaultTables
  import opened VaultRows
  import opened VaultReplay
  import opened VaultInvariant
  import opened VaultSteps
  import opened VaultConsistency
  import opened VaultMarking
  import opened VaultReserving
  import opened VaultClosing
  import opened VaultClose
  import opened VaultCycle
  import opened VaultCollateral
  import opened VaultFaults
  import VaultActivating
  import VaultContinuity
  import VaultPaying
  import VaultStepLinks

  // ---------------------------------------------------------------- what is known beforehand

  /** The requests that the history had as reserved when the snapshot was taken. */
  function ReservedThen(b: Book, at: int): seq<nat> {
    ReservedRequests(b.history, b.reserves, |b.requests|, at)
  }

  /** What their reserves would be worth at a given value and supply. */
  function Demand(reserves: seq<Reserve>, rows: seq<nat>, nav: int, supply: int): int {
    if rows == [] then 0
    else Demand(reserves, rows[..|rows| - 1], nav, supply) + HeldWorth(reserves, rows[|rows| - 1], nav, supply)
  }

  /** The liability that the cycle would record. */
  function LiabilityAhead(begun: Book, cycle: nat, from: int, input: CloseInput): Liability {
    var at := input.snapshot.created;
    LiabilityNow(Recognize(begun, cycle, input.tickets, from, at), cycle, input, OpenTickets(input.tickets, at))
  }

  function LiabilityDue(b: Book, cutoff: int, input: CloseInput): Liability
    requires Incepted(b, input.snapshot).Ok?
  {
    var incepted := Incepted(b, input.snapshot).value;
    var from := if incepted.inception.Some? then incepted.inception.value.at else input.snapshot.created;
    LiabilityAhead(AddCycle(incepted, Cycle(cutoff, Open, 0)), |b.cycles|, from, input)
  }

  function NavOf(l: Liability): int {
    l.grossAssets - l.deductions
  }

  // ---------------------------------------------------------------- marking the reserves

  lemma {:induction false} OneMoreReserveMark(marks: seq<ReserveMark>, m: ReserveMark, cycle: nat)
    ensures MarkedReserve(marks + [m], cycle)
         == MarkedReserve(marks, cycle) + (if m.cycle == cycle then m.amount else 0)
  {
    Snoc(marks, m);
  }

  ghost predicate OnlyMarked(marks: seq<ReserveMark>, cycle: nat, rows: seq<nat>) {
    forall k :: 0 <= k < |marks| && marks[k].cycle == cycle ==> marks[k].request in rows
  }

  function HeldWorth(reserves: seq<Reserve>, r: nat, nav: int, supply: int): int {
    var held := ReserveOf(reserves, r);
    if held.None? || supply <= 0 then 0 else reserves[held.value].shares * nav / supply
  }

  lemma {:induction false} MarkAdds(b: Book, c: nat, cp: Checkpoint, r: nat, init: seq<nat>)
    requires OnlyMarked(b.reserveMarks, c, init) && r !in init && 0 < cp.supply
    ensures var after := MarkReserve(b, c, c, cp, r);
            && MarkedReserve(after.reserveMarks, c)
               == MarkedReserve(b.reserveMarks, c) + HeldWorth(b.reserves, r, cp.nav, cp.supply)
            && OnlyMarked(after.reserveMarks, c, init + [r]) && after.reserves == b.reserves
  {
    MarkMissing(b.reserveMarks, c, r);
    var held := ReserveOf(b.reserves, r);
    if held.Some? {
      var shares := b.reserves[held.value].shares;
      OneMoreReserveMark(b.reserveMarks, ReserveMark(c, c, r, shares, shares * cp.nav / cp.supply, Next(b)), c);
    }
  }

  /** Marking adds up to the demand, when the cycle has no marks yet. */
  lemma {:induction false} MarksAreDemand(v: Book, c: nat, cp: Checkpoint, rows: seq<nat>)
    requires NoMarksAt(v.reserveMarks, c) && Distinct(rows) && 0 < cp.supply
    ensures var after := MarkReserves(v, c, c, cp, rows);
            && MarkedReserve(after.reserveMarks, c) == Demand(v.reserves, rows, cp.nav, cp.supply)
            && OnlyMarked(after.reserveMarks, c, rows) && after.reserves == v.reserves
  {
    hide HeldWorth, MarkReserve;
    if rows == [] {
      NoReserveYet(v.reserveMarks, c);
    } else {
      var init, r := rows[..|rows| - 1], rows[|rows| - 1];
      assert forall k :: 0 <= k < |init| ==> init[k] == rows[k];
      hide OnlyMarked, NoMarksAt, MarkedReserve;
      MarksAreDemand(v, c, cp, init);
      MarkAdds(MarkReserves(v, c, c, cp, init), c, cp, r, init);
      assert rows == init + [r];
    }
  }

  lemma {:induction false} NoReserveYet(marks: seq<ReserveMark>, c: nat)
    requires NoMarksAt(marks, c)
    ensures MarkedReserve(marks, c) == 0
  {
    if marks != [] {
      NoReserveYet(marks[..|marks| - 1], c);
    }
  }

  lemma {:induction false} ReservedDistinct(b: Book, at: int)
    ensures Distinct(ReservedThen(b, at))
  {
    SelectOrdered(|b.requests|, (r: nat) => ReserveOf(b.reserves, r).Some? && StatusAt(b.history, r, at).Some?
                                            && Reserved(StatusAt(b.history, r, at).value));
  }

  /** The reserve and collateral guards fire exactly on the demand of what was reserved at the snapshot. */
  lemma {:induction false} ReserveOutcome(v: Book, c: nat, cp: Checkpoint, l: Liability, at: int)
    requires NoMarksAt(v.reserveMarks, c) && 0 <= cp.supply && l.marked == l.gross && cp.nav == cp.gross - l.deductions
    requires 0 <= cp.nav
    ensures var rows, r := ReservedThen(v, at), MarkActiveReserves(v, c, c, cp, at);
            && (r == Err(RedemptionSupplyMissing) <==> rows != [] && cp.supply == 0)
            && (r.Err? ==> r.error == RedemptionSupplyMissing)
            && (r.Ok? ==>
                  var q := MarkLiquidity(r.value, c, c, cp, l);
                  && (q == Err(CollateralShortfall) <==> cp.nav < Demand(v.reserves, rows, cp.nav, cp.supply))
                  && (q.Err? ==> q.error == CollateralShortfall))
  {
    var rows := ReservedThen(v, at);
    ReservedDistinct(v, at);
    hide ReservedRequests, MarkReserves, MarkedReserve;
    if rows == [] {
      NoReserveYet(v.reserveMarks, c);
    } else if 0 < cp.supply {
      MarksAreDemand(v, c, cp, rows);
    }
  }

  // ---------------------------------------------------------------- one cycle

  /** Up to the checkpoint a cycle values the liability that was to be expected. */
  lemma {:induction false} ValuedAsExpected(begun: Book, cycle: nat, from: int, input: CloseInput, now: int)
      returns (marked: Book)
    requires Linked(begun) && Sound(begun, now) && DistinctTickets(input.tickets)
    ensures var at := input.snapshot.created;
            var open := OpenTickets(input.tickets, at);
            && CheckpointCycle(begun, cycle, from, input, GrossMarks(open, at))
               == ValueCycle(marked, cycle, input, open)
            && Marking(begun, marked) && LiabilityNow(marked, cycle, input, open)
                                         == LiabilityAhead(begun, cycle, from, input)
            && Linked(marked) && Sound(marked, now)
  {
    hide Linked, Sound, Recognize, OpenTickets, MarksCover, MarkFor, GrossMarks, ValueCycle, DistinctTickets, FeesAt,
         PendingTotal, MaturedTotal, GrossPayout;
    var at := input.snapshot.created;
    var open := OpenTickets(input.tickets, at);
    OpenAmong(input.tickets, at);
    GrossMarksCover(open, at);
    RecognizeSound(begun, cycle, input.tickets, from, at, now);
    var recognized := Recognize(begun, cycle, input.tickets, from, at);
    MarksNeverFail(recognized, cycle, open, GrossMarks(open, at), at);
    marked := MarkTickets(recognized, cycle, open, GrossMarks(open, at), at).value;
    MarkTicketsSound(recognized, cycle, open, GrossMarks(open, at), at, now);
    VaultStepLinks.TicketsLinked(recognized, cycle, open, GrossMarks(open, at), at);
  }

  /** How a cycle ends, by the value, the dust and the reserves that its snapshot finds. */
  ghost predicate EndsBy(r: Result<Book, VaultSteps.Fault>, nav: int, supply: int, dust: int, rows: seq<nat>,
                         demand: int, due: Result<map<nat, nat>, VaultSteps.Fault>)
  {
    if nav < 0 then r == Err(NavNegative)
    else if supply == 0 && nav != 0 then r == Err(PositiveNavWithoutShares)
    else if dust != 0 then r == Err(LiabilityMarkMismatch)
    else if supply == 0 && rows != [] then r == Err(RedemptionSupplyMissing)
    else if nav < demand then r == Err(CollateralShortfall)
    else if due.Err? then r == Err(due.error) && VaultActivating.ActivationFault(due.error)
    else r.Ok?
  }

  /** The shares that the deposits would be given; the first close has the founder's seed among them. */
  ghost function SharesDue(b: Book, cutoff: int, input: CloseInput, nav: int): Result<map<nat, nat>, VaultSteps.Fault>
    requires Incepted(b, input.snapshot).Ok?
  {
    VaultActivating.MintDue(Incepted(b, input.snapshot).value.deposits, cutoff, nav, Supply(b.shareEvents))
  }

  /** Settling fails on the reserves or the collateral, exactly as the demand decides, or goes through. */
  lemma {:induction false} SettlesBy(b: Book, v: Book, cutoff: int, at: int, now: int)
    requires AtCheckpoint(b, v, cutoff) && Linked(v) && Sound(v, now)
    requires 0 <= v.checkpoints[|b.closings|].nav
    ensures var c := |b.closings|;
            var cp, rows := v.checkpoints[c], ReservedThen(b, at);
            var settled := SettleCycle(v, c, c, cp, v.liabilities[c], at, now);
            if cp.supply == 0 && rows != [] then settled == Err(RedemptionSupplyMissing)
            else if cp.nav < Demand(b.reserves, rows, cp.nav, cp.supply) then settled == Err(CollateralShortfall)
            else settled.Ok?
  {
    var c := |b.closings|;
    CheckpointOf(v, c, now);
    UnusedMarks(v, c);
    hide Linked, Sound, Unused, NoMarksAt, MarkActiveReserves, MarkLiquidity, FinalizeMatured, ReservedRequests,
         Demand, VaultPaying.PaidUp, VaultPaying.PaidExactly, VaultPaying.PaidInOrder, Collateralized, SettledFrom;
    ReserveOutcome(v, c, v.checkpoints[c], v.liabilities[c], at);
    var r := MarkActiveReserves(v, c, c, v.checkpoints[c], at);
    if r.Ok? && MarkLiquidity(r.value, c, c, v.checkpoints[c], v.liabilities[c]).Ok? {
      var w := SettleStage(b, v, cutoff, at, now);
    }
  }

  /** From the checkpoint to the closing state. */
  ghost function Finish(v: Book, c: nat, cutoff: int, at: int, now: int): Result<Book, VaultSteps.Fault>
    requires c < |v.checkpoints| && c < |v.liabilities|
  {
    var cp := v.checkpoints[c];
    match SettleCycle(v, c, c, cp, v.liabilities[c], at, now)
    case Err(fault) => Err(fault)
    case Ok(settled) =>
      match ActivateDeposits(settled, cutoff, c, cp)
      case Err(fault) => Err(fault)
      case Ok(active) => CloseBooks(active, c, c, cp, now)
  }

  lemma {:induction false} FinishesBy(b: Book, v: Book, cutoff: int, at: int, now: int)
    requires Started(b, cutoff, now) && AtCheckpoint(b, v, cutoff) && Linked(v) && Sound(v, now)
    requires var cp := v.checkpoints[|b.closings|]; 0 <= cp.nav && (cp.supply == 0 ==> cp.nav == 0)
    ensures var c := |b.closings|;
            var cp, rows := v.checkpoints[c], ReservedThen(b, at);
            EndsBy(Finish(v, c, cutoff, at, now), cp.nav, cp.supply, 0, rows,
                   Demand(b.reserves, rows, cp.nav, cp.supply),
                   VaultActivating.MintDue(v.deposits, cutoff, cp.nav, cp.supply))
  {
    hide Linked, Sound, Started, Unused, SettleCycle, ActivateDeposits, CloseBooks, ReservedRequests, Demand, Fresh,
         VaultActivating.ActivationFault, VaultActivating.MintDue;
    SettlesBy(b, v, cutoff, at, now);
    SettlementFaults(b, v, cutoff, at, now);
    var c := |b.closings|;
    var settled := SettleCycle(v, c, c, v.checkpoints[c], v.liabilities[c], at, now);
    if settled.Ok? {
      SettledDeposits(b, v, cutoff, at, now);
      VaultActivating.ActivatesBy(settled.value, cutoff, c, v.checkpoints[c]);
    }
  }

  lemma {:induction false} SettledDeposits(b: Book, v: Book, cutoff: int, at: int, now: int)
    requires AtCheckpoint(b, v, cutoff) && Linked(v) && Sound(v, now)
    requires 0 <= v.checkpoints[|b.closings|].nav
    requires var c := |b.closings|; SettleCycle(v, c, c, v.checkpoints[c], v.liabilities[c], at, now).Ok?
    ensures var c := |b.closings|;
            SettleCycle(v, c, c, v.checkpoints[c], v.liabilities[c], at, now).value.deposits == v.deposits
  {
    hide Linked, Sound, Unused, SettleCycle, MarkActiveReserves, MarkLiquidity, VaultPaying.PaidUp,
         VaultPaying.PaidExactly, VaultPaying.PaidInOrder, Collateralized;
    SettledThrough(v, |b.closings|, at, now);
    var w := SettleStage(b, v, cutoff, at, now);
  }

  lemma {:induction false} UnusedMarks(v: Book, c: nat)
    requires Unused(v, c)
    ensures c < |v.checkpoints| && NoMarksAt(v.reserveMarks, c)
  {
  }

  lemma {:induction false} CycleEndsBy(b: Book, begun: Book, cutoff: int, from: int, input: CloseInput, now: int)
    requires Started(b, cutoff, now) && Opening(b, begun, cutoff) && Linked(begun) && Sound(begun, now)
    requires SourceAccepted(input, cutoff) && RecoveryAccepted(input, cutoff)
    requires input.financialVersion == input.snapshot.bookVersion && DistinctTickets(input.tickets)
    ensures var at := input.snapshot.created;
            var r := CloseOpenCycle(begun, |b.cycles|, cutoff, from, input,
                                    GrossMarks(OpenTickets(input.tickets, at), at), now);
            var nav, supply := NavOf(LiabilityAhead(begun, |b.cycles|, from, input)), Supply(b.shareEvents);
            var rows := ReservedThen(b, at);
            EndsBy(r, nav, supply, DustBy(b.closings, at), rows, Demand(b.reserves, rows, nav, supply),
                   VaultActivating.MintDue(begun.deposits, cutoff, nav, supply))
  {
    hide Consistent, Linked, Sound, Started, CheckpointCycle, VaultActivating.MintDue, SettleCycle, ActivateDeposits,
         CloseBooks, Unused, Fresh, SourceAccepted, RecoveryAccepted, GrossMarks, OpenTickets, DistinctTickets,
         LiabilityAhead, LiabilityNow, ReservedRequests, Demand, ValueCycle, VaultActivating.ActivationFault;
    var at := input.snapshot.created;
    var open := OpenTickets(input.tickets, at);
    var marks := GrossMarks(open, at);
    var marked := ValuedAsExpected(begun, |b.cycles|, from, input, now);
    assert marked.deposits == begun.deposits;
    ValueCycleOutcome(marked, |b.cycles|, input, open);
    if ValueCycle(marked, |b.cycles|, input, open).Ok? {
      CheckpointStage(b, begun, cutoff, from, input, marks, now);
      var v := CheckpointCycle(begun, |b.cycles|, from, input, marks).value;
      StartedSizes(b, cutoff, now);
      assert v.deposits == marked.deposits;
      FinishesBy(b, v, cutoff, at, now);
    }
  }

  // ---------------------------------------------------------------- the whole close

  /**
   How a due close ends, in the order of its guards: by the inception's seed and age, by the value that the snapshot
   leaves, by the dust that closes had withheld by the snapshot, by the reserves that the history held then, and only
   then by deposits too small for the price. It goes through exactly when none of these stands against it.
   */
  lemma {:induction false} CloseEndsBy(b: Book, tick: Positive, input: CloseInput)
    requires Consistent(b) && DistinctTickets(input.tickets)
    ensures var r, now := CloseDue(b, tick, input), b.clock + tick;
            var cutoff := DueCutoff(b, now);
            if !Due(b, input, cutoff, now) then r == Err(NotDue)
            else if b.inception.None? && Seed(input.snapshot) < 0 then r == Err(InceptionSeedNegative)
            else if b.inception.None? && SOURCE_MAX_AGE_MS < input.snapshot.created - input.snapshot.observed
            then r == Err(InceptionMismatch)
            else
              var nav, supply := NavOf(LiabilityDue(b, cutoff, input)), Supply(b.shareEvents);
              var at := input.snapshot.created;
              var rows := ReservedThen(b, at);
              EndsBy(r, nav, supply, DustBy(b.closings, at), rows, Demand(b.reserves, rows, nav, supply),
                     SharesDue(b, cutoff, input, nav))
  {
    hide VaultActivating.MintDue, Linked, Sound, Started, Consistent, CloseCycle, CloseOpenCycle, Incepted, Opening,
         Due, DistinctTickets, ReservedRequests, Demand, LiabilityAhead, NavOf, VaultActivating.ActivationFault;
    var now := b.clock + tick;
    var cutoff := DueCutoff(b, now);
    if Due(b, input, cutoff, now) {
      InceptionFault(b, input.snapshot);
      if Incepted(b, input.snapshot).Ok? {
        DueStarts(b, tick);
        StartedSizes(b, cutoff, now);
        SoundLater(b, now);
        DueIsAccepted(b, input, cutoff, now);
        var incepted := Incepted(b, input.snapshot).value;
        CycleOpens(b, incepted, input.snapshot, cutoff, now);
        var recovery := if OnTime(input.snapshot, cutoff) then None else UsableRecovery(input, cutoff);
        var from := if incepted.inception.Some? then incepted.inception.value.at else input.snapshot.created;
        var used := input.(recovery := recovery);
        DueIsObserved(b, input, cutoff, now);
        OpenedCycleCloses(incepted, cutoff, from, used,
                          GrossMarks(OpenTickets(input.tickets, input.snapshot.created), input.snapshot.created), now);
        CycleEndsBy(b, AddCycle(incepted, Cycle(cutoff, Open, 0)), cutoff, from, used, now);
        SameLiability(AddCycle(incepted, Cycle(cutoff, Open, 0)), |b.cycles|, from, input, recovery);
      }
    }
  }

  lemma {:induction false} SameLiability(begun: Book, cycle: nat, from: int, input: CloseInput,
                                         recovery: Option<Snapshot>)
    ensures LiabilityAhead(begun, cycle, from, input.(recovery := recovery))
         == LiabilityAhead(begun, cycle, from, input)
  {
  }

  // ---------------------------------------------------------------- an empty vault

  /** What the due close would record moves on from the last close by exactly the drift. */
  lemma {:induction false} DueContinues(b: Book, tick: Positive, input: CloseInput)
    requires Consistent(b) && b.closings != []
    ensures Incepted(b, input.snapshot) == Ok(b) && |b.liabilities| == |b.closings|
    ensures var l, last := LiabilityDue(b, DueCutoff(b, b.clock + tick), input), b.closings[|b.closings| - 1];
            var before := b.liabilities[|b.closings| - 1];
            && NavOf(l) == last.nav + last.dust
                           + VaultContinuity.Drift(before, l, DepositedSince(b.deposits, last.event))
            && Supply(b.shareEvents) == last.supply
  {
    hide Consistent, Linked, Sound, Recognize, OpenTickets, LiabilityNow, VaultContinuity.Drift, Started;
    var now := b.clock + tick;
    var cutoff := DueCutoff(b, now);
    VaultContinuity.LastClose(b);
    DueStarts(b, tick);
    StartedSizes(b, cutoff, now);
    SoundLater(b, now);
    CycleOpens(b, b, input.snapshot, cutoff, now);
    var begun := AddCycle(b, Cycle(cutoff, Open, 0));
    var at, from := input.snapshot.created, b.inception.value.at;
    RecognizeSound(begun, |b.cycles|, input.tickets, from, at, now);
    VaultContinuity.NextCheckpoint(b, begun, Recognize(begun, |b.cycles|, input.tickets, from, at), cutoff, input,
                                   OpenTickets(input.tickets, at));
  }

  /**
   After a burn of the whole supply, a due close with nothing changed outside is refused exactly when that burn left
   dust: the dust is value without shares.
   */
  lemma {:induction false} DustBlocksAnEmptyVault(b: Book, tick: Positive, input: CloseInput)
    requires Consistent(b) && b.closings != [] && b.closings[|b.closings| - 1].supply == 0
    requires Due(b, input, DueCutoff(b, b.clock + tick), b.clock + tick) && DistinctTickets(input.tickets)
    ensures Incepted(b, input.snapshot).Ok? && |b.liabilities| == |b.closings|
    ensures var last, before := b.closings[|b.closings| - 1], b.liabilities[|b.closings| - 1];
            var l := LiabilityDue(b, DueCutoff(b, b.clock + tick), input);
            VaultContinuity.Drift(before, l, DepositedSince(b.deposits, last.event)) == 0 ==>
              (CloseDue(b, tick, input) == Err(PositiveNavWithoutShares) <==> 0 < last.dust)
  {
    hide Consistent, CloseDue, Due, Incepted, LiabilityDue, NavOf, VaultContinuity.Drift, DistinctTickets,
         ReservedRequests, Demand, Supply, SharesDue;
    VaultContinuity.LastClose(b);
    hide SinceClose;
    DueContinues(b, tick, input);
    CloseEndsBy(b, tick, input);
  }
}
