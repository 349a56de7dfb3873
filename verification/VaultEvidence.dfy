/** What closed cycles leave in evidence: marks that add up to the gross liability, deposits still pending. */
module VaultEvidence {
  import opened Common
  import opened VaultTables
  import opened VaultRows
  import opened VaultReplay
  import opened VaultInvariant
  import opened VaultSteps
  import opened VaultConsistency
  import opened VaultMarking
  import opened VaultClosing
  import opened VaultPaying
  import opened VaultClose
  import opened VaultCycle
  import VaultRuns


  /** The gross payouts that a cycle's ticket marks fall back to. */
  function FallbackOf(marks: seq<TicketMark>, cycle: nat): int {
    if marks == [] then 0
    else
      var last := marks[|marks| - 1];
      FallbackOf(marks[..|marks| - 1], cycle) + (if last.cycle == cycle then last.gross else 0)
  }

  /** Each cycle's marks add up to the gross liability that it recorded. */
  ghost predicate MarksAddUp(marks: seq<TicketMark>, liabilities: seq<Liability>) {
    && (forall c: nat :: FallbackOf(marks, c) == if c < |liabilities| then liabilities[c].gross else 0)
    && (forall c :: 0 <= c < |liabilities| ==> 0 <= liabilities[c].gross)
  }

  /** Whatever was deposited since the last close is still pending. */
  ghost predicate LaterPending(closings: seq<Closing>, deposits: seq<Deposit>) {
    closings != [] ==>
      var event := closings[|closings| - 1].event;
      0 < event && DepositedSince(deposits, event) <= PendingTotal(deposits)
  }

  ghost predicate Evidenced(b: Book) {
    MarksAddUp(b.ticketMarks, b.liabilities) && LaterPending(b.closings, b.deposits)
  }

  // ---------------------------------------------------------------- steps between closes

  lemma {:induction false} DepositEvidenced(b: Book, tick: Positive, user: nat, amount: int, source: string,
                                            key: string)
    requires Evidenced(b) && RecordDeposit(b, tick, user, amount, source, key).Ok?
    ensures Evidenced(RecordDeposit(b, tick, user, amount, source, key).value)
  {
    DepositOutcome(b, tick, user, amount, source, key);
    hide RecordDeposit, MarksAddUp;
    var d := Deposit(user, amount, DayOf(b.clock + tick) + 1, source, Pending, 0).(event := Next(b));
    if 0 < amount && b.closings != [] {
      OneMoreDeposit(b.deposits, d, b.closings[|b.closings| - 1].event);
    }
  }

  lemma {:induction false} RequestEvidenced(b: Book, tick: Positive, user: nat, shares: int, key: string)
    requires Evidenced(b) && RequestRedemption(b, tick, user, shares, key).Ok?
    ensures Evidenced(RequestRedemption(b, tick, user, shares, key).value)
  {
    hide MarksAddUp, LaterPending;
  }

  lemma {:induction false} AdmitEvidenced(b: Book, tick: Positive, reconciliation: nat, capacity: Option<Capacity>)
    requires Evidenced(b) && AdmitNext(b, tick, reconciliation, capacity).Ok?
    ensures Evidenced(AdmitNext(b, tick, reconciliation, capacity).value)
  {
    hide MarksAddUp, LaterPending;
  }

  // ---------------------------------------------------------------- the close

  lemma {:induction false} MarkedTickets(b: Book, cycle: nat, open: seq<Ticket>, marks: seq<MarkWrite>, at: int, c: nat)
    requires MarkTickets(b, cycle, open, marks, at).Ok?
    ensures var after := MarkTickets(b, cycle, open, marks, at).value;
            && FallbackOf(after.ticketMarks, c)
               == FallbackOf(b.ticketMarks, c) + (if c == cycle then GrossPayout(open) else 0)
            && after.liabilities == b.liabilities
  {
    if open != [] {
      var init, t := open[..|open| - 1], open[|open| - 1];
      MarkedTickets(b, cycle, init, marks, at, c);
      var before := MarkTickets(b, cycle, init, marks, at).value;
      Snoc(before.ticketMarks, TicketMark(cycle, t.id, t.stake, t.payout, t.payout, 0).(event := Next(before)));
    }
  }

  lemma {:induction false} FeesApart(b: Book, due: seq<Ticket>)
    ensures var after := AccrueFees(b, due);
            after.ticketMarks == b.ticketMarks && after.liabilities == b.liabilities
  {
    if due != [] {
      FeesApart(b, due[..|due| - 1]);
    }
  }

  lemma {:induction false} SettlementsApart(b: Book, cycle: nat, due: seq<Ticket>)
    requires Settled(due)
    ensures var after := RecognizeSettlements(b, cycle, due);
            after.ticketMarks == b.ticketMarks && after.liabilities == b.liabilities
  {
    if due != [] {
      SettlementsApart(b, cycle, due[..|due| - 1]);
    }
  }

  lemma {:induction false} RecognizedApart(b: Book, cycle: nat, tickets: seq<Ticket>, from: int, through: int)
    ensures var after := Recognize(b, cycle, tickets, from, through);
            after.ticketMarks == b.ticketMarks && after.liabilities == b.liabilities
  {
    hide FeesDue, SettlementsDue, AccrueFees, RecognizeSettlements;
    FeesApart(b, FeesDue(b.fees, tickets, from, through));
    SettlementsApart(AccrueFees(b, FeesDue(b.fees, tickets, from, through)), cycle,
                     SettlementsDue(b.recognitions, tickets, from, through));
  }

  lemma {:induction false} ValuedMarks(b: Book, cycle: nat, from: int, input: CloseInput, marks: seq<MarkWrite>, c: nat)
    requires CheckpointCycle(b, cycle, from, input, marks).Ok?
    ensures var v, gross := CheckpointCycle(b, cycle, from, input, marks).value,
                            GrossPayout(OpenTickets(input.tickets, input.snapshot.created));
            && FallbackOf(v.ticketMarks, c) == FallbackOf(b.ticketMarks, c) + (if c == cycle then gross else 0)
            && |v.liabilities| == |b.liabilities| + 1 && v.liabilities[|b.liabilities|].gross == gross
  {
    hide Recognize, MarkTickets, OpenTickets, MarksCover, FallbackOf, GrossPayout;
    var at := input.snapshot.created;
    RecognizedApart(b, cycle, input.tickets, from, at);
    MarkedTickets(Recognize(b, cycle, input.tickets, from, at), cycle, OpenTickets(input.tickets, at), marks, at, c);
  }

  lemma {:induction false} InceptedApart(b: Book, snapshot: Snapshot)
    requires Incepted(b, snapshot).Ok?
    ensures var after := Incepted(b, snapshot).value;
            && after.ticketMarks == b.ticketMarks && after.liabilities == b.liabilities
            && |after.cycles| == |b.cycles|
  {
  }

  lemma {:induction false} CloseMarks(b: Book, cutoff: int, input: CloseInput, c: nat)
    requires ValuedFrom(b, cutoff, input).Ok?
    ensures var v, gross := ValuedFrom(b, cutoff, input).value,
                            GrossPayout(OpenTickets(input.tickets, input.snapshot.created));
            && FallbackOf(v.ticketMarks, c) == FallbackOf(b.ticketMarks, c) + (if c == |b.cycles| then gross else 0)
            && |v.liabilities| == |b.liabilities| + 1 && v.liabilities[|b.liabilities|].gross == gross
  {
    hide CheckpointCycle, Incepted, OpenTickets, FallbackOf, GrossPayout, GrossMarks, UsableRecovery, OnTime;
    InceptedApart(b, input.snapshot);
    var incepted := Incepted(b, input.snapshot).value;
    var recovery := if OnTime(input.snapshot, cutoff) then None else UsableRecovery(input, cutoff);
    var from := if incepted.inception.Some? then incepted.inception.value.at else input.snapshot.created;
    var at := input.snapshot.created;
    ValuedMarks(AddCycle(incepted, Cycle(cutoff, Open, 0)), |incepted.cycles|, from, input.(recovery := recovery),
                GrossMarks(OpenTickets(input.tickets, at), at), c);
  }

  lemma {:induction false} MoreMarks(before: seq<TicketMark>, after: seq<TicketMark>, liabilities: seq<Liability>,
                                     more: seq<Liability>, gross: nat)
    requires MarksAddUp(before, liabilities) && |more| == |liabilities| + 1 && more[..|liabilities|] == liabilities
    requires more[|liabilities|].gross == gross
    requires forall c: nat :: FallbackOf(after, c) == FallbackOf(before, c) + (if c == |liabilities| then gross else 0)
    ensures MarksAddUp(after, more)
  {
    assert forall c :: 0 <= c < |liabilities| ==> more[c] == more[..|liabilities|][c];
  }

  /** The last steps of a close leave marks and liabilities alone, and number its closing last. */
  lemma {:induction false} EndedApart(b: Book, at: int, s: Stages)
    requires Staged(b, at, s)
    ensures |b.closings| < |s.valued.checkpoints|
    ensures Ended(b, s).ticketMarks == s.valued.ticketMarks && Ended(b, s).liabilities == s.valued.liabilities
    ensures var after := Ended(b, s);
            after.closings != [] && 0 < after.closings[|after.closings| - 1].event == |after.events|
  {
    hide Linked, Sound, PaidUp, Collateralized, PaidExactly, MarkActiveReserves, MaturedRequests, Unused, ClosingNow;
  }

  lemma {:induction false} NothingLater(b: Book)
    requires Consistent(b) && b.closings != [] && 0 < b.closings[|b.closings| - 1].event == |b.events|
    ensures LaterPending(b.closings, b.deposits)
  {
    hide Linked, Aligned, ClosingsSound, SinceClose, DepositedSince;
    NothingDepositedYet(b, |b.events|);
    PendingSign(b.deposits, |b.checkpoints|);
  }

  lemma {:induction false} CloseEvidenced(b: Book, tick: Positive, input: CloseInput)
    requires Consistent(b) && Evidenced(b) && CloseDue(b, tick, input).Ok?
    ensures Evidenced(CloseDue(b, tick, input).value)
  {
    hide Consistent, CloseDue, Ended, Staged, ValuedFrom, MarksAddUp, LaterPending, OpenTickets, GrossPayout;
    var s := CloseDueStages(b, tick, input);
    EndedApart(b, input.snapshot.created, s);
    NothingLater(Ended(b, s));
    VaultRuns.Sizes(b);
    ValuedLiabilities(b, input.snapshot.created, s);
    var gross := GrossPayout(OpenTickets(input.tickets, input.snapshot.created));
    forall c: nat
      ensures FallbackOf(s.valued.ticketMarks, c)
           == FallbackOf(b.ticketMarks, c) + (if c == |b.liabilities| then gross else 0)
    {
      CloseMarks(b, s.cutoff, input, c);
    }
    CloseMarks(b, s.cutoff, input, 0);
    MoreMarks(b.ticketMarks, s.valued.ticketMarks, b.liabilities, s.valued.liabilities, gross);
  }

  lemma {:induction false} ValuedLiabilities(b: Book, at: int, s: Stages)
    requires Staged(b, at, s) && |b.closings| == |b.liabilities|
    ensures |s.valued.liabilities| == |b.liabilities| + 1 && s.valued.liabilities[..|b.liabilities|] == b.liabilities
  {
    hide Linked, Sound, PaidUp, Collateralized, PaidExactly, MarkActiveReserves, MaturedRequests, Unused, SettledFrom;
  }

  // ---------------------------------------------------------------- every run

  lemma {:induction false} StepEvidenced(b: Book, step: Step)
    requires Consistent(b) && Evidenced(b)
    ensures Evidenced(Apply(b, step))
  {
    hide Consistent, Evidenced, CloseDue, AdmitNext, RecordDeposit, RequestRedemption;
    if Attempt(b, step).Ok? {
      match step
      case DepositStep(tick, user, amount, source, key) => DepositEvidenced(b, tick, user, amount, source, key);
      case RequestStep(tick, user, shares, key) => RequestEvidenced(b, tick, user, shares, key);
      case AdmitStep(tick, reconciliation, capacity) => AdmitEvidenced(b, tick, reconciliation, capacity);
      case CloseStep(tick, input) => CloseEvidenced(b, tick, input);
    }
  }

  lemma {:induction false} EmptyIsEvidenced(vault: nat)
    ensures Evidenced(EmptyBook(vault))
  {
    assert FallbackOf([], 0) == 0;
  }

  /** After every run, each cycle's marks add up to its gross liability and later deposits are pending. */
  lemma {:induction false} RunEvidenced(vault: nat, steps: seq<Step>)
    ensures Evidenced(Run(vault, steps))
    decreases |steps|
  {
    hide Evidenced, Consistent, Apply;
    if steps == [] {
      EmptyIsEvidenced(vault);
    } else {
      var init := steps[..|steps| - 1];
      RunEvidenced(vault, init);
      VaultRuns.RunConsistent(vault, init);
      StepEvidenced(Run(vault, init), steps[|steps| - 1]);
    }
  }
}
