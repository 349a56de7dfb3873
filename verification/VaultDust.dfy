/** What withheld dust does to a later close. */
module VaultDust {
  import opened Common
  import opened VaultTables
  import opened VaultInvariant
  import opened VaultSteps
  import opened VaultConsistency
  import opened VaultMarking
  import opened VaultCycle
  import VaultReplay
  import VaultRows

  lemma {:induction false} FeesLeaveClosings(b: Book, due: seq<Ticket>)
    ensures AccrueFees(b, due).closings == b.closings
  {
    if due != [] {
      FeesLeaveClosings(b, due[..|due| - 1]);
    }
  }

  lemma {:induction false} SettlementsLeaveClosings(b: Book, cycle: nat, due: seq<Ticket>)
    requires Settled(due)
    ensures RecognizeSettlements(b, cycle, due).closings == b.closings
  {
    if due != [] {
      SettlementsLeaveClosings(b, cycle, due[..|due| - 1]);
    }
  }

  lemma {:induction false} MarksLeaveClosings(b: Book, cycle: nat, open: seq<Ticket>, marks: seq<MarkWrite>, at: int)
    ensures var r := MarkTickets(b, cycle, open, marks, at);
            r.Ok? ==> r.value.closings == b.closings
  {
    if open != [] {
      MarksLeaveClosings(b, cycle, open[..|open| - 1], marks, at);
    }
  }

  /** A close only goes through when no dust had been withheld by its snapshot. */
  lemma {:induction false} ClosesWithoutDust(b: Book, tick: Positive, input: CloseInput)
    requires Consistent(b) && CloseDue(b, tick, input).Ok?
    ensures DustBy(b.closings, input.snapshot.created) == 0
  {
    hide Consistent, CloseDue, Staged, Ended, ValueCycle, MarkTickets, AccrueFees, RecognizeSettlements, OpenTickets,
         MarksCover, GrossMarks, FeesDue, SettlementsDue, UsableRecovery, OnTime;
    var s := CloseDueStages(b, tick, input);
    var at := input.snapshot.created;
    var incepted := Incepted(b, input.snapshot).value;
    var from := if incepted.inception.Some? then incepted.inception.value.at else at;
    var begun, c := VaultRows.AddCycle(incepted, Cycle(s.cutoff, Open, 0)), |incepted.cycles|;
    var open := OpenTickets(input.tickets, at);
    FeesLeaveClosings(begun, FeesDue(begun.fees, input.tickets, from, at));
    var accrued := AccrueFees(begun, FeesDue(begun.fees, input.tickets, from, at));
    SettlementsLeaveClosings(accrued, c, SettlementsDue(begun.recognitions, input.tickets, from, at));
    var recognized := Recognize(begun, c, input.tickets, from, at);
    MarksLeaveClosings(recognized, c, open, GrossMarks(open, at), at);
    var marked := MarkTickets(recognized, c, open, GrossMarks(open, at), at).value;
    ValueCycleOutcome(marked, c, input.(recovery := if OnTime(input.snapshot, s.cutoff) then None
                                                     else UsableRecovery(input, s.cutoff)), open);
  }

  lemma {:induction false} DustAddsUp(closings: seq<Closing>, at: int, i: nat)
    requires forall k :: 0 <= k < |closings| ==> 0 <= closings[k].dust
    ensures 0 <= DustBy(closings, at)
    ensures i < |closings| && closings[i].at <= at ==> closings[i].dust <= DustBy(closings, at)
  {
    if closings != [] {
      DustAddsUp(closings[..|closings| - 1], at, i);
    }
  }

  lemma {:induction false} DustSigns(b: Book)
    requires Consistent(b)
    ensures forall k :: 0 <= k < |b.closings| ==> 0 <= b.closings[k].dust
  {
    hide VaultReplay.Linked, Sound, SinceClose, Aligned;
    forall k | 0 <= k < |b.closings|
      ensures 0 <= b.closings[k].dust
    {
      assert ClosingSound(b.closings[k], b.checkpoints[k], k);
    }
  }

  /** After a close that withheld dust, no close on a snapshot taken since goes through. */
  lemma {:induction false} DustRefusesCloses(b: Book, tick: Positive, input: CloseInput, i: nat)
    requires Consistent(b) && i < |b.closings| && 0 < b.closings[i].dust
    requires b.closings[i].at <= input.snapshot.created
    ensures CloseDue(b, tick, input).Err?
  {
    hide Consistent, CloseDue;
    DustSigns(b);
    DustAddsUp(b.closings, input.snapshot.created, i);
    if CloseDue(b, tick, input).Ok? {
      ClosesWithoutDust(b, tick, input);
    }
  }
}
