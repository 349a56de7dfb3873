/** The accounting that is published from the closed cycles of a vault's book. */
module VaultPublished {
  import opened Common
  import opened VaultTables
  import opened VaultReplay
  import opened VaultInvariant
  import opened VaultSteps
  import opened VaultConsistency
  import opened VaultEvidence
  import opened VaultClosing
  import opened VaultPaying
  import VaultCycle
  import VaultRuns
  import VaultReplayed
  import View = SolvencyView

  function MarkedTickets(marks: seq<TicketMark>, cycle: nat): nat {
    if marks == [] then 0
    else
      MarkedTickets(marks[..|marks| - 1], cycle) + (if marks[|marks| - 1].cycle == cycle then 1 else 0)
  }

  /**
   The latest closed cycle as it is loaded for publication. The observation time and block belong to the
   reconciliation that the cycle was closed on. No mark is ever reliable, so coverage is all or nothing.
   */
  function Loaded(b: Book, observed: int, block: nat): View.Accounting
    requires b.closings != [] && |b.closings| == |b.cycles| == |b.checkpoints| == |b.liabilities|
  {
    var c := |b.closings| - 1;
    var closing, cp, l := b.closings[c], b.checkpoints[c], b.liabilities[c];
    View.Accounting(b.vault, closing.event, block, b.cycles[c].cutoff, observed, closing.at, cp.gross, closing.nav,
                    closing.supply, l.pending - closing.activated, cp.estimatedPnl, cp.finalizedPnl, l.marked, l.gross,
                    FallbackOf(b.ticketMarks, c), if MarkedTickets(b.ticketMarks, c) == 0 then 10000 else 0)
  }

  lemma {:induction false} PublishableSizes(b: Book)
    requires Consistent(b)
    ensures |b.closings| == |b.cycles| == |b.checkpoints| == |b.liabilities|
  {
    hide Consistent;
    VaultRuns.Sizes(b);
  }

  lemma {:induction false} LastFigures(b: Book)
    requires Consistent(b) && b.closings != []
    ensures |b.closings| == |b.checkpoints| == |b.liabilities|
    ensures var c := |b.closings| - 1;
            && CheckpointSound(b.checkpoints[c], b.liabilities[c], c)
            && ClosingSound(b.closings[c], b.checkpoints[c], c)
            && PendingTotal(b.deposits) == b.liabilities[c].pending - b.closings[c].activated
                                           + DepositedSince(b.deposits, b.closings[c].event)
  {
    PublishableSizes(b);
    hide Linked, LotBook, QueueSound, MarksSound, PayablesSound, DepositsSound, FeesSound, HistorySound, BurnsMatched,
         Aligned;
  }

  /** What is loaded from a consistent book passes the server's own plausibility check. */
  lemma {:induction false} LoadedAccepted(b: Book, observed: int, block: nat)
    requires Consistent(b) && Evidenced(b) && b.closings != []
    ensures |b.closings| == |b.cycles| == |b.checkpoints| == |b.liabilities|
    ensures View.AccountingAccepted(Loaded(b, observed, block), b.vault)
    ensures Loaded(b, observed, block).fallback == Loaded(b, observed, block).marked == Loaded(b, observed, block).gross
  {
    PublishableSizes(b);
    LastFigures(b);
    hide Consistent;
    var c := |b.closings| - 1;
    assert FallbackOf(b.ticketMarks, c) == b.liabilities[c].gross;
  }

  lemma {:induction false} ClosedWhenDue(b: Book, tick: Positive, input: CloseInput)
    requires CloseDue(b, tick, input).Ok?
    ensures DueCutoff(b, b.clock + tick) * DAY_MS <= input.snapshot.observed <= b.clock + tick
  {
    hide CloseFrom, DueCutoff, UsableRecovery;
  }

  lemma {:induction false} EndedOn(b: Book, at: int, s: VaultCycle.Stages)
    requires VaultCycle.Staged(b, at, s) && |b.cycles| == |b.closings|
    ensures |b.closings| < |s.valued.checkpoints|
    ensures var after, c := VaultCycle.Ended(b, s), |b.closings|;
            && |after.closings| == |after.cycles| == c + 1
            && after.cycles[c].cutoff == s.cutoff && after.closings[c].at == s.now
  {
    hide Linked, Sound, PaidUp, PaidExactly, MarkActiveReserves, MaturedRequests, Unused, VaultCycle.Collateralized;
  }

  lemma {:induction false} ClosedOn(b: Book, tick: Positive, input: CloseInput)
    requires Consistent(b) && CloseDue(b, tick, input).Ok?
    ensures var after, c := CloseDue(b, tick, input).value, |b.closings|;
            && |after.closings| == |after.cycles| == c + 1
            && after.cycles[c].cutoff * DAY_MS <= input.snapshot.observed <= after.closings[c].at
  {
    hide Consistent, CloseDue, DueCutoff, Sound, VaultCycle.Staged, VaultCycle.Ended, VaultCycle.ValuedFrom;
    ClosedWhenDue(b, tick, input);
    var s := VaultCycle.CloseDueStages(b, tick, input);
    VaultRuns.Sizes(b);
    EndedOn(b, input.snapshot.created, s);
  }

  ghost function ObservedAfter(b: Book, step: Step, observed: Option<int>): Option<int> {
    if step.CloseStep? && CloseDue(b, step.tick, step.input).Ok? then Some(step.input.snapshot.observed) else observed
  }

  /** When the source of the latest close was observed. */
  ghost function ObservedBy(vault: nat, steps: seq<Step>): Option<int> {
    if steps == [] then None
    else
      var init, last := steps[..|steps| - 1], steps[|steps| - 1];
      ObservedAfter(Run(vault, init), last, ObservedBy(vault, init))
  }

  /** The latest close was observed on or after its day, and before it was processed. */
  ghost predicate InOrder(b: Book, observed: Option<int>) {
    b.closings != [] ==>
      && observed.Some? && |b.closings| == |b.cycles|
      && b.cycles[|b.cycles| - 1].cutoff * DAY_MS <= observed.value <= b.closings[|b.closings| - 1].at
  }

  lemma {:induction false} OtherSteps(b: Book, step: Step)
    requires step.CloseStep? ==> CloseDue(b, step.tick, step.input).Err?
    ensures Apply(b, step).closings == b.closings && Apply(b, step).cycles == b.cycles
  {
    hide CloseDue, Admission, Postponed;
    if !step.CloseStep? {
      OtherCycles(b, step);
      VaultReplayed.QuietStep(b, step);
    }
  }

  lemma {:induction false} OtherCycles(b: Book, step: Step)
    requires !step.CloseStep?
    ensures Apply(b, step).cycles == b.cycles
  {
    hide CloseDue, Balance, ReservedShares, FirstInQueue, FindRequest, HasOpenRequest, DayOf;
  }

  lemma {:induction false} ClosedBy(b: Book, tick: Positive, input: CloseInput)
    requires CloseDue(b, tick, input).Ok?
    ensures Apply(b, CloseStep(tick, input)) == CloseDue(b, tick, input).value
  {
    hide CloseDue;
  }

  lemma {:induction false} OrderKept(b: Book, step: Step, observed: Option<int>)
    requires Consistent(b) && InOrder(b, observed)
    ensures InOrder(Apply(b, step), ObservedAfter(b, step, observed))
  {
    hide Consistent, CloseDue, Apply;
    if step.CloseStep? && CloseDue(b, step.tick, step.input).Ok? {
      ClosedOn(b, step.tick, step.input);
      ClosedBy(b, step.tick, step.input);
    } else {
      OtherSteps(b, step);
    }
  }

  lemma {:induction false} ObservedInOrder(vault: nat, steps: seq<Step>)
    ensures InOrder(Run(vault, steps), ObservedBy(vault, steps))
    decreases |steps|
  {
    hide Consistent, Apply, ObservedAfter;
    if steps != [] {
      var init := steps[..|steps| - 1];
      hide InOrder;
      ObservedInOrder(vault, init);
      VaultRuns.RunConsistent(vault, init);
      OrderKept(Run(vault, init), steps[|steps| - 1], ObservedBy(vault, init));
    }
  }

  /** What a run publishes of its latest close. */
  ghost function PublishedBy(vault: nat, steps: seq<Step>, block: nat): View.Accounting
    requires Run(vault, steps).closings != []
  {
    VaultRuns.RunConsistent(vault, steps);
    PublishableSizes(Run(vault, steps));
    ObservedInOrder(vault, steps);
    Loaded(Run(vault, steps), ObservedBy(vault, steps).value, block)
  }

  lemma {:induction false} PublishedIsOrdered(vault: nat, steps: seq<Step>, block: nat)
    requires Run(vault, steps).closings != []
    ensures View.AccountingAccepted(PublishedBy(vault, steps, block), Run(vault, steps).vault)
    ensures View.WellOrdered(PublishedBy(vault, steps, block))
  {
    var b := Run(vault, steps);
    VaultRuns.RunConsistent(vault, steps);
    RunEvidenced(vault, steps);
    ObservedInOrder(vault, steps);
    hide Run, Consistent, Evidenced, ObservedBy;
    PublishableSizes(b);
    LoadedAccepted(b, ObservedBy(vault, steps).value, block);
  }

  /** In every run, the published accounting is plausible to the server and as the client recomputes it. */
  lemma {:induction false} PublishedIsAccepted(vault: nat, steps: seq<Step>, block: nat)
    requires Run(vault, steps).closings != []
    ensures var a := PublishedBy(vault, steps, block);
            View.AccountingAccepted(a, Run(vault, steps).vault) && View.IsAccounting(View.PublicOf(a))
  {
    PublishedIsOrdered(vault, steps, block);
    hide Run, PublishedBy, View.AccountingAccepted, View.IsAccounting, View.WellOrdered, View.PublicOf;
    View.AccountingRecomputed(PublishedBy(vault, steps, block), Run(vault, steps).vault);
  }

  /**
   Whatever the server derives from any run and any reconciliation: an available view carries accounting that the
   client accepts, and whether it accepts the snapshot is decided by which figures of the reconciliation survive being
   sent as doubles.
   */
  lemma {:induction false} EveryViewPasses(vault: nat, steps: seq<Step>, block: nat, configured: View.Vault,
                                           reconciliation: Option<View.Reconciliation>, control: Option<View.Gate>,
                                           now: int)
    requires Run(vault, steps).closings != []
    ensures var view := View.DeriveView(Some(configured), reconciliation, Some(PublishedBy(vault, steps, block)),
                                        control, now);
            view.Available? ==>
              && View.IsAccounting(view.accounting) && reconciliation.Some?
              && View.PassesBy(view.snapshot, reconciliation.value)
  {
    PublishedIsOrdered(vault, steps, block);
    hide Run, PublishedBy, View.AccountingAccepted, View.IsAccounting, View.WellOrdered, View.IsSnapshot,
         View.DeriveView, View.PassesBy;
    var a := PublishedBy(vault, steps, block);
    if View.DeriveView(Some(configured), reconciliation, Some(a), control, now).Available? {
      View.AvailableViewPasses(Some(configured), reconciliation, Some(a), control, now);
    }
  }
}
