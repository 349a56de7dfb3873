/** After every run the replay accepts the log, and only a close can change what it reports. */
module VaultReplayed {
  import opened Common
  import opened VaultTables
  import opened VaultReplay
  import opened VaultInvariant
  import opened VaultSteps
  import opened VaultConsistency
  import opened VaultAudit
  import VaultClose
  import VaultRuns

  /** What the tables say the replay should report. */
  function ReportOf(b: Book): Report
    requires b.closings != [] && b.closings[|b.closings| - 1].checkpoint < |b.checkpoints|
  {
    var last := b.closings[|b.closings| - 1];
    var gross := b.checkpoints[last.checkpoint].gross;
    Report(|b.events|, last.event, |b.events| - last.event, |b.checkpoints|, |b.shareEvents|, Minted(b.shareEvents),
           Burned(b.shareEvents), Supply(b.shareEvents), last.supply, last.nav, gross, gross - last.nav)
  }

  lemma {:induction false} AllClosed(cycles: seq<Cycle>)
    requires forall i :: 0 <= i < |cycles| ==> cycles[i].status == Closed
    ensures ClosedCycles(cycles) == |cycles|
  {
    if cycles != [] {
      AllClosed(cycles[..|cycles| - 1]);
    }
  }

  lemma {:induction false} ClosingMatches(b: Book, i: nat)
    requires i < |b.closings| == |b.checkpoints| == |b.liabilities|
    requires ClosingSound(b.closings[i], b.checkpoints[i], i) && CheckpointSound(b.checkpoints[i], b.liabilities[i], i)
    ensures ClosingProjected(b, FromTables(b), i)
  {
    hide Minted, Burned, Supply;
    assert i in CheckpointRows(b.checkpoints);
  }

  lemma {:induction false} ClosingsMatch(b: Book)
    requires |b.closings| == |b.checkpoints|
    requires ClosingsSound(b.closings, b.checkpoints) && CheckpointsSound(b.checkpoints, b.liabilities)
    ensures ClosingsProjected(b, FromTables(b))
  {
    hide ClosingProjected, ClosingSound, CheckpointSound, Minted, Burned, Supply;
    forall i | 0 <= i < |b.closings|
      ensures ClosingProjected(b, FromTables(b), i)
    {
      ClosingMatches(b, i);
    }
  }

  lemma {:induction false} CountsMatch(b: Book)
    requires Aligned(b.cycles, b.checkpoints, b.liquidity, b.closings)
    ensures CountsProjected(b, FromTables(b))
  {
    hide Minted, Burned, Supply;
    AllClosed(b.cycles);
  }

  /** A linked book that is sound and has closed a cycle. */
  lemma {:induction false} LinkedParts(b: Book)
    requires Linked(b)
    ensures FoldAll(b.vault, b.events) == Ok(FromTables(b))
    ensures DirectProjected(b) && SharesProjected(b, |b.shareEvents|) && HistoryProjected(b)
    ensures LifecycleMatched(b.events, |b.requests|, b.reserves, b.payables)
  {
    hide FoldAll, DirectMatched, SharesMatched, HistoryMatched, LifecycleMatched, DirectProjected, SharesProjected,
         HistoryProjected, Figures;
    MatchedDirect(b);
    MatchedShares(b);
    MatchedHistory(b);
  }

  lemma {:induction false} ConsistentReplays(b: Book)
    requires Consistent(b) && b.closings != []
    ensures b.closings[|b.closings| - 1].checkpoint < |b.checkpoints|
    ensures Replay(b) == Ok(ReportOf(b))
  {
    hide Consistent, Linked, Sound, FoldAll, DirectProjected, SharesProjected, HistoryProjected, LifecycleMatched,
         ClosingsProjected, CountsProjected, ClosingsSound, CheckpointsSound, Aligned, QuietTail, Minted, Burned,
         Supply;
    BoundaryParts(b);
    LinkedParts(b);
    ClosingsMatch(b);
    CountsMatch(b);
  }

  lemma {:induction false} BoundaryParts(b: Book)
    requires Consistent(b) && b.closings != []
    ensures Linked(b) && Aligned(b.cycles, b.checkpoints, b.liquidity, b.closings)
    ensures ClosingsSound(b.closings, b.checkpoints) && CheckpointsSound(b.checkpoints, b.liabilities)
    ensures |b.closings| == |b.checkpoints|
    ensures var last := b.closings[|b.closings| - 1];
            && last.checkpoint == |b.closings| - 1 && last.supply == Supply(b.shareEvents)
            && QuietTail(b.events, last.event) && last.event <= |b.events| && b.events != []
  {
    VaultRuns.Sizes(b);
    VaultClose.LiabilitiesOf(b, b.clock);
    hide Linked, Sound;
    var last := b.closings[|b.closings| - 1];
    assert ClosingSound(last, b.checkpoints[|b.closings| - 1], |b.closings| - 1);
    EventsExist(b);
  }

  lemma {:induction false} EventsExist(b: Book)
    requires Consistent(b) && b.closings != []
    ensures b.events != []
  {
    hide Sound, Aligned, ClosingsSound, SinceClose, SharesMatched, HistoryMatched, LifecycleMatched;
    RowsMatch(b, ClosingKind);
    assert |OfKind(b.events, ClosingKind)| == |b.closings|;
  }

  /**
   After every run with a closed cycle the replay accepts the log, and reports exactly the
   supply, the mints and burns, the value, the assets and the counts that the tables hold.
   */
  lemma {:induction false} EveryRunReplays(vault: nat, steps: seq<Step>)
    requires Run(vault, steps).closings != []
    ensures var b := Run(vault, steps);
            && b.closings[|b.closings| - 1].checkpoint < |b.checkpoints|
            && Replay(b) == Ok(ReportOf(b)) && ReportOf(b).supply == ReportOf(b).closingSupply
  {
    hide Consistent, Run, Replay;
    VaultRuns.RunConsistent(vault, steps);
    ConsistentReplays(Run(vault, steps));
    BoundaryParts(Run(vault, steps));
  }

  // ---------------------------------------------------------------- the tail after a close

  /** What a report says of the last close. */
  predicate SameClose(a: Report, b: Report) {
    && a.lastClosed == b.lastClosed && a.checkpoints == b.checkpoints && a.shareEvents == b.shareEvents
    && a.minted == b.minted && a.burned == b.burned && a.supply == b.supply && a.closingSupply == b.closingSupply
    && a.nav == b.nav && a.gross == b.gross && a.deductions == b.deductions
  }

  lemma {:induction false} QuietStep(b: Book, step: Step)
    requires !step.CloseStep?
    ensures var after := Apply(b, step);
            && after.closings == b.closings && after.checkpoints == b.checkpoints && after.shareEvents == b.shareEvents
  {
    hide Admission, Postponed;
    match step
    case DepositStep(tick, user, amount, source, key) =>
      DepositOutcome(b, tick, user, amount, source, key);
    case RequestStep(tick, user, shares, key) =>
      RequestOutcome(b, tick, user, shares, key);
    case AdmitStep(tick, reconciliation, capacity) =>
      AdmissionOutcome(b, tick, reconciliation, capacity);
      var head, now := FirstInQueue(b.requests), b.clock + tick;
      if b.closings != [] && head.Some? && capacity.Some? {
        AdmissionTables(b, head.value, reconciliation, capacity.value, now);
        PostponedTables(b, head.value, reconciliation, capacity.value, now);
      }
  }

  lemma {:induction false} QuietSteps(vault: nat, steps: seq<Step>, tail: seq<Step>)
    requires forall i :: 0 <= i < |tail| ==> !tail[i].CloseStep?
    ensures var before, after := Run(vault, steps), Run(vault, steps + tail);
            && after.closings == before.closings && after.checkpoints == before.checkpoints
            && after.shareEvents == before.shareEvents
    decreases |tail|
  {
    hide Apply;
    if tail == [] {
      assert steps + tail == steps;
    } else {
      var init, last := tail[..|tail| - 1], tail[|tail| - 1];
      QuietSteps(vault, steps, init);
      assert (steps + tail)[..|steps + tail| - 1] == steps + init;
      QuietStep(Run(vault, steps + init), last);
    }
  }

  /** Any tail of deposits, requests and admissions leaves the closing value and supply as they were. */
  lemma {:induction false} TailKeepsTheClose(vault: nat, steps: seq<Step>, tail: seq<Step>)
    requires Run(vault, steps).closings != []
    requires forall i :: 0 <= i < |tail| ==> !tail[i].CloseStep?
    ensures Replay(Run(vault, steps)).Ok? && Replay(Run(vault, steps + tail)).Ok?
    ensures SameClose(Replay(Run(vault, steps)).value, Replay(Run(vault, steps + tail)).value)
  {
    hide Run, Replay;
    QuietSteps(vault, steps, tail);
    EveryRunReplays(vault, steps);
    EveryRunReplays(vault, steps + tail);
  }

  // ---------------------------------------------------------------- the hash chain

  /**
   The last hash binds the whole log: two logs of one vault that the fold accepts and that
   end in the same hash are the same sequence of events.
   */
  lemma {:induction false} LastHashBindsTheLog(vault: nat, a: seq<Event>, b: seq<Event>)
    requires FoldAll(vault, a).Ok? && FoldAll(vault, b).Ok? && LastDigest(a) == LastDigest(b)
    ensures a == b
    decreases |a|
  {
    hide Fold;
    if a == [] {
      assert b == [];
    } else {
      var x, y := a[|a| - 1], b[|b| - 1];
      assert x == y;
      LastHashBindsTheLog(vault, a[..|a| - 1], b[..|b| - 1]);
      assert a == a[..|a| - 1] + [x] && b == b[..|b| - 1] + [y];
    }
  }

  /** The same of whole books that the replay accepts. */
  lemma {:induction false} ReplayBindsTheLog(a: Book, b: Book)
    requires Replay(a).Ok? && Replay(b).Ok? && a.vault == b.vault && LastDigest(a.events) == LastDigest(b.events)
    ensures a.events == b.events
  {
    hide FoldAll, QuietTail, ClosingsProjected, CountsProjected, SharesProjected, DirectProjected, LifecycleMatched,
         HistoryProjected;
    LastHashBindsTheLog(a.vault, a.events, b.events);
  }
}
