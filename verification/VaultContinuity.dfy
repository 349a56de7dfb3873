/** From one close to the next: how the value moves, and what a recovered close works on. */
module VaultContinuity {
  import opened Common
  import opened VaultTables
  import opened VaultReplay
  import opened VaultInvariant
  import opened VaultSteps
  import opened VaultConsistency
  import opened VaultMarking
  import opened VaultClosing
  import opened VaultCycle
  import VaultDust
  import VaultPaying

  /** What changed outside the shares between two liabilities: assets less every obligation but payables. */
  function Drift(before: Liability, after: Liability, deposited: int): int {
    (after.grossAssets - before.grossAssets) - (after.senior - before.senior) - (after.marked - before.marked)
    - (after.fees - before.fees) - (after.expenses - before.expenses) - deposited
  }

  /** Opening the next cycle and marking it touches no deposit and no payable once the vault is incepted. */
  lemma {:induction false} UntouchedByMarking(b: Book, begun: Book, marked: Book, cutoff: int)
    requires Opening(b, begun, cutoff) && Marking(begun, marked) && b.inception.Some?
    ensures marked.deposits == b.deposits && marked.payables == b.payables && marked.shareEvents == b.shareEvents
    ensures marked.liabilities == b.liabilities
  {
  }

  lemma {:induction false} LastClose(b: Book)
    requires Consistent(b) && b.closings != []
    ensures var c := |b.closings|;
            && c == |b.checkpoints| == |b.liabilities| && b.inception.Some?
            && SinceClose(b, b.closings[c - 1], b.liabilities[c - 1])
            && ClosingSound(b.closings[c - 1], b.checkpoints[c - 1], c - 1)
            && CheckpointSound(b.checkpoints[c - 1], b.liabilities[c - 1], c - 1)
  {
    hide Linked, SinceClose, ClosingSound, CheckpointSound, LotBook, QueueSound, MarksSound, PayablesSound,
         DepositsSound, FeesSound, HistorySound, BurnsMatched;
  }

  /**
   Rolling continuity, exactly: the next checkpoint starts from the last closing supply, and
   from the last closing value plus the dust withheld then, plus whatever changed outside.
   */
  lemma {:induction false} NextCheckpoint(b: Book, begun: Book, marked: Book, cutoff: int, input: CloseInput,
                                          open: seq<Ticket>)
    requires Consistent(b) && b.closings != [] && Opening(b, begun, cutoff) && Marking(begun, marked)
    ensures var c := |b.closings|;
            && c == |b.liabilities|
            && var last, l := b.closings[c - 1], LiabilityNow(marked, c, input, open);
               && Supply(marked.shareEvents) == last.supply
               && l.grossAssets - l.deductions
                  == last.nav + last.dust + Drift(b.liabilities[c - 1], l, DepositedSince(b.deposits, last.event))
  {
    hide Consistent;
    LastClose(b);
    UntouchedByMarking(b, begun, marked, cutoff);
  }

  /**
   The same for every close that goes through: the value moves by exactly the drift. Dust can only be part of it on a
   snapshot from before the last close, since a fresh one is refused for it.
   */
  lemma {:induction false} ClosesContinue(b: Book, tick: Positive, input: CloseInput)
    requires Consistent(b) && b.closings != [] && CloseDue(b, tick, input).Ok?
    ensures var after, c := CloseDue(b, tick, input).value, |b.closings|;
            && c < |after.checkpoints| == |after.liabilities| && c == |b.liabilities|
            && var last := b.closings[c - 1];
               && after.checkpoints[c].supply == last.supply
               && after.checkpoints[c].nav == last.nav + last.dust
                    + Drift(b.liabilities[c - 1], after.liabilities[c], DepositedSince(b.deposits, last.event))
               && (last.at <= input.snapshot.created ==> last.dust == 0)
  {
    hide Consistent, CloseDue, Linked, Sound, ClosingNow, VaultPaying.PaidUp, VaultPaying.PaidExactly, Collateralized,
         MarkActiveReserves;
    LastClose(b);
    if b.closings[|b.closings| - 1].dust != 0 && b.closings[|b.closings| - 1].at <= input.snapshot.created {
      VaultDust.DustSigns(b);
      VaultDust.DustRefusesCloses(b, tick, input, |b.closings| - 1);
    }
    var s := CloseDueStages(b, tick, input);
    CheckpointOf(s.valued, |b.closings|, s.now);
  }

  // ---------------------------------------------------------------- recovering a missed cycle

  /** The financial state over time: its version never goes back, and a version is one state. */
  ghost predicate Trajectory(version: int -> nat, state: int -> nat) {
    && (forall s: int, t: int :: s <= t ==> version(s) <= version(t))
    && (forall s: int, t: int :: version(s) == version(t) ==> state(s) == state(t))
  }

  ghost predicate TakenFrom(s: Snapshot, version: int -> nat) {
    s.bookVersion == version(s.created)
  }

  /**
   A late close that recovers a missed cycle works on the very financial state that held at
   the cutoff, and nothing has changed it in between.
   */
  lemma {:induction false} RecoveryMeetsTheCutoff(b: Book, input: CloseInput, now: int, version: int -> nat,
                                                  state: int -> nat, t: int)
    requires Trajectory(version, state) && TakenFrom(input.snapshot, version)
    requires input.recovery.Some? ==> TakenFrom(input.recovery.value, version)
    requires Due(b, input, DueCutoff(b, now), now) && !OnTime(input.snapshot, DueCutoff(b, now))
    requires DueCutoff(b, now) * DAY_MS <= t <= input.snapshot.created
    ensures state(t) == state(input.snapshot.created) == state(DueCutoff(b, now) * DAY_MS)
  {
    var cutoff := DueCutoff(b, now) * DAY_MS;
    var before := UsableRecovery(input, DueCutoff(b, now)).value;
    assert version(before.created) <= version(cutoff) <= version(t) <= version(input.snapshot.created);
  }
}
