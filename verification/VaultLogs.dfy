/** Which logs the replay accepts, told event by event from what stands before it in the log. */
module VaultLogs {
  import opened Common
  import opened VaultTables
  import opened VaultReplay

  // ---------------------------------------------------------------- what stands before an event

  /** The shares that the first `n` events mint, and those that they burn. */
  function MintedBefore(events: seq<Event>, n: nat): int
    requires n <= |events|
  {
    if n == 0 then 0
    else MintedBefore(events, n - 1)
         + (if events[n - 1].payload.DepositActivated? then events[n - 1].payload.shares else 0)
  }

  function BurnedBefore(events: seq<Event>, n: nat): int
    requires n <= |events|
  {
    if n == 0 then 0
    else BurnedBefore(events, n - 1)
         + (if events[n - 1].payload.RedemptionPayableMatured? then events[n - 1].payload.shares else 0)
  }

  /** Event `k` is the last liability among the first `n` events. */
  ghost predicate LiabilityBefore(events: seq<Event>, n: nat, k: nat)
    requires n <= |events|
  {
    k < n && events[k].payload.LiabilityMarked? && forall j :: k < j < n ==> !events[j].payload.LiabilityMarked?
  }

  predicate IsCheckpoint(e: Event, checkpoint: nat) {
    e.payload.NavCheckpointed? && e.entity == checkpoint
  }

  /** Event `k` is the last one that records a checkpoint among the first `n` events. */
  ghost predicate CheckpointBefore(events: seq<Event>, n: nat, checkpoint: nat, k: nat)
    requires n <= |events|
  {
    k < n && IsCheckpoint(events[k], checkpoint) && forall j :: k < j < n ==> !IsCheckpoint(events[j], checkpoint)
  }

  // ---------------------------------------------------------------- what makes an event acceptable

  /** The version is the place in the log, the previous hash is the one before, and the hash is over the event. */
  ghost predicate ChainedAt(vault: nat, events: seq<Event>, i: nat)
    requires i < |events|
  {
    var e := events[i];
    && e.version == i + 1 && e.previous == (if i == 0 then None else Some(events[i - 1].digest))
    && e.digest == Digest(vault, i + 1, e.previous, e.entity, e.payload)
  }

  /** A payload figure that is missing is a negative one. */
  predicate Given(figure: int) {
    0 <= figure
  }

  /**
   The value of a checkpoint is its assets less its deductions. Either figure, if it is missing, is that of the last
   liability; assets that the liability leaves out as well are implied. What is given on both sides is the same.
   */
  ghost predicate ValuedBy(p: Payload, liability: Option<Payload>, gross: int, deductions: int)
    requires p.NavCheckpointed? && (liability.Some? ==> liability.value.LiabilityMarked?)
  {
    && p.nav == gross - deductions
    && (Given(p.deductions) ==> deductions == p.deductions) && (Given(p.gross) ==> gross == p.gross)
    && (liability.Some? ==>
          deductions == liability.value.deductions && (Given(liability.value.gross) ==> gross == liability.value.gross))
    && (liability.None? ==> Given(p.deductions) && Given(p.gross))
  }

  /** The last liability before an event. */
  function LastLiability(events: seq<Event>, n: nat): (r: Option<nat>)
    requires n <= |events|
    ensures if r.None? then forall j :: 0 <= j < n ==> !events[j].payload.LiabilityMarked?
            else LiabilityBefore(events, n, r.value)
  {
    if n == 0 then None
    else if events[n - 1].payload.LiabilityMarked? then Some(n - 1)
    else LastLiability(events, n - 1)
  }

  /** The event that last recorded a checkpoint. */
  function LastCheckpoint(events: seq<Event>, n: nat, checkpoint: nat): (r: Option<nat>)
    requires n <= |events|
    ensures if r.None? then forall j :: 0 <= j < n ==> !IsCheckpoint(events[j], checkpoint)
            else CheckpointBefore(events, n, checkpoint, r.value)
  {
    if n == 0 then None
    else if IsCheckpoint(events[n - 1], checkpoint) then Some(n - 1)
    else LastCheckpoint(events, n - 1, checkpoint)
  }

  function PayloadAt(events: seq<Event>, k: Option<nat>): Option<Payload> {
    if k.Some? && k.value < |events| then Some(events[k.value].payload) else None
  }

  /** What an event has to agree with. */
  ghost predicate Acceptable(events: seq<Event>, i: nat)
    requires i < |events|
  {
    var supply := MintedBefore(events, i) - BurnedBefore(events, i);
    match events[i].payload
    case LiabilityMarked(_, _, _, deductions) => 0 <= deductions
    case NavCheckpointed(_, _, _, _, _, nav, shares) =>
      && 0 <= nav && 0 <= shares && shares == supply
      && exists gross, deductions ::
           ValuedBy(events[i].payload, PayloadAt(events, LastLiability(events, i)), gross, deductions)
    case DepositActivated(_, _, _, _, _, shares) => 0 < shares
    case RedemptionPayableMatured(_, _, _, _, shares, _, _, _) => 0 < shares <= supply
    case CycleClosed(_, checkpoint, activated, matured, dust, nav, shares) =>
      && 0 <= activated && 0 <= matured && 0 <= dust && 0 <= nav && 0 <= shares && shares == supply
      && LastCheckpoint(events, i, checkpoint).Some?
      && var k := LastCheckpoint(events, i, checkpoint).value;
         && events[k].payload.nav + activated - matured - dust == nav
         && exists gross, deductions ::
              && ValuedBy(events[k].payload, PayloadAt(events, LastLiability(events, k)), gross, deductions)
              && nav <= gross
    case _ => true
  }

  ghost predicate WellKept(vault: nat, events: seq<Event>) {
    forall i :: 0 <= i < |events| ==> ChainedAt(vault, events, i) && Acceptable(events, i)
  }

  // ---------------------------------------------------------------- what the replay knows after `n` events

  ghost predicate KnowsLiability(s: Replayed, events: seq<Event>, n: nat)
    requires n <= |events|
  {
    match LastLiability(events, n)
    case None => s.liability == None
    case Some(k) =>
      && s.liability.Some? && s.liability.value.deductions == events[k].payload.deductions
      && 0 <= s.liability.value.deductions
      && (if Given(events[k].payload.gross) then s.liability.value.gross == events[k].payload.gross
          else s.liability.value.gross == -1)
  }

  ghost predicate KnowsCheckpoint(point: ReplayedCheckpoint, events: seq<Event>, k: nat)
    requires k < |events| && events[k].payload.NavCheckpointed?
  {
    && point.nav == events[k].payload.nav && point.supply == events[k].payload.supply
    && ValuedBy(events[k].payload, PayloadAt(events, LastLiability(events, k)), point.gross, point.deductions)
  }

  ghost predicate KnowsCheckpoints(s: Replayed, events: seq<Event>, n: nat)
    requires n <= |events|
  {
    forall checkpoint: nat ::
      && (checkpoint in s.checkpoints <==> LastCheckpoint(events, n, checkpoint).Some?)
      && (checkpoint in s.checkpoints ==>
            KnowsCheckpoint(s.checkpoints[checkpoint], events, LastCheckpoint(events, n, checkpoint).value))
  }

  function CountBefore(events: seq<Event>, n: nat, k: Kind): nat
    requires n <= |events|
  {
    if n == 0 then 0
    else CountBefore(events, n - 1, k) + (if KindOf(events[n - 1].payload) == k then 1 else 0)
  }

  /** The last close and its figures. */
  ghost predicate KnowsLastClose(closes: seq<ReplayedClose>, events: seq<Event>, n: nat)
    requires n <= |events|
  {
    forall k: nat :: k < n && events[k].payload.CycleClosed?
                     && (forall j :: k < j < n ==> !events[j].payload.CycleClosed?) ==>
      && closes != []
      && var last := closes[|closes| - 1];
         && last.version == k + 1 && last.entity == events[k].entity && last.nav == events[k].payload.nav
         && last.supply == events[k].payload.supply && last.checkpoint == events[k].payload.checkpoint
         && last.deductions == last.gross - last.nav
  }

  ghost predicate Knows(s: Replayed, events: seq<Event>, n: nat)
    requires n <= |events|
  {
    && s.minted == MintedBefore(events, n) && s.burned == BurnedBefore(events, n) && s.supply == s.minted - s.burned
    && s.shareEvents == CountBefore(events, n, ShareKind) && s.checkpointCount == CountBefore(events, n, CheckpointKind)
    && |s.closes| == CountBefore(events, n, ClosingKind) && KnowsLastClose(s.closes, events, n)
    && KnowsLiability(s, events, n) && KnowsCheckpoints(s, events, n)
  }

  // ---------------------------------------------------------------- one event more

  lemma {:induction false} SameCheckpoints(s: Replayed, next: Replayed, events: seq<Event>, n: nat)
    requires n < |events| && KnowsCheckpoints(s, events, n) && next.checkpoints == s.checkpoints
    requires !events[n].payload.NavCheckpointed?
    ensures KnowsCheckpoints(next, events, n + 1)
  {
    hide KnowsCheckpoint;
    forall checkpoint: nat
      ensures checkpoint in next.checkpoints <==> LastCheckpoint(events, n + 1, checkpoint).Some?
      ensures checkpoint in next.checkpoints ==>
                KnowsCheckpoint(next.checkpoints[checkpoint], events, LastCheckpoint(events, n + 1, checkpoint).value)
    {
      assert LastCheckpoint(events, n + 1, checkpoint) == LastCheckpoint(events, n, checkpoint);
    }
  }

  lemma {:induction false} SameLiability(s: Replayed, next: Replayed, events: seq<Event>, n: nat)
    requires n < |events| && KnowsLiability(s, events, n) && next.liability == s.liability
    requires !events[n].payload.LiabilityMarked?
    ensures KnowsLiability(next, events, n + 1)
  {
  }

  lemma {:induction false} SameCloses(closes: seq<ReplayedClose>, events: seq<Event>, n: nat)
    requires n < |events| && KnowsLastClose(closes, events, n) && !events[n].payload.CycleClosed?
    ensures KnowsLastClose(closes, events, n + 1)
  {
  }

  lemma {:induction false} LiabilityStep(s: Replayed, events: seq<Event>, n: nat)
    requires n < |events| && Knows(s, events, n) && events[n].payload.LiabilityMarked?
    ensures Fold(s, events[n]).Ok? <==> Acceptable(events, n)
    ensures Fold(s, events[n]).Ok? ==> Knows(Fold(s, events[n]).value, events, n + 1)
  {
    hide ValuedBy, KnowsCheckpoints, KnowsLastClose;
    if Fold(s, events[n]).Ok? {
      SameCheckpoints(s, Fold(s, events[n]).value, events, n);
      SameCloses(s.closes, events, n);
    }
  }

  lemma {:induction false} ShareStep(s: Replayed, events: seq<Event>, n: nat)
    requires n < |events| && Knows(s, events, n)
    requires events[n].payload.DepositActivated? || events[n].payload.RedemptionPayableMatured?
    ensures Fold(s, events[n]).Ok? <==> Acceptable(events, n)
    ensures Fold(s, events[n]).Ok? ==> Knows(Fold(s, events[n]).value, events, n + 1)
  {
    hide ValuedBy, KnowsCheckpoints, KnowsLastClose, KnowsLiability, LastCheckpoint, LastLiability;
    if Fold(s, events[n]).Ok? {
      SameCheckpoints(s, Fold(s, events[n]).value, events, n);
      SameLiability(s, Fold(s, events[n]).value, events, n);
      SameCloses(s.closes, events, n);
    }
  }

  /** The figures that the replay settles on are the only ones that fit. */
  lemma {:induction false} CheckpointFigures(s: Replayed, events: seq<Event>, n: nat)
    requires n < |events| && KnowsLiability(s, events, n) && events[n].payload.NavCheckpointed?
    ensures var p, known := events[n].payload, DeductionsOf(s.liability, events[n].payload.deductions);
            var assets := GrossOf(s.liability, p.gross, p.nav + (if known.Some? then known.value else 0));
            var l := PayloadAt(events, LastLiability(events, n));
            var fits := && known.Some? && assets.Some? && assets.value - p.nav == known.value
                        && !(s.liability.Some?
                             && (s.liability.value.deductions != known.value
                                 || (0 <= s.liability.value.gross && s.liability.value.gross != assets.value)));
            && (fits ==> ValuedBy(p, l, assets.value, known.value))
            && forall gross, deductions :: ValuedBy(p, l, gross, deductions) ==>
                 fits && gross == assets.value && deductions == known.value
  {
  }

  lemma {:induction false} CheckpointStep(s: Replayed, events: seq<Event>, n: nat)
    requires n < |events| && Knows(s, events, n) && events[n].payload.NavCheckpointed?
    ensures Fold(s, events[n]).Ok? <==> Acceptable(events, n)
    ensures Fold(s, events[n]).Ok? ==> Knows(Fold(s, events[n]).value, events, n + 1)
  {
    CheckpointFigures(s, events, n);
    hide ValuedBy, DeductionsOf, GrossOf, KnowsLastClose, KnowsLiability;
    if Fold(s, events[n]).Ok? {
      var next := Fold(s, events[n]).value;
      SameLiability(s, next, events, n);
      SameCloses(s.closes, events, n);
      forall checkpoint: nat
        ensures checkpoint in next.checkpoints <==> LastCheckpoint(events, n + 1, checkpoint).Some?
        ensures checkpoint in next.checkpoints ==>
                  KnowsCheckpoint(next.checkpoints[checkpoint], events,
                                  LastCheckpoint(events, n + 1, checkpoint).value)
      {
      }
    }
  }

  lemma {:induction false} CloseFigures(s: Replayed, events: seq<Event>, n: nat, checkpoint: nat)
    requires n < |events| && KnowsCheckpoints(s, events, n) && checkpoint in s.checkpoints
    ensures LastCheckpoint(events, n, checkpoint).Some?
    ensures var k, point := LastCheckpoint(events, n, checkpoint).value, s.checkpoints[checkpoint];
            var l := PayloadAt(events, LastLiability(events, k));
            && point.nav == events[k].payload.nav && ValuedBy(events[k].payload, l, point.gross, point.deductions)
            && forall gross, deductions :: ValuedBy(events[k].payload, l, gross, deductions) ==>
                 gross == point.gross && deductions == point.deductions
  {
    assert KnowsCheckpoint(s.checkpoints[checkpoint], events, LastCheckpoint(events, n, checkpoint).value);
  }

  lemma {:induction false} CloseDecides(s: Replayed, events: seq<Event>, n: nat)
    requires n < |events| && KnowsCheckpoints(s, events, n) && events[n].payload.CycleClosed?
    requires s.supply == MintedBefore(events, n) - BurnedBefore(events, n)
    ensures Fold(s, events[n]).Ok? <==> Acceptable(events, n)
  {
    var checkpoint := events[n].payload.checkpoint;
    assert checkpoint in s.checkpoints <==> LastCheckpoint(events, n, checkpoint).Some?;
    if checkpoint in s.checkpoints {
      CloseFigures(s, events, n, checkpoint);
    }
    hide ValuedBy, KnowsCheckpoints, LastCheckpoint, LastLiability, PayloadAt, MintedBefore, BurnedBefore;
  }

  lemma {:induction false} CloseKnows(s: Replayed, events: seq<Event>, n: nat)
    requires n < |events| && Knows(s, events, n) && events[n].payload.CycleClosed? && Fold(s, events[n]).Ok?
    requires events[n].version == n + 1
    ensures Knows(Fold(s, events[n]).value, events, n + 1)
  {
    hide ValuedBy, KnowsCheckpoints, KnowsLiability, LastCheckpoint, LastLiability;
    SameCheckpoints(s, Fold(s, events[n]).value, events, n);
    SameLiability(s, Fold(s, events[n]).value, events, n);
  }

  lemma {:induction false} CloseStep(s: Replayed, events: seq<Event>, n: nat)
    requires n < |events| && Knows(s, events, n) && events[n].payload.CycleClosed? && events[n].version == n + 1
    ensures Fold(s, events[n]).Ok? <==> Acceptable(events, n)
    ensures Fold(s, events[n]).Ok? ==> Knows(Fold(s, events[n]).value, events, n + 1)
  {
    CloseDecides(s, events, n);
    hide Acceptable;
    if Fold(s, events[n]).Ok? {
      CloseKnows(s, events, n);
    }
  }

  lemma {:induction false} OtherStep(s: Replayed, events: seq<Event>, n: nat)
    requires n < |events| && Knows(s, events, n)
    requires var p := events[n].payload;
             !(p.LiabilityMarked? || p.NavCheckpointed? || p.DepositActivated? || p.RedemptionPayableMatured?
               || p.CycleClosed?)
    ensures Fold(s, events[n]) == Ok(s) && Acceptable(events, n) && Knows(s, events, n + 1)
  {
    hide ValuedBy, KnowsCheckpoints, KnowsLastClose, KnowsLiability, LastCheckpoint, LastLiability;
    SameCheckpoints(s, s, events, n);
    SameLiability(s, s, events, n);
    SameCloses(s.closes, events, n);
  }

  lemma {:induction false} StepMeans(s: Replayed, events: seq<Event>, n: nat)
    requires n < |events| && Knows(s, events, n) && events[n].version == n + 1
    ensures Fold(s, events[n]).Ok? <==> Acceptable(events, n)
    ensures Fold(s, events[n]).Ok? ==> Knows(Fold(s, events[n]).value, events, n + 1)
  {
    hide Fold, Acceptable, Knows;
    match events[n].payload
    case LiabilityMarked(_, _, _, _) => LiabilityStep(s, events, n);
    case NavCheckpointed(_, _, _, _, _, _, _) => CheckpointStep(s, events, n);
    case DepositActivated(_, _, _, _, _, _) => ShareStep(s, events, n);
    case RedemptionPayableMatured(_, _, _, _, _, _, _, _) => ShareStep(s, events, n);
    case CycleClosed(_, _, _, _, _, _, _) => CloseStep(s, events, n);
    case _ => OtherStep(s, events, n);
  }

  lemma {:induction false} ChainMeans(vault: nat, events: seq<Event>, n: nat)
    requires n < |events|
    ensures ChainFault(vault, events[..n], events[n]).None? <==> ChainedAt(vault, events, n)
    ensures ChainedAt(vault, events, n) ==> events[n].version == n + 1
  {
  }

  // ---------------------------------------------------------------- the whole log

  lemma {:induction false} PrefixMeans(vault: nat, events: seq<Event>, n: nat)
    requires n <= |events|
    ensures FoldAll(vault, events[..n]).Ok? <==>
              forall i :: 0 <= i < n ==> ChainedAt(vault, events, i) && Acceptable(events, i)
    ensures FoldAll(vault, events[..n]).Ok? ==> Knows(FoldAll(vault, events[..n]).value, events, n)
  {
    hide Fold, ChainFault, ChainedAt, Acceptable;
    if n == 0 {
      KnowsNothing(events);
    } else {
      hide Knows;
      PrefixMeans(vault, events, n - 1);
      assert events[..n][..n - 1] == events[..n - 1];
      ChainMeans(vault, events, n - 1);
      if FoldAll(vault, events[..n - 1]).Ok? && ChainedAt(vault, events, n - 1) {
        StepMeans(FoldAll(vault, events[..n - 1]).value, events, n - 1);
      }
    }
  }

  lemma {:induction false} KnowsNothing(events: seq<Event>)
    ensures Knows(Nothing, events, 0)
  {
  }

  /**
   The replay accepts exactly the logs that are well kept: chained by version and hash, with checkpoints that agree with
   the last liability and with the shares minted and burned before them, and with closes that continue their checkpoint.
   What it then reports are the totals of the log.
   */
  lemma {:induction false} ReplayMeans(vault: nat, events: seq<Event>)
    ensures FoldAll(vault, events).Ok? <==> WellKept(vault, events)
    ensures FoldAll(vault, events).Ok? ==>
              var s, n := FoldAll(vault, events).value, |events|;
              && s.minted == MintedBefore(events, n) && s.burned == BurnedBefore(events, n)
              && s.supply == s.minted - s.burned && s.shareEvents == CountBefore(events, n, ShareKind)
              && s.checkpointCount == CountBefore(events, n, CheckpointKind)
              && |s.closes| == CountBefore(events, n, ClosingKind) && KnowsLastClose(s.closes, events, n)
              && KnowsLiability(s, events, n) && KnowsCheckpoints(s, events, n)
  {
    hide FoldAll, ChainedAt, Acceptable;
    assert events[..|events|] == events;
    PrefixMeans(vault, events, |events|);
  }
}
