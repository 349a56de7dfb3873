/** What a close leaves free and what it still holds in reserve, down to the last unit of dust. */
module VaultLiquidity {
  import opened Common
  import opened VaultTables
  import opened VaultRows
  import opened VaultReplay
  import opened VaultInvariant
  import opened VaultSteps
  import opened VaultConsistency
  import opened VaultReserving
  import opened VaultPaying
  import opened VaultClosing
  import opened VaultClose
  import opened VaultCycle
  import opened VaultCollateral
  import VaultMarking

  // ---------------------------------------------------------------- marks that are still to be paid

  predicate MarkPaid(payables: seq<Payable>, k: nat) {
    exists i :: 0 <= i < |payables| && payables[i].mark == k
  }

  function UnpaidReserve(marks: seq<ReserveMark>, payables: seq<Payable>, cycle: nat): int {
    if marks == [] then 0
    else
      var last := |marks| - 1;
      UnpaidReserve(marks[..last], payables, cycle)
      + (if marks[last].cycle == cycle && !MarkPaid(payables, last) then marks[last].amount else 0)
  }

  function UnpaidShares(marks: seq<ReserveMark>, payables: seq<Payable>, cycle: nat): int {
    if marks == [] then 0
    else
      var last := |marks| - 1;
      UnpaidShares(marks[..last], payables, cycle)
      + (if marks[last].cycle == cycle && !MarkPaid(payables, last) then marks[last].shares else 0)
  }

  lemma {:induction false} OneMorePaid(payables: seq<Payable>, p: Payable, k: nat)
    ensures MarkPaid(payables + [p], k) <==> MarkPaid(payables, k) || p.mark == k
  {
    assert (payables + [p])[|payables|] == p;
    if MarkPaid(payables, k) {
      var i :| 0 <= i < |payables| && payables[i].mark == k;
      assert (payables + [p])[i].mark == k;
    }
  }

  lemma {:induction false} UnpaidAfter(marks: seq<ReserveMark>, payables: seq<Payable>, p: Payable, cycle: nat)
    requires !MarkPaid(payables, p.mark)
    ensures var paid := p.mark < |marks| && marks[p.mark].cycle == cycle;
            && UnpaidReserve(marks, payables + [p], cycle)
               == UnpaidReserve(marks, payables, cycle) - (if paid then marks[p.mark].amount else 0)
            && UnpaidShares(marks, payables + [p], cycle)
               == UnpaidShares(marks, payables, cycle) - (if paid then marks[p.mark].shares else 0)
  {
    if marks != [] {
      var last := |marks| - 1;
      UnpaidAfter(marks[..last], payables, p, cycle);
      OneMorePaid(payables, p, last);
    }
  }

  lemma {:induction false} AllUnpaid(marks: seq<ReserveMark>, cycle: nat)
    ensures UnpaidReserve(marks, [], cycle) == MarkedReserve(marks, cycle)
    ensures UnpaidShares(marks, [], cycle) == MarkedShares(marks, cycle)
  {
    if marks != [] {
      AllUnpaid(marks[..|marks| - 1], cycle);
    }
  }

  /** Each payable pays a mark of its own in full. */
  ghost predicate PaysMarks(payables: seq<Payable>, marks: seq<ReserveMark>) {
    && (forall k :: 0 <= k < |payables| ==>
          && payables[k].mark < |marks| && marks[payables[k].mark].cycle == marks[payables[k].mark].checkpoint
          && payables[k].amount == marks[payables[k].mark].amount
          && payables[k].shares == marks[payables[k].mark].shares)
    && (forall j, k :: 0 <= j < k < |payables| ==> payables[j].mark != payables[k].mark)
  }

  lemma {:induction false} PayablesPayMarks(b: Book, now: int)
    requires Sound(b, now)
    ensures PaysMarks(b.payables, b.reserveMarks)
  {
    hide LotBook, QueueSound, CheckpointsSound, DepositsSound, FeesSound, HistorySound, BurnsMatched;
    forall k | 0 <= k < |b.payables|
      ensures b.payables[k].mark < |b.reserveMarks|
      ensures var m := b.reserveMarks[b.payables[k].mark];
              m.cycle == m.checkpoint && b.payables[k].amount == m.amount && b.payables[k].shares == m.shares
              && m.request == b.payables[k].request
    {
      assert PayableSound(b.payables[k], b.reserveMarks, b.requests);
      assert MarkSound(b.reserveMarks[b.payables[k].mark], b.requests, b.checkpoints);
    }
  }

  lemma {:induction false} LastPays(payables: seq<Payable>, marks: seq<ReserveMark>)
    requires PaysMarks(payables, marks) && payables != []
    ensures var init, p := payables[..|payables| - 1], payables[|payables| - 1];
            && PaysMarks(init, marks) && !MarkPaid(init, p.mark) && payables == init + [p]
            && p.mark < |marks| && marks[p.mark].cycle == marks[p.mark].checkpoint
            && p.amount == marks[p.mark].amount && p.shares == marks[p.mark].shares
  {
    var init := payables[..|payables| - 1];
    assert forall k :: 0 <= k < |init| ==> init[k] == payables[k];
  }

  /** What was marked is what was paid and what is still to be paid. */
  lemma {:induction false} MarkedIsPaidOrUnpaid(marks: seq<ReserveMark>, payables: seq<Payable>, cycle: nat)
    requires PaysMarks(payables, marks)
    ensures MarkedReserve(marks, cycle) == UnpaidReserve(marks, payables, cycle) + MaturedAt(payables, marks, cycle)
    ensures MarkedShares(marks, cycle) == UnpaidShares(marks, payables, cycle) + BurnedAt(payables, marks, cycle)
    decreases |payables|
  {
    hide PaysMarks, MarkPaid, UnpaidReserve, UnpaidShares, MarkedReserve, MarkedShares;
    if payables == [] {
      AllUnpaid(marks, cycle);
    } else {
      LastPays(payables, marks);
      MarkedIsPaidOrUnpaid(marks, payables[..|payables| - 1], cycle);
      UnpaidAfter(marks, payables[..|payables| - 1], payables[|payables| - 1], cycle);
    }
  }

  /** What is still to be paid is never negative and never more than the worth of its shares. */
  lemma {:induction false} UnpaidWorth(marks: seq<ReserveMark>, payables: seq<Payable>, requests: seq<Request>,
                                       checkpoints: seq<Checkpoint>, cycle: nat)
    requires MarksSound(marks, requests, checkpoints) && cycle < |checkpoints| && 0 <= checkpoints[cycle].nav
    requires forall i :: 0 <= i < |requests| ==> 0 < requests[i].shares
    ensures 0 <= UnpaidReserve(marks, payables, cycle) && 0 <= UnpaidShares(marks, payables, cycle)
    ensures UnpaidReserve(marks, payables, cycle) * checkpoints[cycle].supply
         <= UnpaidShares(marks, payables, cycle) * checkpoints[cycle].nav
  {
    if marks != [] {
      var init, m := marks[..|marks| - 1], marks[|marks| - 1];
      UnpaidWorth(init, payables, requests, checkpoints, cycle);
      assert MarkSound(m, requests, checkpoints);
      if m.cycle == cycle && !MarkPaid(payables, |marks| - 1) {
        OneMoreWorth(UnpaidReserve(init, payables, cycle), UnpaidShares(init, payables, cycle), m.shares,
                     checkpoints[cycle].nav, checkpoints[cycle].supply);
      }
    }
  }

  lemma {:induction false} UnpaidLeft(b: Book, c: nat, now: int)
    requires Sound(b, now) && c < |b.checkpoints| && 0 <= b.checkpoints[c].nav
    ensures var left := UnpaidReserve(b.reserveMarks, b.payables, c);
            && MarkedReserve(b.reserveMarks, c) == left + MaturedAt(b.payables, b.reserveMarks, c) && 0 <= left
            && left * b.checkpoints[c].supply
               <= UnpaidShares(b.reserveMarks, b.payables, c) * b.checkpoints[c].nav
            && MarkedShares(b.reserveMarks, c)
               == UnpaidShares(b.reserveMarks, b.payables, c) + BurnedAt(b.payables, b.reserveMarks, c)
  {
    hide Sound, PaysMarks;
    PayablesPayMarks(b, now);
    MarkedIsPaidOrUnpaid(b.reserveMarks, b.payables, c);
    RequestShares(b, now);
    UnpaidWorth(b.reserveMarks, b.payables, b.requests, b.checkpoints, c);
  }

  /** The reserve left over after payment: never negative, and nothing once the whole supply is burned. */
  lemma {:induction false} ReserveLeft(b: Book, c: nat, now: int)
    requires Sound(b, now) && c < |b.checkpoints| && 0 <= b.checkpoints[c].nav && 0 <= b.checkpoints[c].supply
    requires MarkedShares(b.reserveMarks, c) <= b.checkpoints[c].supply
    ensures var left := MarkedReserve(b.reserveMarks, c) - MaturedAt(b.payables, b.reserveMarks, c);
            && 0 <= left
            && (BurnedAt(b.payables, b.reserveMarks, c) == b.checkpoints[c].supply ==> left == 0)
  {
    hide Sound, PaysMarks;
    var cp, burned := b.checkpoints[c], BurnedAt(b.payables, b.reserveMarks, c);
    UnpaidLeft(b, c, now);
    if burned == cp.supply {
      if cp.supply == 0 {
        RequestShares(b, now);
        MarksNeedSupply(b.reserveMarks, b.requests, b.checkpoints, c);
        PaidWithinMarks(b, c, now);
      } else {
        MulGap(0, UnpaidReserve(b.reserveMarks, b.payables, c), cp.supply);
      }
    }
  }

  /** Without marks nothing is paid. */
  lemma {:induction false} PaidWithinMarks(b: Book, c: nat, now: int)
    requires Sound(b, now)
    ensures MaturedAt(b.payables, b.reserveMarks, c) >= 0
  {
    hide Sound;
    MaturedSigns(b, now);
    MaturedAtSign(b.payables, b.reserveMarks, c);
  }

  lemma {:induction false} MaturedSigns(b: Book, now: int)
    requires Sound(b, now)
    ensures VaultMarking.AmountsSign(b.payables)
  {
    hide LotBook, QueueSound, MarksSound, CheckpointsSound, DepositsSound, FeesSound, HistorySound, BurnsMatched;
    VaultMarking.PayableAmounts(b.payables, b.reserveMarks, b.requests);
  }

  lemma {:induction false} MaturedAtSign(payables: seq<Payable>, marks: seq<ReserveMark>, c: nat)
    requires VaultMarking.AmountsSign(payables)
    ensures 0 <= MaturedAt(payables, marks, c)
  {
    if payables != [] {
      MaturedAtSign(payables[..|payables| - 1], marks, c);
    }
  }

  // ---------------------------------------------------------------- the figures that are loaded after a close

  function LoadedReserve(q: Liquidity, c: Closing): int {
    q.activeReserve - c.matured
  }

  function LoadedCollateral(l: Liability, q: Liquidity, c: Closing): int {
    l.senior + l.fees + l.expenses + l.pending - c.activated + l.matured + c.matured + c.dust + l.gross
    + q.activeReserve - c.matured
  }

  function LoadedFree(cp: Checkpoint, l: Liability, q: Liquidity, c: Closing): int {
    cp.gross - l.senior - l.fees - l.expenses - l.pending + c.activated - l.matured - c.matured - c.dust - l.gross
    - q.activeReserve + c.matured
  }

  /** The figures loaded after a close add up, and neither the free part nor the reserve is ever negative. */
  ghost predicate FullyCovered(cp: Checkpoint, l: Liability, q: Liquidity, c: Closing) {
    && LoadedFree(cp, l, q, c) + LoadedCollateral(l, q, c) == cp.gross
    && 0 <= LoadedFree(cp, l, q, c) && 0 <= LoadedReserve(q, c)
    && c.nav == LoadedFree(cp, l, q, c) + LoadedReserve(q, c)
  }

  lemma {:induction false} CoveredFigures(w: Book, c: nat, closing: Closing, now: int)
    requires Sound(w, now) && Collateralized(w, c) && ClosingSound(closing, w.checkpoints[c], c)
    requires MarkedShares(w.reserveMarks, c) <= w.checkpoints[c].supply
    requires closing.matured == MaturedAt(w.payables, w.reserveMarks, c)
    requires var cp := w.checkpoints[c];
             closing.dust == if 0 < cp.supply && BurnedAt(w.payables, w.reserveMarks, c) == cp.supply
                             then cp.nav - closing.matured else 0
    ensures FullyCovered(w.checkpoints[c], w.liabilities[c], w.liquidity[c], closing)
  {
    hide Sound;
    CheckpointOf(w, c, now);
    ReserveLeft(w, c, now);
  }

  /**
   A close on a fresh snapshot is fully covered: what is free and what is held add up to the
   gross assets, neither is negative, and the closing value is what is free plus what is
   still reserved, also when the last shares leave only dust.
   */
  lemma {:induction false} FreshCloseIsCovered(b: Book, tick: Positive, input: CloseInput)
    requires Consistent(b) && Fresh(b, input.snapshot.created) && CloseDue(b, tick, input).Ok?
    ensures var after, c := CloseDue(b, tick, input).value, |b.closings|;
            && c < |after.closings| == |after.checkpoints| == |after.liabilities| == |after.liquidity|
            && FullyCovered(after.checkpoints[c], after.liabilities[c], after.liquidity[c], after.closings[c])
  {
    hide Consistent, CloseDue, Sound, Linked, Fresh, FullyCovered, SettleCycle, ActivateDeposits, MarkActiveReserves,
         MarkLiquidity, PaidUp, PaidExactly, Unused, Collateralized, ClosingSound;
    var c := |b.closings|;
    var s := CloseDueStages(b, tick, input);
    FreshCollateral(b, s.valued, s.cutoff, input.snapshot.created, s.now);
    var closing := ClosingNow(s.active, c, c, s.valued.checkpoints[c], s.now).(event := Next(s.active));
    ClosedSizes(Ended(b, s));
    CoveredFigures(s.settled, c, closing, s.now);
  }

  /**
   What every close keeps that goes through, also on a snapshot older than the previous close: the loaded figures add
   up, the reserve is not negative, and what is free falls short of the checked liquidity by the withheld dust alone.
   */
  ghost predicate Covered(cp: Checkpoint, l: Liability, q: Liquidity, c: Closing) {
    && LoadedFree(cp, l, q, c) + LoadedCollateral(l, q, c) == cp.gross
    && 0 <= LoadedReserve(q, c) && c.nav == LoadedFree(cp, l, q, c) + LoadedReserve(q, c)
    && 0 <= q.free && LoadedFree(cp, l, q, c) == q.free + c.activated - c.dust
  }

  lemma {:induction false} AnyFigures(w: Book, c: nat, closing: Closing, now: int)
    requires Sound(w, now) && Collateralized(w, c) && ClosingSound(closing, w.checkpoints[c], c)
    requires closing.matured == MaturedAt(w.payables, w.reserveMarks, c) && 0 <= w.checkpoints[c].nav
    ensures Covered(w.checkpoints[c], w.liabilities[c], w.liquidity[c], closing)
  {
    hide Sound;
    CheckpointOf(w, c, now);
    UnpaidLeft(w, c, now);
  }

  /**
   Every close that goes through, whatever the age of its snapshot: the published figures add up, and free liquidity
   is not negative unless dust was withheld.
   */
  lemma {:induction false} AnyCloseIsCovered(b: Book, tick: Positive, input: CloseInput)
    requires Consistent(b) && CloseDue(b, tick, input).Ok?
    ensures var after, c := CloseDue(b, tick, input).value, |b.closings|;
            && c < |after.closings| == |after.checkpoints| == |after.liabilities| == |after.liquidity|
            && Covered(after.checkpoints[c], after.liabilities[c], after.liquidity[c], after.closings[c])
            && (after.closings[c].dust == 0 ==>
                  0 <= LoadedFree(after.checkpoints[c], after.liabilities[c], after.liquidity[c], after.closings[c]))
  {
    hide Consistent, CloseDue, Sound, Linked, Covered, SettleCycle, ActivateDeposits, MarkActiveReserves,
         MarkLiquidity, PaidUp, PaidExactly, Unused, Collateralized, ClosingSound;
    var c := |b.closings|;
    var s := CloseDueStages(b, tick, input);
    var closing := ClosingNow(s.active, c, c, s.valued.checkpoints[c], s.now).(event := Next(s.active));
    ClosedSizes(Ended(b, s));
    AnyFigures(s.settled, c, closing, s.now);
    CoveredFree(Ended(b, s), c);
  }

  lemma {:induction false} CoveredFree(after: Book, c: nat)
    requires c < |after.closings| == |after.checkpoints| == |after.liabilities| == |after.liquidity|
    requires Covered(after.checkpoints[c], after.liabilities[c], after.liquidity[c], after.closings[c])
    requires ClosingSound(after.closings[c], after.checkpoints[c], c)
    ensures after.closings[c].dust == 0 ==>
              0 <= LoadedFree(after.checkpoints[c], after.liabilities[c], after.liquidity[c], after.closings[c])
  {
  }

  lemma {:induction false} ClosedSizes(b: Book)
    requires Consistent(b)
    ensures |b.closings| == |b.checkpoints| == |b.liabilities| == |b.liquidity|
    ensures forall i :: 0 <= i < |b.closings| ==> ClosingSound(b.closings[i], b.checkpoints[i], i)
  {
    hide Linked, SinceClose, ClosingSound;
    LiabilitiesOf(b, b.clock);
  }
}
