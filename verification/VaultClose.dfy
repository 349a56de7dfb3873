/** The closing state of a cycle, and the close as one transaction. */
module VaultClose {
  import opened Common
  import opened VaultTables
  import opened VaultRows
  import opened VaultReplay
  import opened VaultInvariant
  import opened VaultSteps
  import opened VaultConsistency
  import opened VaultMarking
  import opened VaultClosing
  import VaultLinks

  // ---------------------------------------------------------------- the closing arithmetic

  /**
   Burning `burned` shares for `matured` and minting `minted` for `activated`, both on the
   right side of the checkpoint price, never dilutes; a burn of the whole supply turns what
   is left of its value into dust.
   */
  lemma {:induction false} ClosingArithmetic(nav: int, supply: int, burned: int, matured: int, minted: int,
                                             activated: int, dust: int)
    requires 0 <= nav && 0 <= burned && 0 <= supply - burned && (supply == 0 ==> nav == 0)
    requires 0 <= matured && matured * supply <= burned * nav
    requires 0 <= minted && 0 <= activated && (minted == 0 ==> activated == 0)
    requires minted * nav <= activated * supply
    requires supply == 0 ==> matured == 0
    requires dust == if 0 < supply && burned == supply then nav - matured else 0
    ensures 0 <= dust && matured <= nav
    ensures 0 <= nav + activated - matured - dust
    ensures supply - burned + minted == 0 ==> nav + activated - matured - dust == 0
    ensures nav * (supply - burned + minted) <= (nav + activated - matured - dust) * supply
  {
    if 0 < supply {
      MulMono(burned, supply, nav);
      MulGap(nav, matured, supply);
      assert nav * (supply - burned + minted) == nav * supply - burned * nav + minted * nav;
      assert (nav + activated - matured - dust) * supply
          == nav * supply + activated * supply - matured * supply - dust * supply;
      if burned == supply {
        assert dust * supply == nav * supply - matured * supply;
      }
    }
  }

  /** The figures a cycle closes with. */
  ghost predicate ReadyToClose(b: Book, cycle: nat) {
    && cycle < |b.checkpoints| && cycle < |b.liabilities|
    && var cp, l := b.checkpoints[cycle], b.liabilities[cycle];
       var burned, matured := BurnedAt(b.payables, b.reserveMarks, cycle), MaturedAt(b.payables, b.reserveMarks, cycle);
       var activated, minted := ActivatedAt(b.deposits, cycle), Supply(b.shareEvents) - cp.supply + burned;
       && 0 <= burned <= cp.supply && 0 <= matured && matured * cp.supply <= burned * cp.nav
       && (cp.supply == 0 ==> matured == 0)
       && 0 <= minted && 0 <= activated && (minted == 0 ==> activated == 0)
       && minted * cp.nav <= activated * cp.supply
       && MaturedTotal(b.payables) == l.matured + matured
       && PendingTotal(b.deposits) == l.pending - activated
  }

  /** The guard for an invalid closing state cannot fire, and the closing state is fair. */
  lemma {:induction false} ClosingIsSound(b: Book, cycle: nat, now: int)
    requires ReadyToClose(b, cycle) && CheckpointSound(b.checkpoints[cycle], b.liabilities[cycle], cycle)
    requires 0 <= PendingTotal(b.deposits)
    ensures ClosingSound(ClosingNow(b, cycle, cycle, b.checkpoints[cycle], now), b.checkpoints[cycle], cycle)
    ensures ClosingNow(b, cycle, cycle, b.checkpoints[cycle], now).supply == Supply(b.shareEvents)
    ensures var c := ClosingNow(b, cycle, cycle, b.checkpoints[cycle], now);
            && c.activated == ActivatedAt(b.deposits, cycle) && c.at == now
            && c.matured == MaturedAt(b.payables, b.reserveMarks, cycle)
  {
    var cp, c := b.checkpoints[cycle], ClosingNow(b, cycle, cycle, b.checkpoints[cycle], now);
    var burned := BurnedAt(b.payables, b.reserveMarks, cycle);
    ClosingArithmetic(cp.nav, cp.supply, burned, c.matured, c.supply - cp.supply + burned, c.activated, c.dust);
  }

  // ---------------------------------------------------------------- events and deposits by now

  lemma {:induction false} RowsMatch(b: Book, k: Kind)
    requires DirectMatched(b) && Direct(k)
    ensures OfKind(b.events, k) == RowsOf(b, k)
  {
  }

  /** No deposit was recorded by an event that is yet to come. */
  lemma {:induction false} NothingDepositedYet(b: Book, version: nat)
    requires Linked(b) && |b.events| <= version
    ensures DepositedSince(b.deposits, version) == 0
  {
    forall i | 0 <= i < |b.deposits|
      ensures b.deposits[i].event <= version
    {
      RowsMatch(b, DepositKind);
      VaultLinks.RowAt(b.deposits, i, OfDeposit);
      assert RowsOf(b, DepositKind)[i].event == b.deposits[i].event;
      VaultLinks.VersionsBelow(b.vault, b.events, DepositKind, i);
    }
    NoneLater(b.deposits, version);
  }

  lemma {:induction false} NoneLater(deposits: seq<Deposit>, version: nat)
    requires forall i :: 0 <= i < |deposits| ==> deposits[i].event <= version
    ensures DepositedSince(deposits, version) == 0
  {
    if deposits != [] {
      NoneLater(deposits[..|deposits| - 1], version);
    }
  }

  lemma {:induction false} ReservedNow(b: Book, now: int)
    requires HistorySound(b.history, b.requests, now) && RequestsSound(b.requests, b.reserves, b.shareEvents)
    ensures ReservedSince(b.history, b.requests, now)
  {
    forall r: nat, at: int | now <= at && ReservedAt(b.history, r, at)
      ensures r < |b.requests| && b.requests[r].status == Redeeming
    {
      assert r < |b.requests| ==> RequestSound(b.requests[r], r, b.reserves, b.shareEvents);
    }
  }

  // ---------------------------------------------------------------- closing the books

  /** A cycle on its way to its close, beside the consistent book that it started from. */
  ghost predicate Underway(b: Book, w: Book, cutoff: int) {
    var c := |b.closings|;
    && w.vault == b.vault && w.clock == b.clock && w.closings == b.closings && w.inception.Some?
    && |w.checkpoints| == c + 1 && w.checkpoints[..c] == b.checkpoints
    && |w.cycles| == c + 1 && w.cycles[..c] == b.cycles && w.cycles[c].cutoff == cutoff
    && |w.liquidity| == c + 1 && w.liquidity[..c] == b.liquidity
    && w.liquidity[c].cycle == c == w.liquidity[c].checkpoint
  }

  ghost predicate NextDay(cycles: seq<Cycle>, cutoff: int) {
    cycles != [] ==> cutoff == cycles[|cycles| - 1].cutoff + 1
  }

  lemma {:induction false} AlignedAfter(b: Book, w: Book, cutoff: int, closing: Closing)
    requires Aligned(b.cycles, b.checkpoints, b.liquidity, b.closings) && Underway(b, w, cutoff)
    requires NextDay(b.cycles, cutoff)
    ensures Aligned(CycleClosedIn(w.cycles, |b.closings|), w.checkpoints, w.liquidity, b.closings + [closing])
  {
    var c := |b.closings|;
    var cycles := CycleClosedIn(w.cycles, c);
    assert forall i :: 0 <= i < c ==> w.cycles[i] == w.cycles[..c][i] == b.cycles[i];
    assert forall i :: 0 <= i < c ==> w.liquidity[i] == w.liquidity[..c][i];
    assert forall i :: 0 <= i < |cycles| ==> cycles[i].cutoff == w.cycles[i].cutoff;
  }

  lemma {:induction false} ClosingsAfter(closings: seq<Closing>, checkpoints: seq<Checkpoint>, more: seq<Checkpoint>,
                                         closing: Closing)
    requires ClosingsSound(closings, checkpoints) && |more| == |checkpoints| + 1
    requires more[..|checkpoints|] == checkpoints && ClosingSound(closing, more[|checkpoints|], |checkpoints|)
    ensures ClosingsSound(closings + [closing], more)
  {
    var all := closings + [closing];
    forall i | 0 <= i < |all|
      ensures ClosingSound(all[i], more[i], i)
    {
      if i < |closings| {
        assert more[i] == more[..|checkpoints|][i];
        assert ClosingSound(closings[i], checkpoints[i], i);
      }
    }
  }

  /** The book once the closing row is written and its cycle is marked closed. */
  function Shut(w: Book, closing: Closing, now: int): Book {
    var after := AddClosing(w, closing);
    after.(cycles := CycleClosedIn(after.cycles, closing.cycle), clock := now)
  }

  lemma {:induction false} ShutLinked(w: Book, closing: Closing, now: int)
    requires Linked(w) && VaultLinks.ClosingAdds(w, closing)
    ensures Linked(Shut(w, closing, now))
  {
    hide Linked, VaultLinks.ClosingAdds;
    var after := AddClosing(w, closing);
    VaultLinks.ClosingLinked(w, closing);
    SameCycles(after.cycles, closing.cycle);
    VaultLinks.CyclesLinked(after, CycleClosedIn(after.cycles, closing.cycle));
    var closed := after.(cycles := CycleClosedIn(after.cycles, closing.cycle));
    ClockLinked(closed, closed.depositKeys, now);
    assert Shut(w, closing, now) == closed.(depositKeys := closed.depositKeys, clock := now);
  }

  lemma {:induction false} SameCycles(cycles: seq<Cycle>, cycle: nat)
    ensures Rows(CycleClosedIn(cycles, cycle), OfCycle) == Rows(cycles, OfCycle)
  {
    var closed := CycleClosedIn(cycles, cycle);
    forall i | 0 <= i < |cycles|
      ensures Rows(closed, OfCycle)[i] == Rows(cycles, OfCycle)[i]
    {
      VaultLinks.RowAt(cycles, i, OfCycle);
      VaultLinks.RowAt(closed, i, OfCycle);
    }
  }

  lemma {:induction false} ShutSound(w: Book, closing: Closing, now: int)
    requires Sound(w, now)
    ensures Sound(Shut(w, closing, now), now)
  {
    hide LotBook, QueueSound, MarksSound, PayablesSound, CheckpointsSound, DepositsSound, FeesSound, HistorySound,
         BurnsMatched;
  }

  lemma {:induction false} ShutSince(w: Book, closing: Closing, l: Liability, now: int)
    requires Linked(w) && Sound(w, now) && closing.supply == Supply(w.shareEvents) && closing.at == now
    requires MaturedTotal(w.payables) == l.matured + closing.matured
    requires PendingTotal(w.deposits) == l.pending - closing.activated
    ensures SinceClose(Shut(w, closing, now), closing.(event := Next(w)), l)
  {
    hide Linked, Sound, LotBook, MarksSound, PayablesSound, CheckpointsSound, DepositsSound, FeesSound, HistorySound,
         BurnsMatched;
    RequestsOf(w, now);
    HistoryOf(w, now);
    ReservedNow(w, now);
    NothingDepositedYet(w, Next(w));
  }

  lemma {:induction false} HistoryOf(b: Book, now: int)
    requires Sound(b, now)
    ensures HistorySound(b.history, b.requests, now)
  {
    hide LotBook, QueueSound, MarksSound, PayablesSound, CheckpointsSound, DepositsSound, FeesSound, HistorySound,
         BurnsMatched;
  }

  ghost predicate Started(b: Book, cutoff: int, now: int) {
    Consistent(b) && b.clock <= now && NextDay(b.cycles, cutoff)
  }

  lemma {:induction false} ShutConsistent(b: Book, w: Book, cutoff: int, now: int)
    requires Started(b, cutoff, now) && Linked(w) && Sound(w, now) && Underway(b, w, cutoff)
    requires ReadyToClose(w, |b.closings|)
    ensures var closing := ClosingNow(w, |b.closings|, |b.closings|, w.checkpoints[|b.closings|], now);
            && ClosingSound(closing, w.checkpoints[|b.closings|], |b.closings|)
            && Consistent(Shut(w, closing, now))
  {
    var c := |b.closings|;
    var cp, l := w.checkpoints[c], w.liabilities[c];
    var closing := ClosingNow(w, c, c, cp, now);
    StartedSizes(b, cutoff, now);
    LiabilitiesOf(w, now);
    DepositsOf(w, now);
    PendingSign(w.deposits, |w.checkpoints|);
    ClosingIsSound(w, c, now);
    hide Consistent, Linked, Sound, ClosingNow, ReadyToClose, SinceClose, Aligned, ClosingsSound;
    ShutLinked(w, closing, now);
    ShutSound(w, closing, now);
    ShutSince(w, closing, l, now);
    AlignedAfter(b, w, cutoff, closing.(event := Next(w)));
    ClosingsAfter(b.closings, b.checkpoints, w.checkpoints, closing.(event := Next(w)));
    ShutTogether(b, w, closing, l, now);
  }

  lemma {:induction false} ShutTogether(b: Book, w: Book, closing: Closing, l: Liability, now: int)
    requires var after := Shut(w, closing, now);
             && Linked(after) && Sound(after, now) && w.closings == b.closings && closing.cycle == |b.closings|
             && |w.liabilities| == |b.closings| + 1 && w.liabilities[|b.closings|] == l && w.inception.Some?
             && SinceClose(after, closing.(event := Next(w)), l)
             && Aligned(CycleClosedIn(w.cycles, |b.closings|), w.checkpoints, w.liquidity,
                        b.closings + [closing.(event := Next(w))])
             && ClosingsSound(b.closings + [closing.(event := Next(w))], w.checkpoints)
    ensures Consistent(Shut(w, closing, now))
  {
    hide Linked, Sound, SinceClose, Aligned, ClosingsSound;
  }

  lemma {:induction false} StartedSizes(b: Book, cutoff: int, now: int)
    requires Started(b, cutoff, now)
    ensures Aligned(b.cycles, b.checkpoints, b.liquidity, b.closings) && ClosingsSound(b.closings, b.checkpoints)
    ensures |b.checkpoints| == |b.closings| && NextDay(b.cycles, cutoff)
    ensures Linked(b) && Sound(b, b.clock) && b.clock <= now
  {
    hide Linked, Sound, SinceClose;
  }

  lemma {:induction false} LiabilitiesOf(w: Book, now: int)
    requires Sound(w, now)
    ensures CheckpointsSound(w.checkpoints, w.liabilities)
  {
    hide LotBook, QueueSound, MarksSound, PayablesSound, CheckpointsSound, DepositsSound, FeesSound, HistorySound,
         BurnsMatched;
  }

  lemma {:induction false} DepositsOf(w: Book, now: int)
    requires Sound(w, now)
    ensures DepositsSound(w.deposits, |w.checkpoints|)
  {
    hide LotBook, QueueSound, MarksSound, PayablesSound, CheckpointsSound, DepositsSound, FeesSound, HistorySound,
         BurnsMatched;
  }
}
