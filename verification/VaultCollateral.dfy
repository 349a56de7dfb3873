/** Why a close on a fresh snapshot always finds its collateral, and what it leaves free. */
module VaultCollateral {
  import opened Common
  import opened VaultTables
  import opened VaultReplay
  import opened VaultInvariant
  import opened VaultSteps
  import opened VaultConsistency
  import opened VaultReserving
  import opened VaultClosing
  import opened VaultCycle

  /** The snapshot was taken no earlier than the previous close. */
  predicate Fresh(b: Book, at: int) {
    b.closings == [] || b.closings[|b.closings| - 1].at <= at
  }

  // ---------------------------------------------------------------- which requests a fresh snapshot marks

  /** A fresh snapshot only finds requests reserved that are still being redeemed. */
  lemma {:induction false} FreshlyReserved(b: Book, at: int, r: nat)
    requires Consistent(b) && Fresh(b, at) && r in ReservedRequests(b.history, b.reserves, |b.requests|, at)
    ensures r < |b.requests| && b.requests[r].status == Redeeming
  {
    hide Linked, Sound, Aligned, ClosingsSound;
    ListedReserved(b, at, r);
  }

  lemma {:induction false} ListedReserved(b: Book, at: int, r: nat)
    requires r in ReservedRequests(b.history, b.reserves, |b.requests|, at)
    ensures r < |b.requests| && ReservedAt(b.history, r, at)
  {
    SelectOrdered(|b.requests|, (r: nat) => ReserveOf(b.reserves, r).Some? && StatusAt(b.history, r, at).Some?
                                            && Reserved(StatusAt(b.history, r, at).value));
  }

  /** So every mark of the cycle is of a request that is being redeemed. */
  lemma {:induction false} FreshMarksOpen(b: Book, v: Book, reserved: Book, cutoff: int, at: int, now: int)
    requires Consistent(b) && Fresh(b, at) && AtCheckpoint(b, v, cutoff) && Reserving(v, reserved)
             && Sound(reserved, now)
    requires MarksFrom(v, reserved, ReservedRequests(v.history, v.reserves, |v.requests|, at))
    ensures MarksOpen(reserved.reserveMarks, reserved.requests, |b.closings|)
  {
    hide Consistent, Fresh, ReservedRequests, LotBook, QueueSound, PayablesSound, CheckpointsSound, DepositsSound,
         FeesSound, HistorySound, BurnsMatched;
    var c, marks := |b.closings|, reserved.reserveMarks;
    assert forall k :: 0 <= k < |v.reserveMarks| ==> marks[k] == marks[..|v.reserveMarks|][k];
    assert forall k :: 0 <= k < |v.reserveMarks| ==> marks[k].cycle != c;
    forall k | 0 <= k < |marks| && marks[k].cycle == c
      ensures marks[k].request < |reserved.requests| && reserved.requests[marks[k].request].status == Redeeming
    {
      FreshlyReserved(b, at, marks[k].request);
    }
  }

  // ---------------------------------------------------------------- the guards cannot fire

  /** The marked shares are within the supply that the checkpoint recorded. */
  lemma {:induction false} FreshWithinSupply(b: Book, v: Book, reserved: Book, cutoff: int, at: int, now: int)
    requires Consistent(b) && Fresh(b, at) && AtCheckpoint(b, v, cutoff) && Reserving(v, reserved)
             && Sound(reserved, now)
    requires MarksFrom(v, reserved, ReservedRequests(v.history, v.reserves, |v.requests|, at))
    ensures MarkedShares(reserved.reserveMarks, |b.closings|) <= v.checkpoints[|b.closings|].supply
    ensures MarksOpen(reserved.reserveMarks, reserved.requests, |b.closings|)
  {
    hide Consistent, Fresh, Sound, ReservedRequests, MarksFrom, MarksOpen;
    FreshMarksOpen(b, v, reserved, cutoff, at, now);
    MarkedWithinSupply(reserved, |b.closings|, now);
  }

  lemma {:induction false} WorthWithin(reserve: int, marked: int, nav: nat, supply: Positive)
    requires reserve * supply <= marked * nav && marked <= supply
    ensures reserve <= nav
  {
    MulMono(marked, supply, nav);
    MulGap(nav, reserve, supply);
  }

  /** Nothing is marked when there are no shares. */
  lemma {:induction false} MarksNeedSupply(marks: seq<ReserveMark>, requests: seq<Request>,
                                           checkpoints: seq<Checkpoint>,
                                           c: nat)
    requires MarksSound(marks, requests, checkpoints) && c < |checkpoints| && checkpoints[c].supply <= 0
    ensures MarkedReserve(marks, c) == 0 && MarkedShares(marks, c) == 0
  {
    if marks != [] {
      MarksNeedSupply(marks[..|marks| - 1], requests, checkpoints, c);
      assert MarkSound(marks[|marks| - 1], requests, checkpoints);
    }
  }

  lemma {:induction false} RequestShares(b: Book, now: int)
    requires Sound(b, now)
    ensures forall i :: 0 <= i < |b.requests| ==> 0 < b.requests[i].shares
    ensures MarksSound(b.reserveMarks, b.requests, b.checkpoints)
  {
    hide LotBook, MarksSound, PayablesSound, CheckpointsSound, DepositsSound, FeesSound, HistorySound, BurnsMatched,
         Balance;
    forall i | 0 <= i < |b.requests|
      ensures 0 < b.requests[i].shares
    {
      assert RequestSound(b.requests[i], i, b.reserves, b.shareEvents);
    }
  }

  /** The reserves of a fresh snapshot never exceed the value of the vault. */
  lemma {:induction false} ReserveWithinNav(reserved: Book, c: nat, now: int)
    requires Sound(reserved, now) && c < |reserved.checkpoints| && 0 <= reserved.checkpoints[c].nav
    requires MarkedShares(reserved.reserveMarks, c) <= reserved.checkpoints[c].supply
    ensures 0 <= MarkedReserve(reserved.reserveMarks, c) <= reserved.checkpoints[c].nav
  {
    hide Sound;
    RequestShares(reserved, now);
    MarksWithinWorth(reserved.reserveMarks, reserved.requests, reserved.checkpoints, c);
    var cp := reserved.checkpoints[c];
    if 0 < cp.supply {
      WorthWithin(MarkedReserve(reserved.reserveMarks, c), MarkedShares(reserved.reserveMarks, c), cp.nav, cp.supply);
    } else {
      MarksNeedSupply(reserved.reserveMarks, reserved.requests, reserved.checkpoints, c);
    }
  }

  /** On a fresh snapshot, marking the reserves cannot fail: whatever is reserved is backed by shares. */
  lemma {:induction false} FreshReserves(b: Book, v: Book, cutoff: int, at: int, now: int)
    requires Consistent(b) && Fresh(b, at) && AtCheckpoint(b, v, cutoff) && Sound(v, now)
    ensures MarkActiveReserves(v, |b.closings|, |b.closings|, v.checkpoints[|b.closings|], at).Ok?
  {
    hide Consistent, Fresh, LotBook, MarksSound, PayablesSound, CheckpointsSound, DepositsSound, FeesSound,
         HistorySound, BurnsMatched, MarkReserves, ReservedRequests;
    var requests := ReservedRequests(v.history, v.reserves, |v.requests|, at);
    if requests != [] {
      var r := requests[0];
      FreshlyReserved(b, at, r);
      assert RequestSound(v.requests[r], r, v.reserves, v.shareEvents);
      BalanceWithinSupply(v.shareEvents, v.lots, v.allocations, v.requests[r].user);
    }
  }

  /** Nor can the liquidity mark: the collateral is covered. */
  lemma {:induction false} FreshCollateral(b: Book, v: Book, cutoff: int, at: int, now: int)
    requires Consistent(b) && Fresh(b, at) && AtCheckpoint(b, v, cutoff) && Linked(v) && Sound(v, now)
    ensures var c := |b.closings|;
            var r := MarkActiveReserves(v, c, c, v.checkpoints[c], at);
            && r.Ok? && MarkLiquidity(r.value, c, c, v.checkpoints[c], v.liabilities[c]).Ok?
            && MarkedShares(r.value.reserveMarks, c) <= v.checkpoints[c].supply
            && MarkedReserve(r.value.reserveMarks, c) <= v.checkpoints[c].nav
  {
    hide Consistent, Fresh, Linked, Sound, MarkActiveReserves, MarksFrom, ReservedRequests, MarksOpen, Unused;
    var c := |b.closings|;
    FreshReserves(b, v, cutoff, at, now);
    ReserveStage(v, c, at, now);
    var reserved := MarkActiveReserves(v, c, c, v.checkpoints[c], at).value;
    FreshWithinSupply(b, v, reserved, cutoff, at, now);
    CheckpointOf(v, c, now);
    ReserveWithinNav(reserved, c, now);
  }
}
