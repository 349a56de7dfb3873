/** Quiet closes that pay every request there is. */
module VaultAllPaid {
  import opened Common
  import opened VaultTables
  import opened VaultRows
  import opened VaultReplay
  import opened VaultInvariant
  import opened VaultSteps
  import opened VaultConsistency
  import opened VaultQueue
  import opened VaultClosing
  import opened VaultCycle
  import opened VaultCollateral
  import opened VaultFaults
  import opened VaultOutcomes
  import opened VaultPayout
  import opened VaultQuiet
  import RedemptionBatch
  import ShareRedemption
  import VaultActivating
  import VaultBatch
  import VaultPaying

  // ---------------------------------------------------------------- all requests

  /** The numbers below `n`, in order. */
  function Rows(n: nat): (rows: seq<nat>)
    ensures |rows| == n && Numbers(rows, n) && forall k :: 0 <= k < n ==> rows[k] == k
  {
    if n == 0 then [] else Rows(n - 1) + [n - 1]
  }

  lemma {:induction false} SelectAll(n: nat, p: nat -> bool)
    requires forall k: nat :: k < n ==> p(k)
    ensures Select(n, p) == Rows(n)
  {
    if n != 0 {
      SelectAll(n - 1, p);
    }
  }

  /** Every request is being redeemed, and its window is over. */
  ghost predicate AllRipe(b: Book, at: int) {
    b.requests != [] && forall r :: 0 <= r < |b.requests| ==> RipeRequest(b.requests[r], at)
  }

  predicate RipeRequest(request: Request, at: int) {
    request.status == Redeeming && request.endsAt <= at
  }

  lemma {:induction false} RipeIsReserved(b: Book, at: int, r: nat)
    requires Consistent(b) && AllRipe(b, at) && b.clock <= at && r < |b.requests|
    ensures StatusAt(b.history, r, at) == Some(Redeeming) && ReserveOf(b.reserves, r).Some?
    ensures Held(b.reserves, r, b.requests[r].shares)
    ensures 0 < b.requests[r].shares <= Balance(b.shareEvents, b.requests[r].user) <= Supply(b.shareEvents)
  {
    hide Linked, LotBook, MarksSound, PayablesSound, CheckpointsSound, DepositsSound, FeesSound, BurnsMatched,
         SinceClose, Aligned, ClosingsSound;
    assert RipeRequest(b.requests[r], at);
    assert RequestSound(b.requests[r], r, b.reserves, b.shareEvents);
    BalanceWithinSupply(b.shareEvents, b.lots, b.allocations, b.requests[r].user);
  }

  lemma {:induction false} AllReserved(b: Book, at: int)
    requires Consistent(b) && AllRipe(b, at) && b.clock <= at
    ensures ReservedThen(b, at) == Rows(|b.requests|) && 0 < Supply(b.shareEvents)
  {
    hide Consistent, AllRipe, StatusAt, ReserveOf, Balance, Supply;
    var reserved := (r: nat) => ReserveOf(b.reserves, r).Some? && StatusAt(b.history, r, at).Some?
                                && Reserved(StatusAt(b.history, r, at).value);
    forall r: nat | r < |b.requests|
      ensures reserved(r)
    {
      RipeIsReserved(b, at, r);
    }
    SelectAll(|b.requests|, reserved);
    SomeRequest(b, at);
    RipeIsReserved(b, at, 0);
  }

  lemma {:induction false} SomeRequest(b: Book, at: int)
    requires AllRipe(b, at)
    ensures 0 < |b.requests|
  {
  }

  // ---------------------------------------------------------------- what is marked

  lemma {:induction false} MarkedEach(v: Book, c: nat, cp: Checkpoint, rows: seq<nat>, r: nat)
    requires 0 < cp.supply && r in rows && ReserveOf(v.reserves, r).Some?
    ensures MarkOf(MarkReserves(v, c, c, cp, rows).reserveMarks, c, r).Some?
    ensures MarkReserves(v, c, c, cp, rows).reserves == v.reserves
  {
    var init, last := rows[..|rows| - 1], rows[|rows| - 1];
    assert rows == init + [last];
    MarkingLeaves(v, c, cp, init);
    if last != r {
      MarkedEach(v, c, cp, init, r);
    }
    MarkStays(MarkReserves(v, c, c, cp, init), c, cp, last, r);
  }

  lemma {:induction false} MarkingLeaves(v: Book, c: nat, cp: Checkpoint, rows: seq<nat>)
    requires 0 < cp.supply
    ensures MarkReserves(v, c, c, cp, rows).reserves == v.reserves
    ensures MarkReserves(v, c, c, cp, rows).history == v.history
  {
    if rows != [] {
      MarkingLeaves(v, c, cp, rows[..|rows| - 1]);
    }
  }

  lemma {:induction false} MarkStays(b: Book, c: nat, cp: Checkpoint, last: nat, r: nat)
    requires 0 < cp.supply
    requires MarkOf(b.reserveMarks, c, r).Some? || (last == r && ReserveOf(b.reserves, r).Some?)
    ensures MarkOf(MarkReserve(b, c, c, cp, last).reserveMarks, c, r).Some?
  {
    var held := ReserveOf(b.reserves, last);
    if MarkOf(b.reserveMarks, c, last).None? && held.Some? {
      var shares := b.reserves[held.value].shares;
      Snoc(b.reserveMarks, ReserveMark(c, c, last, shares, shares * cp.nav / cp.supply, Next(b)));
    }
  }

  /** At its checkpoint a close marks every reserve that the history had at the snapshot. */
  lemma {:induction false} StagedMarks(b: Book, at: int, s: Stages, r: nat)
    requires Staged(b, at, s) && r in ReservedThen(b, at) && s.valued.reserves == b.reserves
    requires |b.closings| < |s.valued.checkpoints| && 0 < s.valued.checkpoints[|b.closings|].supply
    ensures MarkOf(s.settled.reserveMarks, |b.closings|, r).Some?
  {
    hide Linked, Sound, VaultPaying.PaidUp, Collateralized, VaultPaying.PaidExactly, MaturedRequests, Unused,
         VaultPaying.PaidInOrder, SettleCycle, ActivateDeposits, MarkReserves, MarkOf;
    SelectOrdered(|b.requests|, (r: nat) => ReserveOf(b.reserves, r).Some? && StatusAt(b.history, r, at).Some?
                                            && Reserved(StatusAt(b.history, r, at).value));
    MarkedEach(s.valued, |b.closings|, s.valued.checkpoints[|b.closings|], ReservedThen(b, at), r);
  }

  lemma {:induction false} MarkedAtOwn(b: Book, now: int, c: nat, r: nat)
    requires Sound(b, now) && MarkOf(b.reserveMarks, c, r).Some?
    ensures b.reserveMarks[MarkOf(b.reserveMarks, c, r).value].checkpoint == c
  {
    hide LotBook, PayablesSound, CheckpointsSound, DepositsSound, FeesSound, BurnsMatched, QueueSound, HistorySound;
    assert MarkSound(b.reserveMarks[MarkOf(b.reserveMarks, c, r).value], b.requests, b.checkpoints);
  }

  lemma {:induction false} AllMature(b: Book, at: int, s: Stages)
    requires Consistent(b) && Staged(b, at, s) && AllRipe(b, at) && b.clock <= at && s.valued.reserves == b.reserves
    requires |b.closings| < |s.valued.checkpoints| && 0 < s.valued.checkpoints[|b.closings|].supply
    requires s.valued.requests == b.requests && Sound(s.settled, s.now)
    ensures MaturedRequests(b.requests, s.settled.reserveMarks, |b.closings|, |b.closings|, at) == Rows(|b.requests|)
  {
    hide Staged, Sound, Consistent, ReservedRequests, MarkOf;
    var c, marks := |b.closings|, s.settled.reserveMarks;
    AllReserved(b, at);
    forall r: nat | r < |b.requests|
      ensures Matured(b.requests, marks, c, c, at, r)
    {
      assert Rows(|b.requests|)[r] == r && RipeRequest(b.requests[r], at);
      StagedMarks(b, at, s, r);
      MarkedAtOwn(s.settled, s.now, c, r);
    }
    SelectAll(|b.requests|, (r: nat) => Matured(b.requests, marks, c, c, at, r));
  }

  // ---------------------------------------------------------------- what the history keeps

  lemma {:induction false} StartedHistory(b: Book, rows: seq<nat>, now: int, r: nat, at: int)
    requires Numbers(rows, |b.requests|) && at < now
    ensures StatusAt(StartRedeeming(b, rows, now).history, r, at) == StatusAt(b.history, r, at)
  {
    if rows != [] {
      var init, last := rows[..|rows| - 1], rows[|rows| - 1];
      StartedHistory(b, init, now, r, at);
      var rest := StartRedeeming(b, init, now);
      OneMoreStatusAt(rest.history, Move(last, Some(rest.requests[last].status), Redeeming, now), r, at);
    }
  }

  lemma {:induction false} FinalizedHistory(b: Book, cycle: nat, cp: Checkpoint, last: nat, now: int, r: nat, at: int)
    requires last < |b.requests| && at < now && FinalizeOne(b, cycle, cycle, cp, last, now).Ok?
    ensures StatusAt(FinalizeOne(b, cycle, cycle, cp, last, now).value.history, r, at) == StatusAt(b.history, r, at)
  {
    hide ShareRedemption.FinalizeRedemptions, VaultLots.PlanBurn, Balance, VaultLots.Recorded, MarkOf, PayableOf;
    var finalized := Move(last, Some(b.requests[last].status), Finalized, now);
    OneMoreStatusAt(b.history, finalized, r, at);
    OneMoreStatusAt(b.history + [finalized], Move(last, Some(Finalized), Claimable, now), r, at);
  }

  lemma {:induction false} EachHistory(b: Book, cycle: nat, cp: Checkpoint, rows: seq<nat>, now: int, r: nat, at: int)
    requires Numbers(rows, |b.requests|) && at < now && FinalizeEach(b, cycle, cycle, cp, rows, now).Ok?
    ensures StatusAt(FinalizeEach(b, cycle, cycle, cp, rows, now).value.history, r, at) == StatusAt(b.history, r, at)
  {
    hide FinalizeOne, StatusAt;
    if rows != [] {
      EachHistory(b, cycle, cp, rows[..|rows| - 1], now, r, at);
      var rest := FinalizeEach(b, cycle, cycle, cp, rows[..|rows| - 1], now).value;
      FinalizedHistory(rest, cycle, cp, rows[|rows| - 1], now, r, at);
    }
  }

  /** Whatever a close moves, it moves now: the history of any earlier time stays what it was. */
  lemma {:induction false} SettledHistory(v: Book, c: nat, cp: Checkpoint, l: Liability, source: int, now: int, w: Book,
                                          r: nat, at: int)
    requires SettleCycle(v, c, c, cp, l, source, now) == Ok(w) && at < now
    ensures StatusAt(w.history, r, at) == StatusAt(v.history, r, at)
  {
    hide ReservedRequests, StatusAt, MarkedReserve, FinalizeEach, StartRedeeming, MarkReserves, MaturedRequests,
         AdmittedBy;
    if 0 < cp.supply {
      MarkingLeaves(v, c, cp, ReservedRequests(v.history, v.reserves, |v.requests|, source));
    }
    var reserved := MarkActiveReserves(v, c, c, cp, source).value;
    var marked := MarkLiquidity(reserved, c, c, cp, l).value;
    StartedHistory(marked, AdmittedBy(marked.requests, source), now, r, at);
    var started := StartRedeeming(marked, AdmittedBy(marked.requests, source), now);
    EachHistory(started, c, cp, MaturedRequests(started.requests, started.reserveMarks, c, c, source), now, r, at);
  }

  // ---------------------------------------------------------------- the close

  /** On a fresh snapshot the reserves never demand more than the value. */
  lemma {:induction false} FreshDemand(b: Book, tick: Positive, input: CloseInput)
    requires Consistent(b) && DistinctTickets(input.tickets) && Fresh(b, input.snapshot.created)
    requires DustBy(b.closings, input.snapshot.created) == 0
    requires Due(b, input, DueCutoff(b, b.clock + tick), b.clock + tick) && Incepted(b, input.snapshot).Ok?
    ensures var nav, supply := NavOf(LiabilityDue(b, DueCutoff(b, b.clock + tick), input)), Supply(b.shareEvents);
            0 <= nav && 0 < supply ==>
              Demand(b.reserves, ReservedThen(b, input.snapshot.created), nav, supply) <= nav
  {
    hide Consistent, Due, Incepted, LiabilityDue, NavOf, DistinctTickets, Fresh, ReservedRequests, Demand, Supply,
         CloseDue, SharesDue;
    InceptionFault(b, input.snapshot);
    CloseEndsBy(b, tick, input);
    CloseFaults(b, tick, input);
  }

  lemma {:induction false} LaterIsFresh(b: Book, at: int)
    requires Consistent(b) && b.clock <= at
    ensures Fresh(b, at)
  {
    hide Linked, Sound, Aligned, ClosingsSound, ReservedSince, QuietSince;
  }

  /** Without deposits to activate, the mints of a close leave its payments as they were. */
  lemma {:induction false} NothingMinted(b: Book, at: int, s: Stages)
    requires Staged(b, at, s) && EligibleDeposits(s.valued.deposits, s.cutoff) == []
    ensures s.active == s.settled && s.settled.deposits == s.valued.deposits
    ensures MaturedTotal(s.settled.payables)
         == MaturedTotal(s.valued.payables) + MaturedAt(s.settled.payables, s.settled.reserveMarks, |b.closings|)
    ensures |b.closings| < |s.valued.checkpoints|
    ensures Supply(s.settled.shareEvents)
         == s.valued.checkpoints[|b.closings|].supply
            - BurnedAt(s.settled.payables, s.settled.reserveMarks, |b.closings|)
  {
    hide Linked, Sound, Collateralized, VaultPaying.PaidExactly, MaturedRequests, Unused, VaultPaying.PaidInOrder,
         SettleCycle, MarkActiveReserves, EligibleDeposits;
  }

  /** The requests of a book as one batch. */
  function Everyone(b: Book): seq<ShareRedemption.RedemptionRequest> {
    BatchOf(b.requests, b.shareEvents, Rows(|b.requests|))
  }

  lemma {:induction false} EveryoneAffords(b: Book, at: int)
    requires Consistent(b) && AllRipe(b, at)
    ensures Everyone(b) != [] && RedemptionBatch.Affordable(Everyone(b), Supply(b.shareEvents))
  {
    SomeRequest(b, at);
    SoundQueue(b);
    forall k | 0 <= k < |b.requests|
      ensures b.requests[Rows(|b.requests|)[k]].status == Redeeming
    {
      assert RipeRequest(b.requests[k], at);
    }
    hide Consistent, AllRipe, QueueSound, LotBook, RedemptionBatch.Affordable, Supply;
    BatchIsAffordable(b.requests, b.reserves, b.shareEvents, b.lots, b.allocations, Rows(|b.requests|));
  }

  lemma {:induction false} SoundQueue(b: Book)
    requires Consistent(b)
    ensures QueueSound(b.requests, b.reserves, b.shareEvents) && LotBook(b.shareEvents, b.lots, b.allocations)
  {
    hide Linked, QueueSound, LotBook, SinceClose, Aligned, ClosingsSound;
  }

  /** What a quiet close leaves that pays everyone. */
  ghost predicate EveryonePaid(b: Book, after: Book, nav: nat, supply: Positive) {
    var batch, matured := Everyone(b), ShareRedemption.SumSingles(Everyone(b), nav, supply);
    && |after.closings| == |b.closings| + 1
    && MaturedTotal(after.payables) == MaturedTotal(b.payables) + matured
    && Supply(after.shareEvents) == supply - RedemptionBatch.SumShares(batch)
    && after.closings[|b.closings|].dust == (if RedemptionBatch.SumShares(batch) == supply then nav - matured else 0)
    && after.closings[|b.closings|].supply == Supply(after.shareEvents)
    && |after.requests| == |b.requests|
    && (forall r :: 0 <= r < |b.requests| ==> after.requests[r].status == Claimable)
  }

  lemma {:induction false} EveryoneFigures(b: Book, at: int, s: Stages, nav: nat, supply: Positive)
    requires Consistent(b) && Staged(b, at, s) && AllRipe(b, at) && |b.cycles| == |b.closings|
    requires EligibleDeposits(s.valued.deposits, s.cutoff) == [] && |b.closings| < |s.valued.checkpoints|
    requires s.valued.checkpoints[|b.closings|].nav == nav && s.valued.checkpoints[|b.closings|].supply == supply
    requires Supply(b.shareEvents) == supply
    requires MaturedRequests(b.requests, s.settled.reserveMarks, |b.closings|, |b.closings|, at) == Rows(|b.requests|)
    ensures EveryonePaid(b, Ended(b, s), nav, supply)
  {
    hide Staged, Sound, Consistent, Ended, AllRipe, Unused, MaturedAt, BurnedAt, MaturedRequests, Everyone,
         VaultPaying.PaidInOrder, VaultBatch.PaidAsBatch, Supply, EligibleDeposits, VaultBatch.DustOf, MaturedTotal,
         RedemptionBatch.SumShares, ShareRedemption.SumSingles;
    var c, payables, marks := |b.closings|, s.settled.payables, s.settled.reserveMarks;
    EndedTables(b, at, s);
    VaultBatch.StagedPayments(b, at, s);
    VaultBatch.EndedPayments(b, at, s);
    NothingMinted(b, at, s);
    AllClaimable(b, at, s);
    VaultBatch.SettledAsBatch(s.valued, payables, marks, c, at, s.now);
    BatchFigures(b, at, payables, s.valued.checkpoints[c], BurnedAt(payables, marks, c), MaturedAt(payables, marks, c),
                 VaultBatch.DustOf(payables, marks, s.valued.checkpoints[c], c));
  }

  lemma {:induction false} BatchFigures(b: Book, at: int, after: seq<Payable>, cp: Checkpoint, burned: int,
                                        matured: int,
                                        dust: int)
    requires Consistent(b) && AllRipe(b, at) && 0 <= cp.nav && cp.supply == Supply(b.shareEvents) && 0 < cp.supply
    requires VaultBatch.PaidAsBatch(b.requests, b.shareEvents, b.payables, after, cp, Rows(|b.requests|), burned,
                                    matured, dust)
    ensures burned == RedemptionBatch.SumShares(Everyone(b))
    ensures matured == ShareRedemption.SumSingles(Everyone(b), cp.nav, cp.supply)
    ensures dust == if burned == cp.supply then cp.nav - matured else 0
  {
    EveryoneAffords(b, at);
    SomeRequest(b, at);
    hide Consistent, AllRipe, RedemptionBatch.Affordable, ShareRedemption.FinalizeRedemptions,
         VaultBatch.PaysAllocations, BatchOf, Supply, RedemptionBatch.SumShares, ShareRedemption.SumSingles;
    RedemptionBatch.BatchPaysEach(cp.nav, cp.supply, Everyone(b));
  }

  lemma {:induction false} AllClaimable(b: Book, at: int, s: Stages)
    requires Staged(b, at, s) && s.valued.requests == b.requests
    requires MaturedRequests(b.requests, s.settled.reserveMarks, |b.closings|, |b.closings|, at) == Rows(|b.requests|)
    ensures |s.settled.requests| == |b.requests|
    ensures forall r :: 0 <= r < |b.requests| ==> s.settled.requests[r].status == Claimable
  {
    hide Linked, Sound, VaultPaying.PaidUp, Collateralized, MaturedRequests, Unused, VaultPaying.PaidInOrder,
         SettleCycle, MarkActiveReserves, ActivateDeposits;
    forall r | 0 <= r < |b.requests|
      ensures s.settled.requests[r].status == Claimable
    {
      assert Rows(|b.requests|)[r] in Rows(|b.requests|);
    }
  }

  /** Closes leave the history of any earlier time as it was. */
  lemma {:induction false} StagedHistory(b: Book, at: int, s: Stages, r: nat, before: int)
    requires Staged(b, at, s) && before < s.now
    ensures StatusAt(s.settled.history, r, before) == StatusAt(b.history, r, before)
  {
    hide Linked, Sound, VaultPaying.PaidUp, Collateralized, VaultPaying.PaidExactly, MaturedRequests, Unused,
         VaultPaying.PaidInOrder, SettleCycle, MarkActiveReserves, ActivateDeposits, StatusAt, SettledFrom;
    var c := |b.closings|;
    SettledHistory(s.valued, c, s.valued.checkpoints[c], s.valued.liabilities[c], at, s.now, s.settled, r, before);
  }

  lemma {:induction false} NothingDue(deposits: seq<Deposit>, cutoff: int, nav: int, supply: int)
    requires EligibleDeposits(deposits, cutoff) == []
    ensures VaultActivating.MintDue(deposits, cutoff, nav, supply) == Ok(map[])
  {
  }

  /** On a fresh snapshot a quiet close with nothing to activate goes through. */
  lemma {:induction false} QuietlyPasses(b: Book, tick: Positive, taken: Snapshot,
                                         recovery: Option<Snapshot>)
    requires Consistent(b) && b.fees == [] && b.inception.Some? && Fresh(b, taken.created) && 0 < Supply(b.shareEvents)
    requires Quiet(taken) && DustBy(b.closings, taken.created) == 0
    requires Due(b, QuietInput(taken, recovery), DueCutoff(b, b.clock + tick), b.clock + tick)
    requires 0 <= QuietNav(b, taken.treasury) && EligibleDeposits(b.deposits, DueCutoff(b, b.clock + tick)) == []
    ensures Incepted(b, taken) == Ok(b)
    ensures QuietPasses(b, DueCutoff(b, b.clock + tick), taken)
  {
    hide Consistent, Due, LiabilityDue, NavOf, Fresh, ReservedRequests, Demand, Supply, EligibleDeposits, PendingTotal,
         MaturedTotal, VaultActivating.MintDue, DueCutoff;
    var cutoff := DueCutoff(b, b.clock + tick);
    QuietTickets(b, 0, 0, 0);
    NothingDue(b.deposits, cutoff, QuietNav(b, taken.treasury), Supply(b.shareEvents));
    FreshDemand(b, tick, QuietInput(taken, recovery));
    QuietLiability(b, cutoff, taken, recovery);
  }

  /** A quiet close on a fresh snapshot, with every request ripe and nothing to activate, pays everyone. */
  lemma {:induction false} PayingClose(b: Book, tick: Positive, taken: Snapshot, recovery: Option<Snapshot>)
      returns (after: Book)
    requires Consistent(b) && b.fees == [] && b.inception.Some? && AllRipe(b, taken.created) && b.clock <= taken.created
    requires Quiet(taken) && NoDust(b.closings)
    requires Due(b, QuietInput(taken, recovery), DueCutoff(b, b.clock + tick), b.clock + tick)
    requires 0 <= QuietNav(b, taken.treasury) && EligibleDeposits(b.deposits, DueCutoff(b, b.clock + tick)) == []
    ensures CloseDue(b, tick, QuietInput(taken, recovery)) == Ok(after) && Consistent(after)
    ensures 0 < Supply(b.shareEvents) && EveryonePaid(b, after, QuietNav(b, taken.treasury), Supply(b.shareEvents))
    ensures after.clock == b.clock + tick && after.fees == [] && after.inception.Some? && after.deposits == b.deposits
    ensures after.closings[..|b.closings|] == b.closings
    ensures after.reserves == b.reserves && |after.cycles| == |after.closings| == |b.cycles| + 1
    ensures after.cycles[|b.cycles|].cutoff == DueCutoff(b, b.clock + tick)
    ensures forall r: nat, at: int :: at < after.clock ==> StatusAt(after.history, r, at) == StatusAt(b.history, r, at)
  {
    hide Consistent, CloseDue, Due, Incepted, DueCutoff, Ended, Staged, Supply, QuietNav, Fresh, AllRipe,
         ReservedRequests, EligibleDeposits, StatusAt, EveryonePaid, QuietPasses, MaturedRequests, Sound;
    AllReserved(b, taken.created);
    LaterIsFresh(b, taken.created);
    NoDustBy(b.closings, taken.created);
    QuietlyPasses(b, tick, taken, recovery);
    var s := QuietCloses(b, tick, taken, recovery);
    VaultBatch.StagedPayments(b, taken.created, s);
    EndedTables(b, taken.created, s);
    after := Ended(b, s);
    NothingMinted(b, taken.created, s);
    AllSound(b, taken.created, s);
    AllMature(b, taken.created, s);
    EveryoneFigures(b, taken.created, s, QuietNav(b, taken.treasury), Supply(b.shareEvents));
    forall r: nat, at: int | at < after.clock
      ensures StatusAt(after.history, r, at) == StatusAt(b.history, r, at)
    {
      StagedHistory(b, taken.created, s, r, at);
    }
  }

  lemma {:induction false} AllSound(b: Book, at: int, s: Stages)
    requires Staged(b, at, s)
    ensures Sound(s.settled, s.now)
  {
    hide Linked, Sound, VaultPaying.PaidUp, Collateralized, VaultPaying.PaidExactly, MaturedRequests, Unused,
         VaultPaying.PaidInOrder, SettleCycle, MarkActiveReserves, ActivateDeposits, SettledFrom;
  }
}
