/** The rows that a close writes for the requests that it marks and for those that it pays. */
module VaultPayments {
  import opened Common
  import opened VaultTables
  import opened VaultLots
  import opened VaultReplay
  import opened VaultInvariant
  import opened VaultSteps
  import opened VaultReserving
  import opened VaultPaying

  /** `q` is a quotient rounded down. */
  predicate RoundsDown(q: int, dividend: int, divisor: int) {
    q * divisor <= dividend < q * divisor + divisor
  }

  // ---------------------------------------------------------------- which requests are marked

  /** Move `k` is the last one of a request up to a given time. */
  ghost predicate LastMove(history: seq<Move>, r: nat, at: int, k: nat) {
    && k < |history| && history[k].request == r && history[k].at <= at
    && forall j :: k < j < |history| ==> !(history[j].request == r && history[j].at <= at)
  }

  /** Up to a given time the request had been admitted, and not been paid. */
  ghost predicate UnderWay(history: seq<Move>, r: nat, at: int) {
    exists k: nat :: LastMove(history, r, at, k) && history[k].target in {Admitted, Redeeming}
  }

  lemma {:induction false} LastMoveDecides(history: seq<Move>, r: nat, at: int)
    ensures UnderWay(history, r, at) <==> StatusAt(history, r, at).Some? && Reserved(StatusAt(history, r, at).value)
  {
    if history != [] {
      var n := |history| - 1;
      var init, last := history[..n], history[n];
      LastMoveDecides(init, r, at);
      if last.request == r && last.at <= at {
        assert LastMove(history, r, at, n);
      } else {
        forall k: nat
          ensures LastMove(history, r, at, k) <==> LastMove(init, r, at, k)
        {
        }
        if k: nat :| LastMove(init, r, at, k) && init[k].target in {Admitted, Redeeming} {
          assert LastMove(history, r, at, k) && history[k].target in {Admitted, Redeeming};
        }
      }
    }
  }

  ghost predicate HasReserve(reserves: seq<Reserve>, r: nat) {
    exists k :: 0 <= k < |reserves| && reserves[k].request == r
  }

  /** The listed requests, in order, are those under way at the time that have a reserve. */
  ghost predicate ListsReserved(b: Book, rows: seq<nat>, at: int) {
    && (forall i, j :: 0 <= i < j < |rows| ==> rows[i] < rows[j])
    && (forall r: nat :: r in rows <==> r < |b.requests| && UnderWay(b.history, r, at) && HasReserve(b.reserves, r))
  }

  lemma {:induction false} ReserveIsFound(reserves: seq<Reserve>, r: nat)
    ensures ReserveOf(reserves, r).Some? <==> HasReserve(reserves, r)
  {
    if reserves != [] {
      var init := reserves[..|reserves| - 1];
      ReserveIsFound(init, r);
      if k :| 0 <= k < |init| && init[k].request == r {
        assert reserves[k].request == r;
      }
    }
  }

  lemma {:induction false} ReservedAreListed(b: Book, at: int)
    ensures ListsReserved(b, ReservedRequests(b.history, b.reserves, |b.requests|, at), at)
  {
    var p := (r: nat) => ReserveOf(b.reserves, r).Some? && StatusAt(b.history, r, at).Some?
                         && Reserved(StatusAt(b.history, r, at).value);
    var rows := ReservedRequests(b.history, b.reserves, |b.requests|, at);
    SelectOrdered(|b.requests|, p);
    hide UnderWay, StatusAt, ReserveOf, HasReserve;
    forall r: nat
      ensures r in rows <==> r < |b.requests| && UnderWay(b.history, r, at) && HasReserve(b.reserves, r)
    {
      LastMoveDecides(b.history, r, at);
      ReserveIsFound(b.reserves, r);
      if r < |b.requests| && p(r) {
        SelectComplete(|b.requests|, p, r);
      }
    }
  }

  // ---------------------------------------------------------------- marks

  /** One mark each for the listed requests: all their shares, at their worth rounded down. */
  ghost predicate MarksAdded(before: seq<ReserveMark>, after: seq<ReserveMark>, requests: seq<Request>, c: nat,
                             nav: int, supply: int, rows: seq<nat>)
  {
    && |after| == |before| + |rows| && before <= after
    && forall k :: 0 <= k < |rows| ==> MarkAdded(after[|before| + k], requests, c, nav, supply, rows[k])
  }

  predicate MarkAdded(m: ReserveMark, requests: seq<Request>, c: nat, nav: int, supply: int, r: nat) {
    && m.cycle == c && m.checkpoint == c && m.request == r && r < |requests| && m.shares == requests[r].shares
    && RoundsDown(m.amount, requests[r].shares * nav, supply)
  }

  /** What a listed request holds in reserve is what it asked for. */
  ghost predicate Holds(b: Book, rows: seq<nat>) {
    forall i :: 0 <= i < |rows| ==> rows[i] < |b.requests| && Held(b.reserves, rows[i], b.requests[rows[i]].shares)
  }

  lemma {:induction false} OneMarkAdded(b: Book, c: nat, cp: Checkpoint, r: nat)
    requires 0 < cp.supply && r < |b.requests| && Held(b.reserves, r, b.requests[r].shares)
    requires forall k :: 0 <= k < |b.reserveMarks| && b.reserveMarks[k].cycle == c ==> b.reserveMarks[k].request != r
    ensures var after := MarkReserve(b, c, c, cp, r);
            && after == b.(events := after.events, reserveMarks := after.reserveMarks)
            && |after.reserveMarks| == |b.reserveMarks| + 1 && b.reserveMarks <= after.reserveMarks
            && MarkAdded(after.reserveMarks[|b.reserveMarks|], b.requests, c, cp.nav, cp.supply, r)
  {
    MarkMissing(b.reserveMarks, c, r);
    FloorBounds(b.requests[r].shares * cp.nav, cp.supply);
  }

  lemma {:induction false} NotYetMarked(before: seq<ReserveMark>, after: seq<ReserveMark>, requests: seq<Request>,
                                        c: nat, nav: int, supply: int, rows: seq<nat>, r: nat)
    requires MarksAdded(before, after, requests, c, nav, supply, rows) && r !in rows
    requires forall k :: 0 <= k < |before| ==> before[k].cycle != c
    ensures forall k :: 0 <= k < |after| && after[k].cycle == c ==> after[k].request != r
  {
    forall k | 0 <= k < |after| && after[k].cycle == c
      ensures after[k].request != r
    {
      if |before| <= k {
        assert MarkAdded(after[|before| + (k - |before|)], requests, c, nav, supply, rows[k - |before|]);
      }
    }
  }

  lemma {:induction false} MarkThen(before: seq<ReserveMark>, middle: seq<ReserveMark>, after: seq<ReserveMark>,
                                    requests: seq<Request>, c: nat, nav: int, supply: int, init: seq<nat>, r: nat)
    requires MarksAdded(before, middle, requests, c, nav, supply, init)
    requires |after| == |middle| + 1 && middle <= after
    requires MarkAdded(after[|middle|], requests, c, nav, supply, r)
    ensures MarksAdded(before, after, requests, c, nav, supply, init + [r])
  {
    hide MarkAdded;
    forall k | 0 <= k <= |init|
      ensures MarkAdded(after[|before| + k], requests, c, nav, supply, (init + [r])[k])
    {
      if k < |init| {
        assert after[|before| + k] == middle[|before| + k];
      }
    }
  }

  lemma {:induction false} NoMarksAdded(marks: seq<ReserveMark>, requests: seq<Request>, c: nat, nav: int, supply: int)
    ensures MarksAdded(marks, marks, requests, c, nav, supply, [])
  {
  }

  lemma {:induction false} MarksAreAdded(b: Book, c: nat, cp: Checkpoint, rows: seq<nat>)
    requires 0 < cp.supply && Holds(b, rows) && Distinct(rows)
    requires forall k :: 0 <= k < |b.reserveMarks| ==> b.reserveMarks[k].cycle != c
    ensures var after := MarkReserves(b, c, c, cp, rows);
            && after == b.(events := after.events, reserveMarks := after.reserveMarks)
            && MarksAdded(b.reserveMarks, after.reserveMarks, b.requests, c, cp.nav, cp.supply, rows)
  {
    hide MarkReserve, MarkAdded, MarksAdded;
    if rows == [] {
      NoMarksAdded(b.reserveMarks, b.requests, c, cp.nav, cp.supply);
    } else {
      var init, r := rows[..|rows| - 1], rows[|rows| - 1];
      assert forall i :: 0 <= i < |init| ==> init[i] == rows[i];
      assert rows == init + [r];
      MarksAreAdded(b, c, cp, init);
      var middle := MarkReserves(b, c, c, cp, init);
      NotYetMarked(b.reserveMarks, middle.reserveMarks, b.requests, c, cp.nav, cp.supply, init, r);
      OneMarkAdded(middle, c, cp, r);
      MarkThen(b.reserveMarks, middle.reserveMarks, MarkReserves(b, c, c, cp, rows).reserveMarks, b.requests, c, cp.nav,
               cp.supply, init, r);
    }
  }

  // ---------------------------------------------------------------- payments

  /** The rows of one payment: a payable and a burn with the same figures. */
  ghost predicate PaymentAdded(p: Payable, burn: ShareEvent, requests: seq<Request>, c: nat, nav: int, supply: int,
                               r: nat)
  {
    && r < |requests| && p.request == r && p.shares == requests[r].shares
    && RoundsDown(p.amount, requests[r].shares * nav, supply) && 0 <= p.basis
    && burn == ShareEvent(BurnOf(r), requests[r].user, requests[r].shares, p.basis, c, p.event)
  }

  /** What the parts of one burn take from lots, in shares or in cost basis. */
  ghost function TakenBy(parts: seq<BurnAllocation>, burn: nat, basis: bool): int {
    if parts == [] then 0
    else
      var last := parts[|parts| - 1];
      TakenBy(parts[..|parts| - 1], burn, basis)
      + (if last.burn != burn then 0 else if basis then last.part.basis else last.part.burned)
  }

  /** The burn takes its shares, and its basis, from its owner's lots alone. */
  ghost predicate BurnTaken(parts: seq<BurnAllocation>, lots: seq<Lot>, burn: nat, e: ShareEvent) {
    && TakenBy(parts, burn, false) == e.shares && TakenBy(parts, burn, true) == e.basis
    && forall k :: 0 <= k < |parts| && parts[k].burn == burn ==>
         parts[k].part.lot < |lots| && lots[parts[k].part.lot].user == e.user
  }

  /** The parts that were recorded since. */
  function Fresh(before: seq<BurnAllocation>, after: seq<BurnAllocation>): seq<BurnAllocation> {
    if |before| <= |after| then after[|before|..] else []
  }

  /** The two moves of each payment. */
  ghost predicate PaymentMoves(before: seq<Move>, after: seq<Move>, rows: seq<nat>, now: int) {
    && |after| == |before| + 2 * |rows| && before <= after
    && forall k :: 0 <= k < |rows| ==>
         && after[|before| + 2 * k] == Move(rows[k], Some(Redeeming), Finalized, now)
         && after[|before| + 2 * k + 1] == Move(rows[k], Some(Finalized), Claimable, now)
  }

  /** A payable and a burn each for the listed requests, in order. */
  ghost predicate PayablesAdded(b: Book, after: Book, c: nat, nav: int, supply: int, rows: seq<nat>) {
    && |after.payables| == |b.payables| + |rows| && b.payables <= after.payables
    && |after.shareEvents| == |b.shareEvents| + |rows| && b.shareEvents <= after.shareEvents
    && forall k :: 0 <= k < |rows| ==>
         PaymentAdded(after.payables[|b.payables| + k], after.shareEvents[|b.shareEvents| + k], b.requests, c, nav,
                      supply, rows[k])
  }

  /** Every new part belongs to a new burn, and the new burns take what they burn. */
  ghost predicate LotsTaken(b: Book, after: Book) {
    && b.allocations <= after.allocations && |b.shareEvents| <= |after.shareEvents|
    && var parts := Fresh(b.allocations, after.allocations);
       && (forall k :: 0 <= k < |parts| ==> |b.shareEvents| <= parts[k].burn < |after.shareEvents|)
       && (forall n :: |b.shareEvents| <= n < |after.shareEvents| ==>
             BurnTaken(parts, b.lots, n, after.shareEvents[n]))
  }

  lemma {:induction false} TakenConcat(a: seq<BurnAllocation>, more: seq<BurnAllocation>, burn: nat, basis: bool)
    ensures TakenBy(a + more, burn, basis) == TakenBy(a, burn, basis) + TakenBy(more, burn, basis)
  {
    if more == [] {
      assert a + more == a;
    } else {
      TakenConcat(a, more[..|more| - 1], burn, basis);
      assert (a + more)[..|a + more| - 1] == a + more[..|more| - 1];
    }
  }

  lemma {:induction false} NothingTaken(parts: seq<BurnAllocation>, burn: nat, basis: bool)
    requires forall k :: 0 <= k < |parts| ==> parts[k].burn != burn
    ensures TakenBy(parts, burn, basis) == 0
  {
    if parts != [] {
      NothingTaken(parts[..|parts| - 1], burn, basis);
    }
  }

  /** Recording a plan adds its parts, under the burn's number. */
  lemma {:induction false} PartsRecorded(allocations: seq<BurnAllocation>, burn: nat, parts: seq<LotBurn>)
    ensures var after := Recorded(allocations, burn, parts);
            && allocations <= after && |after| == |allocations| + |parts|
            && (forall k :: 0 <= k < |parts| ==> after[|allocations| + k] == BurnAllocation(burn, parts[k]))
  {
    if parts != [] {
      var n := |parts| - 1;
      PartsRecorded(allocations, burn, parts[..n]);
      var middle, after := Recorded(allocations, burn, parts[..n]), Recorded(allocations, burn, parts);
      assert after == middle + [BurnAllocation(burn, parts[n])];
      hide Recorded;
      forall k | 0 <= k < |parts|
        ensures after[|allocations| + k] == BurnAllocation(burn, parts[k])
      {
        if k < n {
          assert after[|allocations| + k] == middle[|allocations| + k];
        }
      }
    }
  }

  lemma {:induction false} RecordedParts(before: seq<BurnAllocation>, allocations: seq<BurnAllocation>, burn: nat,
                                         parts: seq<LotBurn>)
    requires before <= allocations
    ensures var after := Recorded(allocations, burn, parts);
            && before <= after && |after| == |allocations| + |parts|
            && Fresh(before, after) == Fresh(before, allocations) + Fresh(allocations, after)
            && |Fresh(allocations, after)| == |parts|
            && (forall k :: 0 <= k < |parts| ==> Fresh(allocations, after)[k] == BurnAllocation(burn, parts[k]))
  {
    PartsRecorded(allocations, burn, parts);
    hide Recorded;
  }

  lemma {:induction false} PartsTaken(more: seq<BurnAllocation>, burn: nat, parts: seq<LotBurn>)
    requires |more| == |parts| && forall k :: 0 <= k < |parts| ==> more[k] == BurnAllocation(burn, parts[k])
    ensures TakenBy(more, burn, false) == PartShares(parts) && TakenBy(more, burn, true) == PartBasis(parts)
  {
    if parts != [] {
      PartsTaken(more[..|more| - 1], burn, parts[..|parts| - 1]);
    }
  }

  /** One burn more, and the burns before it take what they took. */
  lemma {:induction false} OneBurnTaken(b: Book, middle: Book, after: Book, parts: seq<LotBurn>, e: ShareEvent)
    requires LotsTaken(b, middle) && after.shareEvents == middle.shareEvents + [e]
    requires after.allocations == Recorded(middle.allocations, |middle.shareEvents|, parts)
    requires PartShares(parts) == e.shares && PartBasis(parts) == e.basis
    requires forall k :: 0 <= k < |parts| ==> parts[k].lot < |b.lots| && b.lots[parts[k].lot].user == e.user
    ensures LotsTaken(b, after)
  {
    var burn := |middle.shareEvents|;
    RecordedParts(b.allocations, middle.allocations, burn, parts);
    var earlier, more := Fresh(b.allocations, middle.allocations), Fresh(middle.allocations, after.allocations);
    var all := Fresh(b.allocations, after.allocations);
    assert all == earlier + more;
    hide Recorded, Fresh;
    PartsTaken(more, burn, parts);
    forall n | |b.shareEvents| <= n < |after.shareEvents|
      ensures BurnTaken(all, b.lots, n, after.shareEvents[n])
    {
      TakenConcat(earlier, more, n, false);
      TakenConcat(earlier, more, n, true);
      if n < burn {
        assert BurnTaken(earlier, b.lots, n, middle.shareEvents[n]);
        NothingTaken(more, n, false);
        NothingTaken(more, n, true);
      } else {
        NothingTaken(earlier, n, false);
        NothingTaken(earlier, n, true);
      }
    }
  }

  // ---------------------------------------------------------------- one payment after another

  /** The parts of one burn: its shares and its basis, from its owner's lots. */
  ghost predicate BurnedFrom(parts: seq<LotBurn>, lots: seq<Lot>, e: ShareEvent) {
    && PartShares(parts) == e.shares && PartBasis(parts) == e.basis
    && forall k :: 0 <= k < |parts| ==> parts[k].lot < |lots| && lots[parts[k].lot].user == e.user
  }

  /** What one payment writes. */
  lemma {:induction false} OnePayment(b: Book, c: nat, r: nat, now: int) returns (parts: seq<LotBurn>)
    requires Sound(b, now) && Ripe(b, c, r) && 0 <= b.checkpoints[c].nav
    ensures FinalizeOne(b, c, c, b.checkpoints[c], r, now).Ok?
    ensures var after, cp := FinalizeOne(b, c, c, b.checkpoints[c], r, now).value, b.checkpoints[c];
            && PayablesAdded(b, after, c, cp.nav, cp.supply, [r])
            && after.allocations == Recorded(b.allocations, |b.shareEvents|, parts)
            && BurnedFrom(parts, b.lots, after.shareEvents[|b.shareEvents|])
            && PaymentMoves(b.history, after.history, [r], now)
            && |after.shareEvents| == |b.shareEvents| + 1 && b.shareEvents <= after.shareEvents
  {
    hide LotBook, QueueSound, PayablesSound, MarksSound, CheckpointsSound, DepositsSound, FeesSound, HistorySound,
         BurnsMatched, FinalizeOne, Finalization, PlanBurn, Recorded;
    RipeIsPaid(b, c, r, now);
    var cp, request := b.checkpoints[c], b.requests[r];
    var plan := PlanBurn(b.lots, b.allocations, request.user, request.shares, |b.lots|).value;
    var mark := MarkOf(b.reserveMarks, c, r).value;
    parts := plan.parts;
    FinalizationTables(b, r, mark, Worth(request.shares, cp), plan, c, now);
    FloorBounds(request.shares * cp.nav, cp.supply);
    RipePlan(b, c, r, now);
  }

  /** The plan of a ripe request's burn. */
  lemma {:induction false} RipePlan(b: Book, c: nat, r: nat, now: int)
    requires Sound(b, now) && Ripe(b, c, r)
    ensures var request := b.requests[r];
            var plan := PlanBurn(b.lots, b.allocations, request.user, request.shares, |b.lots|);
            && plan.Ok? && PartShares(plan.value.parts) == request.shares
            && PartBasis(plan.value.parts) == plan.value.basis && 0 <= plan.value.basis
            && (forall k :: 0 <= k < |plan.value.parts| ==>
                  plan.value.parts[k].lot < |b.lots| && b.lots[plan.value.parts[k].lot].user == request.user)
  {
    hide QueueSound, PayablesSound, MarksSound, CheckpointsSound, DepositsSound, FeesSound, HistorySound, BurnsMatched,
         PlanBurn, Balance, Supply;
    QueueIsRequests(b.requests, b.reserves, b.shareEvents);
    RipeWithinSupply(b, c, r);
    var request := b.requests[r];
    PlanIsSound(b.lots, b.allocations, request.user, request.shares, |b.lots|, 0);
  }

  /** A payment after others, in terms of the book before all of them. */
  lemma {:induction false} PayableThen(b: Book, middle: Book, after: Book, c: nat, nav: int, supply: int,
                                       init: seq<nat>, r: nat)
    requires PayablesAdded(b, middle, c, nav, supply, init) && PayablesAdded(middle, after, c, nav, supply, [r])
    requires r < |b.requests| == |middle.requests| && middle.requests[r] == b.requests[r]
    ensures PayablesAdded(b, after, c, nav, supply, init + [r])
  {
    forall k | 0 <= k <= |init|
      ensures PaymentAdded(after.payables[|b.payables| + k], after.shareEvents[|b.shareEvents| + k], b.requests, c, nav,
                           supply, (init + [r])[k])
    {
      if k < |init| {
        assert after.payables[|b.payables| + k] == middle.payables[|b.payables| + k];
        assert after.shareEvents[|b.shareEvents| + k] == middle.shareEvents[|b.shareEvents| + k];
      } else {
        assert PaymentAdded(after.payables[|middle.payables| + 0], after.shareEvents[|middle.shareEvents| + 0],
                            middle.requests, c, nav, supply, [r][0]);
      }
    }
  }

  lemma {:induction false} MovesThen(before: seq<Move>, middle: seq<Move>, after: seq<Move>, init: seq<nat>, r: nat,
                                     now: int)
    requires PaymentMoves(before, middle, init, now) && PaymentMoves(middle, after, [r], now)
    ensures PaymentMoves(before, after, init + [r], now)
  {
    forall k | 0 <= k <= |init|
      ensures after[|before| + 2 * k] == Move((init + [r])[k], Some(Redeeming), Finalized, now)
      ensures after[|before| + 2 * k + 1] == Move((init + [r])[k], Some(Finalized), Claimable, now)
    {
      if k < |init| {
        assert after[|before| + 2 * k] == middle[|before| + 2 * k];
        assert after[|before| + 2 * k + 1] == middle[|before| + 2 * k + 1];
      } else {
        assert after[|middle| + 2 * 0] == Move([r][0], Some(Redeeming), Finalized, now);
      }
    }
  }

  /** All payments of a close. */
  lemma {:induction false} PaymentsWritten(b: Book, c: nat, rows: seq<nat>, before: int, now: int)
    requires Linked(b) && Sound(b, now) && AllRipe(b, c, rows) && PaidUp(b, c, before)
    requires Numbers(rows, |b.requests|) && c < |b.checkpoints| && 0 <= b.checkpoints[c].nav
    ensures FinalizeEach(b, c, c, b.checkpoints[c], rows, now).Ok?
    ensures var after, cp := FinalizeEach(b, c, c, b.checkpoints[c], rows, now).value, b.checkpoints[c];
            && PayablesAdded(b, after, c, cp.nav, cp.supply, rows) && LotsTaken(b, after)
            && PaymentMoves(b.history, after.history, rows, now)
  {
    hide Linked, Sound, FinalizeOne, PaidUp, Ripe, AllRipe, PaidExactly, PaysOut, PaidInOrder, PayablesAdded, LotsTaken,
         PaymentMoves, Recorded, BurnedFrom;
    if rows == [] {
      NoPayments(b, c, now);
    } else {
      var init, r := rows[..|rows| - 1], rows[|rows| - 1];
      RipeApart(b, c, rows);
      PaymentsWritten(b, c, init, before, now);
      var middle := PayAll(b, c, init, before, now);
      StillRipe(b, middle, c, init, r);
      NotPaidYet(b, middle, init, r);
      var parts := OnePayment(middle, c, r, now);
      var after := FinalizeOne(middle, c, c, b.checkpoints[c], r, now).value;
      assert rows == init + [r];
      PayableThen(b, middle, after, c, b.checkpoints[c].nav, b.checkpoints[c].supply, init, r);
      MovesThen(b.history, middle.history, after.history, init, r, now);
      BurnsThen(b, middle, after, parts);
    }
  }

  lemma {:induction false} NoPayments(b: Book, c: nat, now: int)
    requires c < |b.checkpoints|
    ensures PayablesAdded(b, b, c, b.checkpoints[c].nav, b.checkpoints[c].supply, []) && LotsTaken(b, b)
    ensures PaymentMoves(b.history, b.history, [], now)
  {
  }

  lemma {:induction false} NotPaidYet(b: Book, middle: Book, init: seq<nat>, r: nat)
    requires PaidExactly(b.requests, middle.requests, init) && r !in init && r < |b.requests|
    ensures |middle.requests| == |b.requests| && middle.requests[r] == b.requests[r]
  {
  }

  lemma {:induction false} BurnsThen(b: Book, middle: Book, after: Book, parts: seq<LotBurn>)
    requires LotsTaken(b, middle) && middle.lots == b.lots
    requires |after.shareEvents| == |middle.shareEvents| + 1 && middle.shareEvents <= after.shareEvents
    requires after.allocations == Recorded(middle.allocations, |middle.shareEvents|, parts)
    requires BurnedFrom(parts, middle.lots, after.shareEvents[|middle.shareEvents|])
    ensures LotsTaken(b, after)
  {
    hide LotsTaken, Recorded;
    var e := after.shareEvents[|middle.shareEvents|];
    assert after.shareEvents == middle.shareEvents + [e];
    OneBurnTaken(b, middle, after, parts, e);
  }
}
