/** Marking the reserves of the admitted redemptions, and why the vault can always cover them. */
module VaultReserving {
  import opened Common
  import opened VaultTables
  import opened VaultLots
  import opened VaultRows
  import opened VaultReplay
  import opened VaultInvariant
  import opened VaultSteps
  import VaultQueue
  import VaultStepLinks

  // ---------------------------------------------------------------- one mark

  lemma {:induction false} MarkMissing(marks: seq<ReserveMark>, cycle: nat, r: nat)
    ensures MarkOf(marks, cycle, r).None? <==>
      forall k :: 0 <= k < |marks| && marks[k].cycle == cycle ==> marks[k].request != r
  {
    if marks != [] {
      MarkMissing(marks[..|marks| - 1], cycle, r);
    }
  }

  /** What marking the reserves leaves as it was. */
  ghost predicate Reserving(b: Book, after: Book) {
    && after == b.(events := after.events, reserveMarks := after.reserveMarks)
    && |b.reserveMarks| <= |after.reserveMarks| && after.reserveMarks[..|b.reserveMarks|] == b.reserveMarks
  }

  /** The new mark of a held request is sound: its reserve holds exactly the shares that it asked for. */
  lemma {:induction false} NewMarkSound(b: Book, cycle: nat, r: nat)
    requires cycle < |b.checkpoints| && 0 < b.checkpoints[cycle].supply
    requires QueueSound(b.requests, b.reserves, b.shareEvents) && ReserveOf(b.reserves, r).Some?
    ensures var shares, cp := b.reserves[ReserveOf(b.reserves, r).value].shares, b.checkpoints[cycle];
            MarkSound(ReserveMark(cycle, cycle, r, shares, shares * cp.nav / cp.supply, Next(b)), b.requests,
                      b.checkpoints)
  {
    hide Balance;
    assert r < |b.requests|;
    assert RequestSound(b.requests[r], r, b.reserves, b.shareEvents);
  }

  lemma {:induction false} MarksGrow(marks: seq<ReserveMark>, m: ReserveMark, requests: seq<Request>,
                                     checkpoints: seq<Checkpoint>)
    requires MarksSound(marks, requests, checkpoints) && MarkSound(m, requests, checkpoints)
    requires MarkOf(marks, m.cycle, m.request).None?
    ensures MarksSound(marks + [m], requests, checkpoints)
  {
    MarkMissing(marks, m.cycle, m.request);
  }

  lemma {:induction false} MarkReserveSound(b: Book, cycle: nat, r: nat, now: int)
    requires Sound(b, now) && cycle < |b.checkpoints| && 0 < b.checkpoints[cycle].supply
    ensures var after := MarkReserve(b, cycle, cycle, b.checkpoints[cycle], r);
            && Sound(after, now) && Reserving(b, after)
            && (forall k :: |b.reserveMarks| <= k < |after.reserveMarks| ==> after.reserveMarks[k].request == r)
  {
    hide LotBook, QueueSound, MarksSound, PayablesSound, CheckpointsSound, DepositsSound, FeesSound, HistorySound,
         BurnsMatched;
    var after := MarkReserve(b, cycle, cycle, b.checkpoints[cycle], r);
    if after != b {
      var m := after.reserveMarks[|b.reserveMarks|];
      assert after.reserveMarks == b.reserveMarks + [m];
      NewMarkSound(b, cycle, r);
      MarksGrow(b.reserveMarks, m, b.requests, b.checkpoints);
      VaultQueue.PayablesKept(b.payables, b.reserveMarks, after.reserveMarks, b.requests, b.requests);
    }
  }

  /** Every mark added for the cycle is of one of the listed requests. */
  ghost predicate MarksFrom(b: Book, after: Book, requests: seq<nat>) {
    forall k :: |b.reserveMarks| <= k < |after.reserveMarks| ==> after.reserveMarks[k].request in requests
  }

  lemma {:induction false} MarkReservesSound(b: Book, cycle: nat, requests: seq<nat>, now: int)
    requires Linked(b) && Sound(b, now) && cycle < |b.checkpoints| && 0 < b.checkpoints[cycle].supply
    ensures var after := MarkReserves(b, cycle, cycle, b.checkpoints[cycle], requests);
            Linked(after) && Sound(after, now) && Reserving(b, after) && MarksFrom(b, after, requests)
  {
    hide Linked, Sound;
    var cp := b.checkpoints[cycle];
    VaultStepLinks.ReservesLinked(b, cycle, cycle, cp, requests);
    if requests != [] {
      var init, r := requests[..|requests| - 1], requests[|requests| - 1];
      var before, after := MarkReserves(b, cycle, cycle, cp, init), MarkReserves(b, cycle, cycle, cp, requests);
      MarkReservesSound(b, cycle, init, now);
      MarkReserveSound(before, cycle, r, now);
      forall k | |b.reserveMarks| <= k < |after.reserveMarks|
        ensures after.reserveMarks[k].request in requests
      {
        if k < |before.reserveMarks| {
          assert before.reserveMarks[k] == after.reserveMarks[..|before.reserveMarks|][k];
          assert before.reserveMarks[k].request in init;
        }
      }
      assert after.reserveMarks[..|b.reserveMarks|]
          == after.reserveMarks[..|before.reserveMarks|][..|b.reserveMarks|];
    }
  }

  // ---------------------------------------------------------------- the marks against the supply

  /** Floors at one price pay no more than the marked shares are worth. */
  lemma {:induction false} MarksWithinWorth(marks: seq<ReserveMark>, requests: seq<Request>,
                                            checkpoints: seq<Checkpoint>,
                                            cycle: nat)
    requires MarksSound(marks, requests, checkpoints) && cycle < |checkpoints| && 0 <= checkpoints[cycle].nav
    requires forall i :: 0 <= i < |requests| ==> 0 < requests[i].shares
    ensures 0 <= MarkedShares(marks, cycle) && 0 <= MarkedReserve(marks, cycle)
    ensures MarkedReserve(marks, cycle) * checkpoints[cycle].supply
         <= MarkedShares(marks, cycle) * checkpoints[cycle].nav
  {
    if marks != [] {
      var init, m := marks[..|marks| - 1], marks[|marks| - 1];
      MarksWithinWorth(init, requests, checkpoints, cycle);
      assert MarkSound(m, requests, checkpoints);
      if m.cycle == cycle {
        OneMoreWorth(MarkedReserve(init, cycle), MarkedShares(init, cycle), m.shares, checkpoints[cycle].nav,
                     checkpoints[cycle].supply);
      }
    }
  }

  lemma {:induction false} OneMoreWorth(reserve: nat, marked: nat, shares: nat, nav: nat, supply: Positive)
    requires reserve * supply <= marked * nav
    ensures 0 <= shares * nav / supply
    ensures (reserve + shares * nav / supply) * supply <= (marked + shares) * nav
  {
    FloorBounds(shares * nav, supply);
    Distribute(reserve, shares * nav / supply, supply);
    Distribute(marked, shares, nav);
  }

  predicate MarkedFor(m: ReserveMark, requests: seq<Request>, cycle: nat, user: nat) {
    m.cycle == cycle && m.request < |requests| && requests[m.request].user == user
  }

  function MarksFor(marks: seq<ReserveMark>, requests: seq<Request>, cycle: nat, user: nat): nat {
    if marks == [] then 0
    else
      MarksFor(marks[..|marks| - 1], requests, cycle, user)
      + (if MarkedFor(marks[|marks| - 1], requests, cycle, user) then 1 else 0)
  }

  /** What the positions of the cycle's marked requests hold in the first `n` lots. */
  function MarkedHoldings(marks: seq<ReserveMark>, requests: seq<Request>, cycle: nat, lots: seq<Lot>,
                          allocations: seq<BurnAllocation>, n: nat): int
    requires n <= |lots|
  {
    if marks == [] then 0
    else
      var m := marks[|marks| - 1];
      MarkedHoldings(marks[..|marks| - 1], requests, cycle, lots, allocations, n)
      + (if m.cycle == cycle && m.request < |requests|
         then UnburnedOf(lots, allocations, requests[m.request].user, n) else 0)
  }

  lemma {:induction false} NobodyMarked(marks: seq<ReserveMark>, requests: seq<Request>, cycle: nat, user: nat)
    requires forall k :: 0 <= k < |marks| ==> !MarkedFor(marks[k], requests, cycle, user)
    ensures MarksFor(marks, requests, cycle, user) == 0
  {
    if marks != [] {
      NobodyMarked(marks[..|marks| - 1], requests, cycle, user);
    }
  }

  /** The cycle's marks are all of requests that are being redeemed. */
  ghost predicate MarksOpen(marks: seq<ReserveMark>, requests: seq<Request>, cycle: nat) {
    && (forall k :: 0 <= k < |marks| && marks[k].cycle == cycle ==>
          marks[k].request < |requests| && requests[marks[k].request].status == Redeeming)
    && (forall j, k :: 0 <= j < k < |marks| && marks[j].cycle == cycle == marks[k].cycle ==>
          marks[j].request != marks[k].request)
  }

  /** A position has one open request at most, so one mark at most. */
  lemma {:induction false} OneMarkEach(marks: seq<ReserveMark>, requests: seq<Request>, cycle: nat, user: nat)
    requires MarksOpen(marks, requests, cycle) && OneOpenEach(requests)
    ensures MarksFor(marks, requests, cycle, user) <= 1
  {
    if marks != [] {
      var init, m := marks[..|marks| - 1], marks[|marks| - 1];
      if MarkedFor(m, requests, cycle, user) {
        forall k | 0 <= k < |init|
          ensures !MarkedFor(init[k], requests, cycle, user)
        {
          if init[k].cycle == cycle {
            assert marks[k].request != m.request;
            assert Unfinished(requests[marks[k].request].status) && Unfinished(requests[m.request].status);
          }
        }
        NobodyMarked(init, requests, cycle, user);
      } else {
        OneMarkEach(init, requests, cycle, user);
      }
    }
  }

  lemma {:induction false} HoldingsOneLotMore(marks: seq<ReserveMark>, requests: seq<Request>, cycle: nat,
                                              lots: seq<Lot>, allocations: seq<BurnAllocation>, n: nat)
    requires n < |lots|
    ensures MarkedHoldings(marks, requests, cycle, lots, allocations, n + 1)
         == MarkedHoldings(marks, requests, cycle, lots, allocations, n)
            + MarksFor(marks, requests, cycle, lots[n].user) * Unburned(lots, allocations, n)
  {
    if marks != [] {
      var init, m := marks[..|marks| - 1], marks[|marks| - 1];
      HoldingsOneLotMore(init, requests, cycle, lots, allocations, n);
      Distribute(MarksFor(init, requests, cycle, lots[n].user),
                 if MarkedFor(m, requests, cycle, lots[n].user) then 1 else 0, Unburned(lots, allocations, n));
    }
  }

  lemma {:induction false} HoldingsFromNothing(marks: seq<ReserveMark>, requests: seq<Request>, cycle: nat,
                                               lots: seq<Lot>, allocations: seq<BurnAllocation>)
    ensures MarkedHoldings(marks, requests, cycle, lots, allocations, 0) == 0
  {
    if marks != [] {
      HoldingsFromNothing(marks[..|marks| - 1], requests, cycle, lots, allocations);
    }
  }

  lemma {:induction false} HoldingsWithinTotal(marks: seq<ReserveMark>, requests: seq<Request>, cycle: nat,
                                               lots: seq<Lot>, allocations: seq<BurnAllocation>, n: nat)
    requires n <= |lots| && LotsSound(lots, allocations)
    requires MarksOpen(marks, requests, cycle) && OneOpenEach(requests)
    ensures MarkedHoldings(marks, requests, cycle, lots, allocations, n) <= UnburnedTotal(lots, allocations, n)
  {
    hide LotsSound, MarksOpen, OneOpenEach;
    if n == 0 {
      HoldingsFromNothing(marks, requests, cycle, lots, allocations);
    } else {
      HoldingsWithinTotal(marks, requests, cycle, lots, allocations, n - 1);
      HoldingsOneLotMore(marks, requests, cycle, lots, allocations, n - 1);
      OneMarkEach(marks, requests, cycle, lots[n - 1].user);
      AvailableSign(lots, allocations, n - 1);
      MulMono(MarksFor(marks, requests, cycle, lots[n - 1].user), 1, Unburned(lots, allocations, n - 1));
    }
  }

  lemma {:induction false} SharesWithinHoldings(marks: seq<ReserveMark>, b: Book, cycle: nat)
    requires MarksSound(marks, b.requests, b.checkpoints) && MarksOpen(marks, b.requests, cycle)
    requires RequestsSound(b.requests, b.reserves, b.shareEvents)
    requires forall user: nat :: Balance(b.shareEvents, user) == UnburnedOf(b.lots, b.allocations, user, |b.lots|)
    ensures MarkedShares(marks, cycle)
         <= MarkedHoldings(marks, b.requests, cycle, b.lots, b.allocations, |b.lots|)
  {
    if marks != [] {
      var init, m := marks[..|marks| - 1], marks[|marks| - 1];
      SharesWithinHoldings(init, b, cycle);
      assert MarkSound(m, b.requests, b.checkpoints);
      assert RequestSound(b.requests[m.request], m.request, b.reserves, b.shareEvents);
    }
  }

  /** The marked shares of open requests never exceed the supply. */
  lemma {:induction false} MarkedWithinSupply(b: Book, cycle: nat, now: int)
    requires Sound(b, now) && MarksOpen(b.reserveMarks, b.requests, cycle)
    ensures MarkedShares(b.reserveMarks, cycle) <= Supply(b.shareEvents)
  {
    hide MarksSound, PayablesSound, CheckpointsSound, DepositsSound, FeesSound, HistorySound, BurnsMatched,
         RequestsSound, OneOpenEach, LotsSound;
    SharesWithinHoldings(b.reserveMarks, b, cycle);
    HoldingsWithinTotal(b.reserveMarks, b.requests, cycle, b.lots, b.allocations, |b.lots|);
  }
}
