/** The payments of a cycle beside one redemption batch for the same requests. */
module VaultPayout {
  import opened Common
  import opened VaultTables
  import opened VaultLots
  import opened VaultInvariant
  import opened VaultSteps
  import opened VaultPaying
  import opened RedemptionBatch
  import ShareRedemption

  /** The listed requests as one batch: each owner's shares out of the balance that the owner holds. */
  function BatchOf(requests: seq<Request>, shareEvents: seq<ShareEvent>, rows: seq<nat>)
    : seq<ShareRedemption.RedemptionRequest>
    requires Numbers(rows, |requests|)
  {
    seq(|rows|, k requires 0 <= k < |rows| =>
      ShareRedemption.RedemptionRequest(requests[rows[k]].user, requests[rows[k]].shares,
                                        Balance(shareEvents, requests[rows[k]].user)))
  }

  // ---------------------------------------------------------------- balances of different users

  function UnburnedOfAll(lots: seq<Lot>, allocations: seq<BurnAllocation>, users: seq<nat>, n: nat): int
    requires n <= |lots|
  {
    if users == [] then 0
    else
      UnburnedOfAll(lots, allocations, users[..|users| - 1], n)
      + UnburnedOf(lots, allocations, users[|users| - 1], n)
  }

  lemma {:induction false} OneMoreLot(lots: seq<Lot>, allocations: seq<BurnAllocation>, users: seq<nat>, n: nat)
    requires n < |lots| && Distinct(users)
    ensures UnburnedOfAll(lots, allocations, users, n + 1)
         == UnburnedOfAll(lots, allocations, users, n)
            + (if lots[n].user in users then Unburned(lots, allocations, n) else 0)
  {
    if users != [] {
      var init := users[..|users| - 1];
      OneMoreLot(lots, allocations, init, n);
      assert users == init + [users[|users| - 1]];
    }
  }

  lemma {:induction false} NoLots(lots: seq<Lot>, allocations: seq<BurnAllocation>, users: seq<nat>)
    ensures UnburnedOfAll(lots, allocations, users, 0) == 0
  {
    if users != [] {
      NoLots(lots, allocations, users[..|users| - 1]);
    }
  }

  /** Different users together never hold more than all lots do. */
  lemma {:induction false} UsersWithinLots(lots: seq<Lot>, allocations: seq<BurnAllocation>, users: seq<nat>, n: nat)
    requires n <= |lots| && Distinct(users) && LotsSound(lots, allocations)
    ensures UnburnedOfAll(lots, allocations, users, n) <= UnburnedTotal(lots, allocations, n)
  {
    if n == 0 {
      NoLots(lots, allocations, users);
    } else {
      UsersWithinLots(lots, allocations, users, n - 1);
      OneMoreLot(lots, allocations, users, n - 1);
      assert LotSound(lots[n - 1], LotBurned(allocations, n - 1), LotBasis(allocations, n - 1));
    }
  }

  function UsersOf(requests: seq<Request>, rows: seq<nat>): seq<nat>
    requires Numbers(rows, |requests|)
  {
    seq(|rows|, k requires 0 <= k < |rows| => requests[rows[k]].user)
  }

  lemma {:induction false} BatchHoldings(requests: seq<Request>, shareEvents: seq<ShareEvent>, rows: seq<nat>,
                                         lots: seq<Lot>, allocations: seq<BurnAllocation>)
    requires Numbers(rows, |requests|) && LotBook(shareEvents, lots, allocations)
    ensures SumAvailable(BatchOf(requests, shareEvents, rows))
         == UnburnedOfAll(lots, allocations, UsersOf(requests, rows), |lots|)
  {
    if rows != [] {
      hide LotBook, Balance, UnburnedOf;
      var init, r := rows[..|rows| - 1], rows[|rows| - 1];
      BatchHoldings(requests, shareEvents, init, lots, allocations);
      var batch, users := BatchOf(requests, shareEvents, rows), UsersOf(requests, rows);
      assert batch[..|batch| - 1] == BatchOf(requests, shareEvents, init);
      assert users[..|users| - 1] == UsersOf(requests, init);
      BalanceIsUnburned(shareEvents, lots, allocations, requests[r].user);
    }
  }

  lemma {:induction false} BalanceIsUnburned(shareEvents: seq<ShareEvent>, lots: seq<Lot>,
                                             allocations: seq<BurnAllocation>, user: nat)
    requires LotBook(shareEvents, lots, allocations)
    ensures Balance(shareEvents, user) == UnburnedOf(lots, allocations, user, |lots|)
  {
  }

  lemma {:induction false} UsersAreDistinct(requests: seq<Request>, rows: seq<nat>)
    requires Numbers(rows, |requests|) && OneOpenEach(requests) && Distinct(rows)
    requires forall k :: 0 <= k < |rows| ==> requests[rows[k]].status == Redeeming
    ensures Distinct(UsersOf(requests, rows))
  {
    forall i, j | 0 <= i < j < |rows|
      ensures requests[rows[i]].user != requests[rows[j]].user
    {
      if rows[i] < rows[j] {
        assert Unfinished(requests[rows[i]].status) && Unfinished(requests[rows[j]].status);
      } else {
        assert Unfinished(requests[rows[j]].status) && Unfinished(requests[rows[i]].status);
      }
    }
  }

  /** Requests that are being redeemed make a batch that the supply can pay. */
  lemma {:induction false} BatchIsAffordable(requests: seq<Request>, reserves: seq<Reserve>,
                                             shareEvents: seq<ShareEvent>,
                                          lots: seq<Lot>, allocations: seq<BurnAllocation>, rows: seq<nat>)
    requires QueueSound(requests, reserves, shareEvents) && LotBook(shareEvents, lots, allocations)
    requires Numbers(rows, |requests|) && Distinct(rows)
    requires forall k :: 0 <= k < |rows| ==> requests[rows[k]].status == Redeeming
    ensures Affordable(BatchOf(requests, shareEvents, rows), Supply(shareEvents))
  {
    UsersAreDistinct(requests, rows);
    BatchHoldings(requests, shareEvents, rows, lots, allocations);
    UsersWithinLots(lots, allocations, UsersOf(requests, rows), |lots|);
    hide UnburnedOfAll, SumAvailable;
    forall k | 0 <= k < |rows|
      ensures 0 < requests[rows[k]].shares <= Balance(shareEvents, requests[rows[k]].user) <= Supply(shareEvents)
    {
      assert RequestSound(requests[rows[k]], rows[k], reserves, shareEvents);
      BalanceWithinSupply(shareEvents, lots, allocations, requests[rows[k]].user);
    }
    OneEach(requests, shareEvents, rows);
  }

  lemma {:induction false} OneEach(requests: seq<Request>, shareEvents: seq<ShareEvent>, rows: seq<nat>)
    requires Numbers(rows, |requests|) && Distinct(UsersOf(requests, rows))
    ensures ShareRedemption.OneRequestPerOwner(BatchOf(requests, shareEvents, rows))
  {
    assert forall k :: 0 <= k < |rows| ==> UsersOf(requests, rows)[k] == requests[rows[k]].user;
  }

  // ---------------------------------------------------------------- what was paid, added up

  /** The payables of the cycle add up to what the batch pays and burns. */
  lemma {:induction false} PaymentsAddUp(before: seq<Payable>, after: seq<Payable>,
                                         requests: seq<Request>, marks: seq<ReserveMark>, cp: Checkpoint, cycle: nat,
                                         rows: seq<nat>, shareEvents: seq<ShareEvent>)
    requires PaidInOrder(before, after, requests, marks, cp, cycle, rows) && Numbers(rows, |requests|)
    requires 0 < cp.supply && 0 <= cp.nav
    ensures var batch := BatchOf(requests, shareEvents, rows);
            && MaturedAt(after, marks, cycle)
               == MaturedAt(before, marks, cycle) + ShareRedemption.SumSingles(batch, cp.nav, cp.supply)
            && BurnedAt(after, marks, cycle) == BurnedAt(before, marks, cycle) + SumShares(batch)
    decreases |rows|
  {
    hide Balance;
    if rows == [] {
      assert after == before;
    } else {
      var init, r := rows[..|rows| - 1], rows[|rows| - 1];
      var shorter := after[..|after| - 1];
      PaidInOrderInit(before, after, requests, marks, cp, cycle, rows);
      PaymentsAddUp(before, shorter, requests, marks, cp, cycle, init, shareEvents);
      var batch := BatchOf(requests, shareEvents, rows);
      assert batch[..|batch| - 1] == BatchOf(requests, shareEvents, init);
      assert PaysOut(after[|before| + (|rows| - 1)], requests, marks, cp, cycle, r);
    }
  }

  lemma {:induction false} PaidInOrderInit(before: seq<Payable>, after: seq<Payable>,
                                           requests: seq<Request>, marks: seq<ReserveMark>, cp: Checkpoint, cycle: nat,
                                           rows: seq<nat>)
    requires rows != [] && PaidInOrder(before, after, requests, marks, cp, cycle, rows)
    ensures PaidInOrder(before, after[..|after| - 1], requests, marks, cp, cycle, rows[..|rows| - 1])
  {
    hide PaysOut;
    var shorter, init := after[..|after| - 1], rows[..|rows| - 1];
    assert shorter[..|before|] == after[..|before|];
    forall k | 0 <= k < |init|
      ensures PaysOut(shorter[|before| + k], requests, marks, cp, cycle, init[k])
    {
      assert shorter[|before| + k] == after[|before| + k] && init[k] == rows[k];
    }
  }
}
