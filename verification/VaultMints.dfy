/** The rows that a close writes for the deposits that it activates, and the shares that each of them gets. */
module VaultMints {
  import opened Common
  import opened VaultTables
  import opened VaultRows
  import opened VaultSteps
  import opened VaultSharing
  import opened VaultPayments
  import DepositSplit
  import OwnerClaims
  import ShareMint
  import VaultActivating

  // ---------------------------------------------------------------- which deposits

  /** The listed deposits, in order, are those that wait and were due by the cutoff. */
  ghost predicate ListsEligible(deposits: seq<Deposit>, rows: seq<nat>, cutoff: int) {
    && (forall i, j :: 0 <= i < j < |rows| ==> rows[i] < rows[j])
    && (forall i: nat :: i in rows <==>
          i < |deposits| && deposits[i].status == Pending && deposits[i].eligible <= cutoff)
  }

  lemma {:induction false} EligibleAreListed(deposits: seq<Deposit>, cutoff: int)
    ensures ListsEligible(deposits, EligibleDeposits(deposits, cutoff), cutoff)
  {
    var p := (i: nat) => i < |deposits| && deposits[i].status == Pending && deposits[i].eligible <= cutoff;
    SelectOrdered(|deposits|, p);
    forall i: nat | i < |deposits| && deposits[i].status == Pending && deposits[i].eligible <= cutoff
      ensures i in EligibleDeposits(deposits, cutoff)
    {
      SelectComplete(|deposits|, p, i);
    }
  }

  // ---------------------------------------------------------------- which rows

  /** The rows of one activation: a mint with the deposit's amount as its basis, and a lot of the same figures. */
  ghost predicate MintAdded(e: ShareEvent, lot: Lot, mint: nat, d: Deposit, row: nat, c: nat) {
    && e == ShareEvent(MintOf(row), d.user, e.shares, d.amount, c, e.event) && 0 < e.shares
    && lot == Lot(d.user, mint, e.shares, d.amount)
  }

  /** One activation each for the listed deposits, in order, and nothing else. */
  ghost predicate MintsAdded(b: Book, after: Book, rows: seq<nat>, c: nat) {
    && |after.shareEvents| == |b.shareEvents| + |rows| && b.shareEvents <= after.shareEvents
    && |after.lots| == |b.lots| + |rows| && b.lots <= after.lots
    && (forall k :: 0 <= k < |rows| ==>
          && rows[k] < |b.deposits|
          && MintAdded(after.shareEvents[|b.shareEvents| + k], after.lots[|b.lots| + k], |b.shareEvents| + k,
                       b.deposits[rows[k]], rows[k], c))
    && |after.deposits| == |b.deposits|
    && (forall i :: 0 <= i < |b.deposits| ==>
          after.deposits[i] == if i in rows then b.deposits[i].(status := Active(c)) else b.deposits[i])
    && (forall user: nat :: user in after.positions <==>
          user in b.positions || exists k :: 0 <= k < |rows| && rows[k] < |b.deposits|
                                             && b.deposits[rows[k]].user == user)
  }

  lemma {:induction false} OneMintMore(b: Book, middle: Book, init: seq<nat>, row: nat, shares: nat, c: nat)
    requires MintsAdded(b, middle, init, c) && row < |b.deposits| && row !in init && 0 < shares
    ensures MintsAdded(b, AddMint(middle, row, shares, c), init + [row], c)
  {
    hide Seal;
    var after, rows := AddMint(middle, row, shares, c), init + [row];
    var n := |init|;
    assert middle.deposits[row] == b.deposits[row];
    forall k | 0 <= k <= n
      ensures MintAdded(after.shareEvents[|b.shareEvents| + k], after.lots[|b.lots| + k], |b.shareEvents| + k,
                        b.deposits[rows[k]], rows[k], c)
    {
      if k < n {
        assert after.shareEvents[|b.shareEvents| + k] == middle.shareEvents[|b.shareEvents| + k];
        assert after.lots[|b.lots| + k] == middle.lots[|b.lots| + k] && rows[k] == init[k];
      }
    }
    PositionsMore(b, middle.positions, init, row);
  }

  /** Who has a position after one activation more. */
  lemma {:induction false} PositionsMore(b: Book, positions: set<nat>, init: seq<nat>, row: nat)
    requires row < |b.deposits|
    requires forall user: nat :: user in positions <==>
               user in b.positions || exists k :: 0 <= k < |init| && init[k] < |b.deposits|
                                                  && b.deposits[init[k]].user == user
    ensures forall user: nat :: user in positions + {b.deposits[row].user} <==>
              user in b.positions || exists k :: 0 <= k < |init + [row]| && (init + [row])[k] < |b.deposits|
                                                 && b.deposits[(init + [row])[k]].user == user
  {
    var rows := init + [row];
    assert rows[|init|] == row;
    forall user: nat
      ensures user in positions + {b.deposits[row].user} <==>
        user in b.positions || exists k :: 0 <= k < |rows| && rows[k] < |b.deposits| && b.deposits[rows[k]].user == user
    {
      if k :| 0 <= k < |init| && init[k] < |b.deposits| && b.deposits[init[k]].user == user {
        assert rows[k] == init[k];
      }
      if k :| 0 <= k < |rows| && rows[k] < |b.deposits| && b.deposits[rows[k]].user == user {
        assert k < |init| ==> init[k] == rows[k];
      }
    }
  }

  /** The shares of the new mints. */
  ghost predicate SharesAsGiven(b: Book, after: Book, rows: seq<nat>, shares: map<nat, nat>)
    requires |after.shareEvents| == |b.shareEvents| + |rows|
  {
    forall k :: 0 <= k < |rows| ==>
      rows[k] in shares && after.shareEvents[|b.shareEvents| + k].shares == shares[rows[k]]
  }

  lemma {:induction false} NoMints(b: Book, shares: map<nat, nat>, c: nat)
    ensures MintsAdded(b, b, [], c) && SharesAsGiven(b, b, [], shares)
  {
  }

  lemma {:induction false} MintsWritten(b: Book, rows: seq<nat>, shares: map<nat, nat>, c: nat)
    requires Numbers(rows, |b.deposits|) && Distinct(rows) && MintEach(b, rows, shares, c).Ok?
    ensures var after := MintEach(b, rows, shares, c).value;
            MintsAdded(b, after, rows, c) && SharesAsGiven(b, after, rows, shares)
  {
    hide MintsAdded;
    if rows == [] {
      NoMints(b, shares, c);
    } else {
      var init, row := rows[..|rows| - 1], rows[|rows| - 1];
      assert forall i :: 0 <= i < |init| ==> init[i] == rows[i];
      assert rows == init + [row];
      MintsWritten(b, init, shares, c);
      var middle := MintEach(b, init, shares, c).value;
      OneMintMore(b, middle, init, row, shares[row], c);
      MintSizes(b, middle, init, c);
      GivenThen(b, middle, AddMint(middle, row, shares[row], c), init, row, shares);
    }
  }

  lemma {:induction false} MintSizes(b: Book, after: Book, rows: seq<nat>, c: nat)
    requires MintsAdded(b, after, rows, c)
    ensures |after.shareEvents| == |b.shareEvents| + |rows|
  {
  }

  lemma {:induction false} GivenThen(b: Book, middle: Book, after: Book, init: seq<nat>, row: nat,
                                     shares: map<nat, nat>)
    requires |middle.shareEvents| == |b.shareEvents| + |init| && SharesAsGiven(b, middle, init, shares)
    requires |after.shareEvents| == |middle.shareEvents| + 1 && middle.shareEvents <= after.shareEvents
    requires row in shares && after.shareEvents[|middle.shareEvents|].shares == shares[row]
    ensures SharesAsGiven(b, after, init + [row], shares)
  {
    forall k | 0 <= k <= |init|
      ensures after.shareEvents[|b.shareEvents| + k].shares == shares[(init + [row])[k]]
    {
      if k < |init| {
        assert after.shareEvents[|b.shareEvents| + k] == middle.shareEvents[|b.shareEvents| + k];
      }
    }
  }

  // ---------------------------------------------------------------- how many shares

  /** What some share events give a user, and what was deposited for it. */
  function GivenTo(events: seq<ShareEvent>, user: nat): int {
    if events == [] then 0
    else
      var last := events[|events| - 1];
      GivenTo(events[..|events| - 1], user) + (if last.user == user then last.shares else 0)
  }

  function DepositedFor(events: seq<ShareEvent>, user: nat): int {
    if events == [] then 0
    else
      var last := events[|events| - 1];
      DepositedFor(events[..|events| - 1], user) + (if last.user == user then last.basis else 0)
  }

  /**
   Each owner gets what the owner's deposits together are worth at the checkpoint price, rounded down, or one share for
   every dollar when there are no shares yet. Each deposit gets its part of that, rounded down, or one unit more.
   */
  ghost predicate FairlyShared(events: seq<ShareEvent>, nav: int, supply: int) {
    forall k :: 0 <= k < |events| ==>
      var given, deposited := GivenTo(events, events[k].user), DepositedFor(events, events[k].user);
      && (if supply == 0 then given == deposited * 1000000000000
          else RoundsDown(given, deposited * supply, nav))
      && (|| RoundsDown(events[k].shares, given * events[k].basis, deposited)
          || RoundsDown(events[k].shares - 1, given * events[k].basis, deposited))
  }

  /** The mints as the rows and the shares say. */
  ghost predicate MintsOf(events: seq<ShareEvent>, deposits: seq<Deposit>, rows: seq<nat>, shares: map<nat, nat>) {
    && |events| == |rows| && Numbers(rows, |deposits|)
    && forall k :: 0 <= k < |rows| ==>
         && rows[k] in shares && events[k].shares == shares[rows[k]]
         && events[k].user == deposits[rows[k]].user && events[k].basis == deposits[rows[k]].amount
  }

  lemma {:induction false} GivenByRows(events: seq<ShareEvent>, deposits: seq<Deposit>, rows: seq<nat>,
                                       shares: map<nat, nat>, user: nat)
    requires MintsOf(events, deposits, rows, shares)
    ensures GivenTo(events, user) == UserShares(deposits, rows, user, shares)
    ensures DepositedFor(events, user) == OwnerClaims.SumFor(DepositEntries(deposits, rows), user)
  {
    if rows != [] {
      var n := |rows| - 1;
      GivenByRows(events[..n], deposits, rows[..n], shares, user);
      var entries := DepositEntries(deposits, rows);
      assert entries[..n] == DepositEntries(deposits, rows[..n]);
    }
  }

  lemma {:induction false} TotalOfParts(deposits: seq<Deposit>, rows: seq<nat>, user: nat)
    requires Numbers(rows, |deposits|)
    ensures DepositSplit.Total(PartsOf(deposits, rows, user))
         == OwnerClaims.SumFor(DepositEntries(deposits, rows), user)
  {
    if rows != [] {
      var n := |rows| - 1;
      TotalOfParts(deposits, rows[..n], user);
      var entries := DepositEntries(deposits, rows);
      assert entries[..n] == DepositEntries(deposits, rows[..n]);
      var init, d := PartsOf(deposits, rows[..n], user), deposits[rows[n]];
      TotalSnoc(init, DepositSplit.Part(rows[n], d.amount));
      if d.user != user {
        assert init + [] == init;
      }
    }
  }

  lemma {:induction false} TotalSnoc(parts: seq<DepositSplit.Part>, p: DepositSplit.Part)
    ensures DepositSplit.Total(parts + [p]) == DepositSplit.Total(parts) + p.amount
  {
    if parts == [] {
      assert [p][1..] == [] && parts + [p] == [p];
    } else {
      TotalSnoc(parts[1..], p);
      assert (parts + [p])[1..] == parts[1..] + [p];
    }
  }

  lemma {:induction false} PartAt(deposits: seq<Deposit>, rows: seq<nat>, k: nat) returns (j: nat)
    requires Numbers(rows, |deposits|) && k < |rows|
    ensures var parts := PartsOf(deposits, rows, deposits[rows[k]].user);
            j < |parts| && parts[j] == DepositSplit.Part(rows[k], deposits[rows[k]].amount)
  {
    var n := |rows| - 1;
    if k == n {
      j := |PartsOf(deposits, rows[..n], deposits[rows[k]].user)|;
    } else {
      j := PartAt(deposits, rows[..n], k);
    }
  }

  /** A deposit's shares come from the split of its owner's mint. */
  lemma {:induction false} ShareOfRow(deposits: seq<Deposit>, rows: seq<nat>, owners: seq<OwnerClaims.Allocation>,
                                      i: nat, k: nat)
    requires Numbers(rows, |deposits|) && Distinct(rows) && DistinctOwners(owners) && i < |owners| && k < |rows|
    requires owners[i].owner == deposits[rows[k]].user && SharesByDeposit(deposits, rows, owners).Ok?
    ensures var parts := PartsOf(deposits, rows, owners[i].owner);
            && DepositSplit.Splittable(owners[i].amount, parts)
            && rows[k] in DepositSplit.Split(owners[i].amount, parts)
            && rows[k] in SharesByDeposit(deposits, rows, owners).value
            && SharesByDeposit(deposits, rows, owners).value[rows[k]]
               == DepositSplit.Split(owners[i].amount, parts)[rows[k]]
  {
    hide Distinct, PartsOf;
    var n := |owners| - 1;
    var init, last := owners[..n], owners[n];
    if i == n {
      var parts := PartsOf(deposits, rows, last.owner);
      PartsAre(deposits, rows, last.owner);
      var j := PartAt(deposits, rows, k);
      DepositSplit.SplitOfDeposit(last.amount, parts, j);
    } else {
      assert DistinctOwners(init) by {
        assert forall q :: 0 <= q < |init| ==> init[q] == owners[q];
      }
      ShareOfRow(deposits, rows, init, i, k);
      assert owners[i].owner != owners[n].owner;
      if rows[k] in DepositSplit.Split(last.amount, PartsOf(deposits, rows, last.owner)) {
        SplitOwner(deposits, rows, last.owner, last.amount, rows[k]);
      }
    }
  }

  /** What an owner gets for a total, at the price of the checkpoint. */
  lemma {:induction false} OwnersFloor(given: int, deposited: nat, nav: nat, supply: nat)
    requires supply == 0 || 0 < nav
    requires given == deposited * ShareMint.MintMultiplier(supply) / ShareMint.MintDenominator(nav, supply)
    ensures if supply == 0 then given == deposited * 1000000000000 else RoundsDown(given, deposited * supply, nav)
  {
    if supply == 0 {
      FloorExact(deposited * 1000000000000, 1000000);
      assert deposited * 1_000_000_000_000_000_000 == deposited * 1000000000000 * 1000000;
    } else {
      FloorBounds(deposited * supply, nav);
    }
  }

  lemma {:induction false} DepositsPart(shares: nat, given: nat, parts: seq<DepositSplit.Part>, j: nat)
    requires DepositSplit.Splittable(given, parts) && DepositSplit.DistinctIds(parts) && j < |parts|
    requires shares == (DepositSplit.SplitOfDeposit(given, parts, j); DepositSplit.Split(given, parts)[parts[j].id])
    ensures var total := DepositSplit.Total(parts);
            || RoundsDown(shares, given * parts[j].amount, total)
            || RoundsDown(shares - 1, given * parts[j].amount, total)
  {
    DepositSplit.SplitOfDeposit(given, parts, j);
    DepositSplit.TotalPositive(parts);
    FloorBounds(given * parts[j].amount, DepositSplit.Total(parts));
  }

  lemma {:induction false} OneShare(events: seq<ShareEvent>, deposits: seq<Deposit>, rows: seq<nat>, nav: int,
                                    supply: int, k: nat)
    requires Numbers(rows, |deposits|) && Distinct(rows) && k < |rows|
    requires ShareMint.MintShares(nav, supply, DepositEntries(deposits, rows)).Ok?
    requires var owners := ShareMint.MintShares(nav, supply, DepositEntries(deposits, rows)).value.allocations;
             && SharesByDeposit(deposits, rows, owners).Ok?
             && MintsOf(events, deposits, rows, SharesByDeposit(deposits, rows, owners).value)
    ensures var given, deposited := GivenTo(events, events[k].user), DepositedFor(events, events[k].user);
            && (if supply == 0 then given == deposited * 1000000000000
                else RoundsDown(given, deposited * supply, nav))
            && (|| RoundsDown(events[k].shares, given * events[k].basis, deposited)
                || RoundsDown(events[k].shares - 1, given * events[k].basis, deposited))
  {
    hide ShareMint.MintShares, SharesByDeposit, DepositEntries, PartsOf, DepositSplit.Split, RoundsDown, GivenTo,
         DepositedFor, DistinctOwners, Distinct;
    var entries := DepositEntries(deposits, rows);
    var owners := ShareMint.MintShares(nav, supply, entries).value.allocations;
    var shares, user := SharesByDeposit(deposits, rows, owners).value, events[k].user;
    VaultActivating.MintOwners(nav, supply, entries);
    SharesOut(deposits, rows, owners);
    GivenByRows(events, deposits, rows, shares, user);
    TotalOfParts(deposits, rows, user);
    assert Owns(owners, user);
    var i :| 0 <= i < |owners| && owners[i].owner == user;
    ShareMint.MintOfOwner(nav, supply, entries, i);
    PricedAbove(nav, supply, entries);
    OwnersFloor(GivenTo(events, user), DepositedFor(events, user), nav, supply);
    ShareOfRow(deposits, rows, owners, i, k);
    var j := PartAt(deposits, rows, k);
    PartsAre(deposits, rows, user);
    DepositsPart(events[k].shares, owners[i].amount, PartsOf(deposits, rows, user), j);
  }

  lemma {:induction false} PricedAbove(nav: int, supply: int, entries: seq<OwnerClaims.Entry>)
    requires ShareMint.MintShares(nav, supply, entries).Ok?
    ensures 0 <= nav && 0 <= supply && (supply == 0 || 0 < nav)
  {
  }

  /** All activations of a close. */
  lemma {:induction false} ActivationsWritten(b: Book, cutoff: int, c: nat, cp: Checkpoint) returns (rows: seq<nat>)
    requires ActivateDeposits(b, cutoff, c, cp).Ok?
    ensures var after := ActivateDeposits(b, cutoff, c, cp).value;
            && ListsEligible(b.deposits, rows, cutoff) && MintsAdded(b, after, rows, c)
            && |b.shareEvents| <= |after.shareEvents|
            && FairlyShared(after.shareEvents[|b.shareEvents|..], cp.nav, cp.supply)
  {
    hide ShareMint.MintShares, SharesByDeposit, DepositEntries, MintEach, EligibleDeposits, ListsEligible, MintsAdded;
    rows := EligibleDeposits(b.deposits, cutoff);
    EligibleAreListed(b.deposits, cutoff);
    ListedAreDistinct(b.deposits, rows, cutoff);
    if rows == [] {
      NoMints(b, map[], c);
    } else {
      var mint := ShareMint.MintShares(cp.nav, cp.supply, DepositEntries(b.deposits, rows)).value;
      var shares := SharesByDeposit(b.deposits, rows, mint.allocations).value;
      MintsWritten(b, rows, shares, c);
      var after := MintEach(b, rows, shares, c).value;
      MintSizes(b, after, rows, c);
      var events := after.shareEvents[|b.shareEvents|..];
      EventsOfMints(b, after, rows, shares, c);
      forall k | 0 <= k < |events|
        ensures var given, deposited := GivenTo(events, events[k].user), DepositedFor(events, events[k].user);
                && (if cp.supply == 0 then given == deposited * 1000000000000
                    else RoundsDown(given, deposited * cp.supply, cp.nav))
                && (|| RoundsDown(events[k].shares, given * events[k].basis, deposited)
                    || RoundsDown(events[k].shares - 1, given * events[k].basis, deposited))
      {
        OneShare(events, b.deposits, rows, cp.nav, cp.supply, k);
      }
    }
  }

  lemma {:induction false} ListedAreDistinct(deposits: seq<Deposit>, rows: seq<nat>, cutoff: int)
    requires ListsEligible(deposits, rows, cutoff)
    ensures Distinct(rows) && Numbers(rows, |deposits|)
  {
    assert forall i :: 0 <= i < |rows| ==> rows[i] in rows;
  }

  lemma {:induction false} EventsOfMints(b: Book, after: Book, rows: seq<nat>, shares: map<nat, nat>, c: nat)
    requires MintsAdded(b, after, rows, c) && Numbers(rows, |b.deposits|)
    requires |after.shareEvents| == |b.shareEvents| + |rows| && SharesAsGiven(b, after, rows, shares)
    ensures MintsOf(after.shareEvents[|b.shareEvents|..], b.deposits, rows, shares)
  {
    var events := after.shareEvents[|b.shareEvents|..];
    forall k | 0 <= k < |rows|
      ensures rows[k] in shares && events[k].shares == shares[rows[k]]
      ensures events[k].user == b.deposits[rows[k]].user && events[k].basis == b.deposits[rows[k]].amount
    {
      assert events[k] == after.shareEvents[|b.shareEvents| + k];
    }
  }
}
