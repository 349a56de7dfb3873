/** Activating the eligible deposits: what is minted is never worth more than what was deposited. */
module VaultActivating {
  import opened Common
  import opened VaultTables
  import opened VaultRows
  import opened VaultReplay
  import opened VaultInvariant
  import opened VaultSteps
  import opened VaultSharing
  import OwnerClaims
  import ShareMint
  import VaultConsistency
  import VaultLinks
  import VaultQueue

  // ---------------------------------------------------------------- one deposit

  /** What minting leaves as it was. */
  ghost predicate Minting(b: Book, after: Book) {
    after == b.(events := after.events, positions := after.positions, shareEvents := after.shareEvents,
                lots := after.lots, deposits := after.deposits)
  }

  lemma {:induction false} MintSound(b: Book, i: nat, shares: int, checkpoint: nat, now: int)
    requires Sound(b, now) && i < |b.deposits| && 0 < shares && checkpoint < |b.checkpoints|
    ensures Sound(AddMint(b, i, shares, checkpoint), now) && Minting(b, AddMint(b, i, shares, checkpoint))
    ensures Supply(AddMint(b, i, shares, checkpoint).shareEvents) == Supply(b.shareEvents) + shares
  {
    hide LotBook, QueueSound, MarksSound, PayablesSound, CheckpointsSound, FeesSound, HistorySound, BurnsMatched;
    var after := AddMint(b, i, shares, checkpoint);
    var mint, lot := after.shareEvents[|b.shareEvents|], after.lots[|b.lots|];
    MintKeepsLots(b.shareEvents, b.lots, b.allocations, mint, lot);
    VaultQueue.QueueAfterMint(b.requests, b.reserves, b.shareEvents, mint);
    MintMatched(b.shareEvents, b.payables, mint);
  }

  lemma {:induction false} ActivateOne(deposits: seq<Deposit>, i: nat, checkpoint: nat, version: nat)
    requires i < |deposits| && deposits[i].status == Pending
    ensures var after := deposits[i := deposits[i].(status := Active(checkpoint))];
            && PendingTotal(after) == PendingTotal(deposits) - deposits[i].amount
            && ActivatedAt(after, checkpoint) == ActivatedAt(deposits, checkpoint) + deposits[i].amount
            && VaultConsistency.DepositedSince(after, version) == VaultConsistency.DepositedSince(deposits, version)
  {
    var last := |deposits| - 1;
    var after := deposits[i := deposits[i].(status := Active(checkpoint))];
    if i < last {
      ActivateOne(deposits[..last], i, checkpoint, version);
      assert after[..last] == deposits[..last][i := deposits[i].(status := Active(checkpoint))];
    } else {
      assert after[..last] == deposits[..last];
    }
  }

  // ---------------------------------------------------------------- all of them

  function SumDeposits(deposits: seq<Deposit>, rows: seq<nat>): int
    requires Numbers(rows, |deposits|)
  {
    if rows == [] then 0
    else SumDeposits(deposits, rows[..|rows| - 1]) + deposits[rows[|rows| - 1]].amount
  }

  /** The listed deposits are active at the checkpoint; no other has changed. */
  ghost predicate ActivatedExactly(before: seq<Deposit>, after: seq<Deposit>, rows: seq<nat>, checkpoint: nat) {
    && |after| == |before|
    && (forall i :: 0 <= i < |before| ==>
          after[i] == if i in rows then before[i].(status := Active(checkpoint)) else before[i])
  }

  /** What activating the listed deposits does to the sums. */
  ghost predicate Activated(b: Book, after: Book, rows: seq<nat>, shares: map<nat, nat>, checkpoint: nat)
    requires Numbers(rows, |b.deposits|)
  {
    && Supply(after.shareEvents) == Supply(b.shareEvents) + SumShares(rows, shares)
    && ActivatedAt(after.deposits, checkpoint) == ActivatedAt(b.deposits, checkpoint) + SumDeposits(b.deposits, rows)
    && PendingTotal(after.deposits) == PendingTotal(b.deposits) - SumDeposits(b.deposits, rows)
    && (forall version: nat :: VaultConsistency.DepositedSince(after.deposits, version)
                            == VaultConsistency.DepositedSince(b.deposits, version))
  }

  ghost predicate AllWaiting(deposits: seq<Deposit>, rows: seq<nat>)
    requires Numbers(rows, |deposits|)
  {
    Distinct(rows) && forall i :: 0 <= i < |rows| ==> deposits[rows[i]].status == Pending
  }

  lemma {:induction false} ExactlyOneMore(before: seq<Deposit>, middle: seq<Deposit>, rows: seq<nat>, checkpoint: nat)
    requires rows != [] && Numbers(rows, |before|) && AllWaiting(before, rows)
    requires ActivatedExactly(before, middle, rows[..|rows| - 1], checkpoint)
    ensures var row := rows[|rows| - 1];
            && |middle| == |before| && middle[row] == before[row] && before[row].status == Pending
            && ActivatedExactly(before, middle[row := middle[row].(status := Active(checkpoint))], rows, checkpoint)
  {
    var init, row := rows[..|rows| - 1], rows[|rows| - 1];
    assert row !in init;
    assert forall q :: q in rows <==> q in init || q == row;
  }

  lemma {:induction false} ActivatedStep(b: Book, middle: Book, rows: seq<nat>, shares: map<nat, nat>, checkpoint: nat)
    requires rows != [] && Numbers(rows, |b.deposits|) && AllWaiting(b.deposits, rows)
    requires var init, row := rows[..|rows| - 1], rows[|rows| - 1];
             && ActivatedExactly(b.deposits, middle.deposits, init, checkpoint)
             && Activated(b, middle, init, shares, checkpoint)
             && row in shares && 0 < shares[row]
    ensures var row := rows[|rows| - 1];
            var after := AddMint(middle, row, shares[row], checkpoint);
            ActivatedExactly(b.deposits, after.deposits, rows, checkpoint)
            && Activated(b, after, rows, shares, checkpoint)
  {
    hide Balance;
    var init, row := rows[..|rows| - 1], rows[|rows| - 1];
    ExactlyOneMore(b.deposits, middle.deposits, rows, checkpoint);
    hide ActivatedExactly, AllWaiting;
    var after := AddMint(middle, row, shares[row], checkpoint);
    OneMoreShareEvent(middle.shareEvents, after.shareEvents[|middle.shareEvents|], 0);
    forall version: nat
      ensures VaultConsistency.DepositedSince(after.deposits, version)
           == VaultConsistency.DepositedSince(b.deposits, version)
    {
      ActivateOne(middle.deposits, row, checkpoint, version);
    }
    ActivateOne(middle.deposits, row, checkpoint, 0);
  }

  lemma {:induction false} ActivatedNone(b: Book, shares: map<nat, nat>, checkpoint: nat)
    ensures ActivatedExactly(b.deposits, b.deposits, [], checkpoint) && Activated(b, b, [], shares, checkpoint)
  {
  }

  lemma {:induction false} WaitingPrefix(deposits: seq<Deposit>, rows: seq<nat>)
    requires rows != [] && Numbers(rows, |deposits|) && AllWaiting(deposits, rows)
    ensures Numbers(rows[..|rows| - 1], |deposits|) && AllWaiting(deposits, rows[..|rows| - 1])
  {
    var init := rows[..|rows| - 1];
    assert forall i :: 0 <= i < |init| ==> init[i] == rows[i];
  }

  /** Every listed deposit gets a mint of its own, and each of them a share at least. */
  lemma {:induction false} MintAll(b: Book, rows: seq<nat>, shares: map<nat, nat>, checkpoint: nat, now: int)
    requires Linked(b) && Sound(b, now) && checkpoint < |b.checkpoints|
    requires Numbers(rows, |b.deposits|) && AllWaiting(b.deposits, rows) && MintEach(b, rows, shares, checkpoint).Ok?
    ensures var after := MintEach(b, rows, shares, checkpoint).value;
            && Linked(after) && Sound(after, now) && Minting(b, after)
            && ActivatedExactly(b.deposits, after.deposits, rows, checkpoint)
            && Activated(b, after, rows, shares, checkpoint)
    ensures forall i :: 0 <= i < |rows| ==> rows[i] in shares
  {
    hide Linked, Sound, AllWaiting, ActivatedExactly, Activated;
    if rows == [] {
      ActivatedNone(b, shares, checkpoint);
    } else {
      var init, row := rows[..|rows| - 1], rows[|rows| - 1];
      WaitingPrefix(b.deposits, rows);
      MintAll(b, init, shares, checkpoint, now);
      var middle := MintEach(b, init, shares, checkpoint).value;
      MintSound(middle, row, shares[row], checkpoint, now);
      VaultLinks.MintLinked(middle, row, shares[row], checkpoint);
      ActivatedStep(b, middle, rows, shares, checkpoint);
      forall i | 0 <= i < |rows|
        ensures rows[i] in shares
      {
        assert i < |init| ==> init[i] == rows[i];
      }
    }
  }

  // ---------------------------------------------------------------- at one fair price

  lemma {:induction false} EntriesSum(deposits: seq<Deposit>, rows: seq<nat>)
    requires Numbers(rows, |deposits|)
    ensures OwnerClaims.SumAll(DepositEntries(deposits, rows)) == SumDeposits(deposits, rows)
  {
    if rows != [] {
      var init := rows[..|rows| - 1];
      EntriesSum(deposits, init);
      var entries := DepositEntries(deposits, rows);
      assert entries[..|entries| - 1] == DepositEntries(deposits, init);
    }
  }

  lemma {:induction false} AllocationsSum(claims: seq<OwnerClaims.Claim>, multiplier: nat, denominator: Positive)
    ensures SumAmounts(OwnerClaims.AllocateIdentityFloors(claims, multiplier, denominator).allocations)
         == OwnerClaims.SumFloors(claims, multiplier, denominator)
    decreases |claims|
  {
    if claims != [] {
      var rest := claims[1..];
      AllocationsSum(rest, multiplier, denominator);
      var all := OwnerClaims.AllocateIdentityFloors(claims, multiplier, denominator).allocations;
      var tail := OwnerClaims.AllocateIdentityFloors(rest, multiplier, denominator).allocations;
      assert all == [all[0]] + tail;
      AmountsCons(all[0], tail);
    }
  }

  lemma {:induction false} AmountsCons(a: OwnerClaims.Allocation, s: seq<OwnerClaims.Allocation>)
    ensures SumAmounts([a] + s) == a.amount + SumAmounts(s)
  {
    if s == [] {
      assert [a] + s == [a] && [a][..0] == [];
    } else {
      AmountsCons(a, s[..|s| - 1]);
      assert ([a] + s)[..|s|] == [a] + s[..|s| - 1];
    }
  }

  lemma {:induction false} ClaimsApart(claims: seq<OwnerClaims.Claim>, multiplier: nat, denominator: Positive)
    requires forall i, j :: 0 <= i < j < |claims| ==> claims[i].owner < claims[j].owner
    ensures DistinctOwners(OwnerClaims.AllocateIdentityFloors(claims, multiplier, denominator).allocations)
  {
    var owners := OwnerClaims.AllocateIdentityFloors(claims, multiplier, denominator).allocations;
    forall i, j | 0 <= i < j < |owners|
      ensures owners[i].owner != owners[j].owner
    {
      assert claims[i].owner < claims[j].owner;
    }
  }

  /** The owners of a successful mint are distinct, each gets shares, and together they get all of them. */
  lemma {:induction false} MintOwners(nav: int, supply: int, deposits: seq<OwnerClaims.Entry>)
    requires ShareMint.MintShares(nav, supply, deposits).Ok?
    ensures var mint := ShareMint.MintShares(nav, supply, deposits).value;
            && DistinctOwners(mint.allocations) && SumAmounts(mint.allocations) == mint.totalMinted
            && (forall i :: 0 <= i < |mint.allocations| ==>
                  0 < mint.allocations[i].amount && mint.allocations[i].owner in OwnerClaims.Owners(deposits))
  {
    hide SumAmounts, OwnerClaims.SumFloors, OwnerClaims.SumWeights, DistinctOwners;
    var totals := OwnerClaims.Totals(deposits);
    var claims := OwnerClaims.ClaimsOf(totals);
    OwnerClaims.ClaimsOfMap(totals);
    AllocationsSum(claims, ShareMint.MintMultiplier(supply), ShareMint.MintDenominator(nav, supply));
    ClaimsApart(claims, ShareMint.MintMultiplier(supply), ShareMint.MintDenominator(nav, supply));
  }

  lemma {:induction false} EligibleAreWaiting(deposits: seq<Deposit>, cutoff: int)
    ensures AllWaiting(deposits, EligibleDeposits(deposits, cutoff))
  {
    SelectOrdered(|deposits|, (i: nat) => i < |deposits| && deposits[i].status == Pending
    && deposits[i].eligible <= cutoff);
  }

  /** What an activation that succeeds promises. */
  ghost predicate FairlyActivated(b: Book, after: Book, checkpoint: nat, cp: Checkpoint) {
    var minted := Supply(after.shareEvents) - Supply(b.shareEvents);
    var activated := ActivatedAt(after.deposits, checkpoint) - ActivatedAt(b.deposits, checkpoint);
    && 0 <= minted && 0 <= activated && (minted == 0 ==> activated == 0)
    && minted * cp.nav <= activated * cp.supply
    && PendingTotal(after.deposits) == PendingTotal(b.deposits) - activated
    && (forall version: nat :: VaultConsistency.DepositedSince(after.deposits, version)
                            == VaultConsistency.DepositedSince(b.deposits, version))
  }

  lemma {:induction false} DepositsSign(deposits: seq<Deposit>, rows: seq<nat>, checkpoints: nat)
    requires Numbers(rows, |deposits|) && DepositsSound(deposits, checkpoints)
    ensures 0 <= SumDeposits(deposits, rows)
  {
    if rows != [] {
      DepositsSign(deposits, rows[..|rows| - 1], checkpoints);
    }
  }

  lemma {:induction false} ActivationFair(b: Book, cutoff: int, checkpoint: nat, cp: Checkpoint, now: int)
    requires Linked(b) && Sound(b, now) && checkpoint < |b.checkpoints|
    requires ActivateDeposits(b, cutoff, checkpoint, cp).Ok?
    ensures var after := ActivateDeposits(b, cutoff, checkpoint, cp).value;
            Linked(after) && Sound(after, now) && Minting(b, after) && FairlyActivated(b, after, checkpoint, cp)
  {
    hide Linked, LotBook, QueueSound, MarksSound, PayablesSound, CheckpointsSound, FeesSound, HistorySound,
         BurnsMatched, ShareMint.MintShares, SharesByDeposit, MintEach, AllWaiting, DepositEntries, EligibleDeposits;
    var rows := EligibleDeposits(b.deposits, cutoff);
    EligibleAreWaiting(b.deposits, cutoff);
    if rows != [] {
      var entries := DepositEntries(b.deposits, rows);
      var mint := ShareMint.MintShares(cp.nav, cp.supply, entries).value;
      var shares := SharesByDeposit(b.deposits, rows, mint.allocations).value;
      ShareMint.MintIsFair(cp.nav, cp.supply, entries);
      MintOwners(cp.nav, cp.supply, entries);
      MintAll(b, rows, shares, checkpoint, now);
      WaitingAreDistinct(b.deposits, rows);
      SharesConserve(b.deposits, rows, mint.allocations, shares);
      EntriesSum(b.deposits, rows);
      DepositsSign(b.deposits, rows, |b.checkpoints|);
    }
  }

  lemma {:induction false} WaitingAreDistinct(deposits: seq<Deposit>, rows: seq<nat>)
    requires Numbers(rows, |deposits|) && AllWaiting(deposits, rows)
    ensures Distinct(rows)
  {
  }

  // ---------------------------------------------------------------- how it can fail

  lemma {:induction false} OwnerHasParts(deposits: seq<Deposit>, rows: seq<nat>, user: nat)
    requires Numbers(rows, |deposits|) && user in OwnerClaims.Owners(DepositEntries(deposits, rows))
    ensures PartsOf(deposits, rows, user) != []
  {
    var init := rows[..|rows| - 1];
    var entries := DepositEntries(deposits, rows);
    if deposits[rows[|rows| - 1]].user != user {
      var i :| 0 <= i < |entries| && entries[i].owner == user;
      assert DepositEntries(deposits, init)[i].owner == user;
      OwnerHasParts(deposits, init, user);
    }
  }

  /** An activation can only fail on the price or on an amount too small for a share. */
  predicate ActivationFault(fault: VaultSteps.Fault) {
    || fault == Shares(OwnerClaims.DepositAtZeroSharePrice) || fault == Shares(OwnerClaims.MintsZeroShares)
    || fault == Shares(OwnerClaims.OwnerMintsZeroShares) || fault == DepositMintsZeroShares
  }

  lemma {:induction false} MintFaults(nav: int, supply: int, deposits: seq<OwnerClaims.Entry>)
    requires 0 <= nav && 0 <= supply && (supply == 0 ==> nav == 0)
    requires deposits != [] && OwnerClaims.AllPositive(deposits)
    ensures ShareMint.MintShares(nav, supply, deposits).Err? ==>
      ActivationFault(Shares(ShareMint.MintShares(nav, supply, deposits).error))
  {
  }

  lemma {:induction false} MintEachFaults(b: Book, rows: seq<nat>, shares: map<nat, nat>, checkpoint: nat)
    requires Numbers(rows, |b.deposits|)
    ensures MintEach(b, rows, shares, checkpoint).Err? ==>
      MintEach(b, rows, shares, checkpoint).error == DepositMintsZeroShares
  {
    if rows != [] {
      MintEachFaults(b, rows[..|rows| - 1], shares, checkpoint);
    }
  }

  lemma {:induction false} ActivationFaults(b: Book, cutoff: int, checkpoint: nat, cp: Checkpoint)
    requires DepositsSound(b.deposits, |b.checkpoints|)
    requires 0 <= cp.nav && 0 <= cp.supply && (cp.supply == 0 ==> cp.nav == 0)
    ensures var r := ActivateDeposits(b, cutoff, checkpoint, cp);
            r.Err? ==> ActivationFault(r.error)
  {
    hide ShareMint.MintShares, SharesByDeposit, MintEach;
    var rows := EligibleDeposits(b.deposits, cutoff);
    EligibleAreWaiting(b.deposits, cutoff);
    if rows != [] {
      var entries := DepositEntries(b.deposits, rows);
      MintFaults(cp.nav, cp.supply, entries);
      var mint := ShareMint.MintShares(cp.nav, cp.supply, entries);
      if mint.Ok? {
        var owners := mint.value.allocations;
        MintOwners(cp.nav, cp.supply, entries);
        forall i | 0 <= i < |owners|
          ensures PartsOf(b.deposits, rows, owners[i].owner) != []
        {
          OwnerHasParts(b.deposits, rows, owners[i].owner);
        }
        AlwaysSplits(b.deposits, rows, owners);
        MintEachFaults(b, rows, SharesByDeposit(b.deposits, rows, owners).value, checkpoint);
      }
    }
  }

  // ---------------------------------------------------------------- what decides an activation

  predicate AllShared(rows: seq<nat>, shares: map<nat, nat>) {
    forall k :: 0 <= k < |rows| ==> rows[k] in shares && shares[rows[k]] != 0
  }

  /** The shares that the eligible deposits would be given at a price, or why they would not. */
  ghost function MintDue(deposits: seq<Deposit>, cutoff: int, nav: int, supply: int)
    : Result<map<nat, nat>, VaultSteps.Fault>
  {
    var rows := EligibleDeposits(deposits, cutoff);
    if rows == [] then Ok(map[])
    else
      match ShareMint.MintShares(nav, supply, DepositEntries(deposits, rows))
      case Err(fault) => Err(Shares(fault))
      case Ok(mint) =>
        match SharesByDeposit(deposits, rows, mint.allocations)
        case Err(fault) => Err(fault)
        case Ok(shares) => if AllShared(rows, shares) then Ok(shares) else Err(DepositMintsZeroShares)
  }

  lemma {:induction false} MintsWhenShared(b: Book, rows: seq<nat>, shares: map<nat, nat>, checkpoint: nat)
    requires Numbers(rows, |b.deposits|)
    ensures var r := MintEach(b, rows, shares, checkpoint);
            (r.Ok? <==> AllShared(rows, shares)) && (r.Err? ==> r.error == DepositMintsZeroShares)
  {
    if rows != [] {
      var init := rows[..|rows| - 1];
      MintsWhenShared(b, init, shares, checkpoint);
      assert rows == init + [rows[|rows| - 1]];
    }
  }

  /** The price and the eligible deposits alone decide whether activation goes through. */
  lemma {:induction false} ActivatesBy(b: Book, cutoff: int, checkpoint: nat, cp: Checkpoint)
    ensures var r, due := ActivateDeposits(b, cutoff, checkpoint, cp), MintDue(b.deposits, cutoff, cp.nav, cp.supply);
            && (r.Ok? <==> due.Ok?) && (r.Err? ==> r.error == due.error)
            && (r.Ok? ==> r == MintEach(b, EligibleDeposits(b.deposits, cutoff), due.value, checkpoint))
  {
    hide ShareMint.MintShares, SharesByDeposit, MintEach, AllShared, EligibleDeposits;
    var rows := EligibleDeposits(b.deposits, cutoff);
    if rows != [] {
      var mint := ShareMint.MintShares(cp.nav, cp.supply, DepositEntries(b.deposits, rows));
      if mint.Ok? && SharesByDeposit(b.deposits, rows, mint.value.allocations).Ok? {
        MintsWhenShared(b, rows, SharesByDeposit(b.deposits, rows, mint.value.allocations).value, checkpoint);
      }
    } else {
      MintNone(b, checkpoint);
    }
  }

  lemma {:induction false} MintNone(b: Book, checkpoint: nat)
    ensures MintEach(b, [], map[], checkpoint) == Ok(b)
  {
  }
}
