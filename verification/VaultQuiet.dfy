/** Closes without tickets: what they come down to, and what they leave behind. */
module VaultQuiet {
  import opened Common
  import opened VaultTables
  import opened VaultRows
  import opened VaultReplay
  import opened VaultInvariant
  import opened VaultSteps
  import opened VaultConsistency
  import opened VaultPaying
  import opened VaultActivating
  import opened VaultClosing
  import opened VaultCycle
  import opened VaultFaults
  import opened VaultOutcomes
  import DepositSplit
  import OwnerClaims
  import ShareMint
  import ShareRedemption
  import VaultBatch

  /** A trusted snapshot of a treasury without obligations, observed when it was taken. */
  function Taken(id: nat, version: nat, created: int, treasury: nat): Snapshot {
    Snapshot(id, created, created, treasury, 0, 0, 0, 0, 0, 0, version, version, true)
  }

  predicate Quiet(s: Snapshot) {
    s == Taken(s.id, s.bookVersion, s.created, s.treasury)
  }

  function QuietInput(taken: Snapshot, recovery: Option<Snapshot>): CloseInput {
    CloseInput(taken, recovery, taken.bookVersion, 0, [])
  }

  ghost predicate NoDust(closings: seq<Closing>) {
    forall i :: 0 <= i < |closings| ==> closings[i].dust == 0
  }

  lemma {:induction false} OneMoreWithout(closings: seq<Closing>, n: nat)
    requires |closings| == n + 1 && NoDust(closings[..n]) && closings[n].dust == 0
    ensures NoDust(closings)
  {
    forall i | 0 <= i < |closings|
      ensures closings[i].dust == 0
    {
      assert i < n ==> closings[..n][i] == closings[i];
    }
  }

  lemma {:induction false} NoDustBy(closings: seq<Closing>, at: int)
    requires NoDust(closings)
    ensures DustBy(closings, at) == 0
  {
    if closings != [] {
      NoDustBy(closings[..|closings| - 1], at);
    }
  }

  /** What a quiet close would value. */
  function QuietNav(b: Book, treasury: nat): int {
    treasury - PendingTotal(b.deposits) - MaturedTotal(b.payables)
  }

  lemma {:induction false} QuietTickets(b: Book, cycle: nat, from: int, at: int)
    ensures OpenTickets([], at) == [] && GrossMarks([], at) == [] && MarksCover([], [])
    ensures Recognize(b, cycle, [], from, at) == b && MarkTickets(b, cycle, [], [], at) == Ok(b)
    ensures DistinctTickets([])
  {
  }

  lemma {:induction false} QuietLiability(b: Book, cutoff: int, taken: Snapshot, recovery: Option<Snapshot>)
    requires b.fees == [] && Quiet(taken) && Incepted(b, taken).Ok?
    ensures var incepted := Incepted(b, taken).value;
            && NavOf(LiabilityDue(b, cutoff, QuietInput(taken, recovery))) == QuietNav(incepted, taken.treasury)
            && (b.inception.Some? ==> incepted == b)
  {
    var incepted := Incepted(b, taken).value;
    var from := if incepted.inception.Some? then incepted.inception.value.at else taken.created;
    QuietTickets(AddCycle(incepted, Cycle(cutoff, Open, 0)), |b.cycles|, from, taken.created);
    assert incepted.fees == [] && incepted.payables == b.payables;
    hide Incepted, PendingTotal, MaturedTotal, Recognize;
  }

  /** The book at its checkpoint, when nothing is to be recognized or marked. */
  lemma {:induction false} QuietValued(b: Book, cutoff: int, taken: Snapshot, recovery: Option<Snapshot>)
    requires b.fees == [] && Quiet(taken) && ValuedFrom(b, cutoff, QuietInput(taken, recovery)).Ok?
    ensures Incepted(b, taken).Ok?
    ensures var v := ValuedFrom(b, cutoff, QuietInput(taken, recovery)).value;
            var incepted := Incepted(b, taken).value;
            && v.fees == [] && v.deposits == incepted.deposits && v.reserves == b.reserves && v.positions == b.positions
            && v.checkpoints != [] && v.checkpoints[|v.checkpoints| - 1].nav == QuietNav(incepted, taken.treasury)
            && v.checkpoints[|v.checkpoints| - 1].supply == Supply(b.shareEvents)
            && v.reserveMarks == b.reserveMarks && v.depositKeys == b.depositKeys
  {
    var input := QuietInput(taken, recovery);
    var incepted := Incepted(b, input.snapshot).value;
    InceptedLeaves(b, input.snapshot);
    var from := if incepted.inception.Some? then incepted.inception.value.at else taken.created;
    QuietTickets(AddCycle(incepted, Cycle(cutoff, Open, 0)), |incepted.cycles|, from, taken.created);
    hide Incepted, Recognize, MarkTickets, OpenTickets, GrossMarks, MarksCover, PendingTotal, MaturedTotal, Supply,
         UsableRecovery, OnTime;
  }

  lemma {:induction false} InceptedLeaves(b: Book, s: Snapshot)
    requires Incepted(b, s).Ok?
    ensures var incepted := Incepted(b, s).value;
            && incepted.fees == b.fees && incepted.reserves == b.reserves && incepted.positions == b.positions
            && incepted.reserveMarks == b.reserveMarks && incepted.shareEvents == b.shareEvents
            && incepted.payables == b.payables && incepted.liabilities == b.liabilities
            && incepted.depositKeys == b.depositKeys
  {
  }

  // ---------------------------------------------------------------- one eligible deposit

  lemma {:induction false} SoleClaim(e: OwnerClaims.Entry)
    requires 0 < e.amount
    ensures OwnerClaims.ClaimsFor([e]) == Ok([OwnerClaims.Claim(e.owner, e.amount)])
  {
    var entries := [e];
    assert entries[0].owner in OwnerClaims.Owners(entries);
    assert OwnerClaims.Owners(entries) == {e.owner};
    assert entries[..0] == [];
    assert OwnerClaims.SumFor(entries, e.owner) == e.amount;
    assert OwnerClaims.Totals(entries) == map[e.owner := e.amount];
    ShareRedemption.SingleClaim(e.owner, e.amount);
  }

  lemma {:induction false} SolePart(minted: nat, id: nat, amount: int)
    requires 0 < minted && 0 < amount
    ensures DepositSplit.Splittable(minted, [DepositSplit.Part(id, amount)])
    ensures DepositSplit.Split(minted, [DepositSplit.Part(id, amount)]) == map[id := minted]
  {
    var parts := [DepositSplit.Part(id, amount)];
    DepositSplit.SplitConserves(minted, parts);
    var m := DepositSplit.Split(minted, parts);
    hide DepositSplit.Split;
    assert parts[1..] == [];
    forall k | k in m
      ensures k == id
    {
      DepositSplit.SplitIds(minted, parts, k);
    }
    if id in m {
      assert m == map[id := minted];
    }
  }

  /** A single eligible deposit gets the floor of its own claim. */
  lemma {:induction false} SoleMint(deposits: seq<Deposit>, i: nat, cutoff: int, nav: nat, supply: nat, minted: nat)
    requires i < |deposits| && EligibleDeposits(deposits, cutoff) == [i] && 0 < deposits[i].amount
             && (supply == 0 <==> nav == 0)
    requires minted == deposits[i].amount * ShareMint.MintMultiplier(supply) / ShareMint.MintDenominator(nav, supply)
    requires 0 < minted
    ensures MintDue(deposits, cutoff, nav, supply) == Ok(map[i := minted])
  {
    var d := deposits[i];
    var e := OwnerClaims.Entry(d.user, d.amount);
    SoleClaim(e);
    assert DepositEntries(deposits, [i]) == [e];
    var claims := [OwnerClaims.Claim(d.user, d.amount)];
    SoleFloor(claims[0], ShareMint.MintMultiplier(supply), ShareMint.MintDenominator(nav, supply));
    var a := OwnerClaims.Allocate(claims[0], ShareMint.MintMultiplier(supply), ShareMint.MintDenominator(nav, supply));
    assert ShareMint.MintClaims(nav, supply, claims).Ok?;
    assert ShareMint.MintClaims(nav, supply, claims).value.allocations == [a];
    SoleShares(deposits, i, a);
  }

  lemma {:induction false} SoleFloor(claim: OwnerClaims.Claim, multiplier: nat, denominator: Positive)
    ensures OwnerClaims.AllocateIdentityFloors([claim], multiplier, denominator).granted
         == claim.weight * multiplier / denominator
    ensures OwnerClaims.AllocateIdentityFloors([claim], multiplier, denominator).allocations
         == [OwnerClaims.Allocate(claim, multiplier, denominator)]
  {
    ShareRedemption.SumOne(claim, multiplier, denominator);
  }

  lemma {:induction false} SoleShares(deposits: seq<Deposit>, i: nat, a: OwnerClaims.Allocation)
    requires i < |deposits| && deposits[i].user == a.owner && 0 < deposits[i].amount && 0 < a.amount
    ensures SharesByDeposit(deposits, [i], [a]) == Ok(map[i := a.amount])
  {
    SolePart(a.amount, i, deposits[i].amount);
    hide DepositSplit.Split, DepositSplit.Splittable;
    assert [a][..0] == [] && [i][..0] == [];
    assert PartsOf(deposits, [], a.owner) == [];
    assert PartsOf(deposits, [i], a.owner) == [DepositSplit.Part(i, deposits[i].amount)];
    assert SharesByDeposit(deposits, [i], []) == Ok(map[]);
    assert map[] + map[i := a.amount] == map[i := a.amount];
  }

  // ---------------------------------------------------------------- quiet closes that go through

  /** What has to hold of a quiet close for it to go through. */
  ghost predicate QuietPasses(b: Book, cutoff: int, taken: Snapshot) {
    && Quiet(taken) && Incepted(b, taken).Ok? && DustBy(b.closings, taken.created) == 0
    && var incepted := Incepted(b, taken).value;
       var nav, supply := QuietNav(incepted, taken.treasury), Supply(b.shareEvents);
       var rows := ReservedThen(b, taken.created);
       && 0 <= nav && (supply == 0 ==> nav == 0 && rows == []) && Demand(b.reserves, rows, nav, supply) <= nav
       && MintDue(incepted.deposits, cutoff, nav, supply).Ok?
  }

  lemma {:induction false} QuietCloses(b: Book, tick: Positive, taken: Snapshot, recovery: Option<Snapshot>)
      returns (s: Stages)
    requires Consistent(b) && b.fees == []
    requires Due(b, QuietInput(taken, recovery), DueCutoff(b, b.clock + tick), b.clock + tick)
    requires QuietPasses(b, DueCutoff(b, b.clock + tick), taken)
    ensures |s.valued.checkpoints| == |b.closings| + 1
    ensures CloseDue(b, tick, QuietInput(taken, recovery)) == Ok(Ended(b, s))
    ensures Staged(b, taken.created, s) && s.now == b.clock + tick && s.cutoff == DueCutoff(b, s.now)
    ensures Consistent(Ended(b, s)) && |b.closings| == |b.cycles|
    ensures var v := s.valued;
            && v.fees == [] && v.deposits == Incepted(b, taken).value.deposits
            && v.reserves == b.reserves && v.positions == b.positions && v.depositKeys == b.depositKeys
            && v.checkpoints[|b.closings|].nav == QuietNav(Incepted(b, taken).value, taken.treasury)
            && v.checkpoints[|b.closings|].supply == Supply(b.shareEvents)
  {
    hide Consistent, CloseDue, Due, Incepted, DueCutoff, LiabilityDue, ReservedRequests, Demand, MintDue, ValuedFrom,
         Ended, Staged, Supply, PendingTotal, MaturedTotal;
    var input := QuietInput(taken, recovery);
    QuietTickets(b, 0, 0, 0);
    CloseEndsBy(b, tick, input);
    QuietLiability(b, DueCutoff(b, b.clock + tick), taken, recovery);
    s := CloseDueStages(b, tick, input);
    QuietValued(b, s.cutoff, taken, recovery);
    StagedSizes(b, taken.created, s);
    BoundarySizes(b);
  }

  lemma {:induction false} StagedSizes(b: Book, at: int, s: Stages)
    requires Staged(b, at, s)
    ensures |s.valued.checkpoints| == |b.closings| + 1
  {
    hide Linked, Sound, PaidUp, Collateralized, PaidExactly, MarkActiveReserves, MaturedRequests, Unused, PaidInOrder,
         SettleCycle, ActivateDeposits;
  }

  lemma {:induction false} BoundarySizes(b: Book)
    requires Consistent(b)
    ensures |b.cycles| == |b.closings| == |b.checkpoints|
  {
    hide Linked, Sound, SinceClose, ClosingsSound;
  }

  /** What the last steps of a close leave as the payments and mints left it. */
  lemma {:induction false} EndedTables(b: Book, at: int, s: Stages)
    requires Staged(b, at, s) && |b.cycles| == |b.closings|
    ensures |b.closings| < |s.valued.checkpoints|
    ensures var after, c := Ended(b, s), |b.closings|;
            && after.clock == s.now && after.fees == s.valued.fees && after.reserves == s.valued.reserves
            && after.inception.Some? && |after.closings| == |after.cycles| == c + 1 && |after.checkpoints| == c + 1
            && after.cycles[c].cutoff == s.cutoff && after.checkpoints[c] == s.valued.checkpoints[c]
            && after.closings[c].supply == Supply(after.shareEvents) && after.requests == s.settled.requests
            && after.history == s.settled.history && after.payables == s.settled.payables
            && after.reserveMarks == s.settled.reserveMarks && after.deposits == s.active.deposits
            && after.shareEvents == s.active.shareEvents && after.positions == s.active.positions
            && after.depositKeys == s.valued.depositKeys && after.closings[..c] == b.closings
            && s.settled.deposits == s.valued.deposits && s.settled.positions == s.valued.positions
  {
    hide Linked, Sound, PaidUp, Collateralized, PaidExactly, MarkActiveReserves, MaturedRequests, Unused, PaidInOrder,
         SettleCycle, ActivateDeposits, MaturedAt, BurnedAt, ActivatedAt, Supply;
  }

  // ---------------------------------------------------------------- closes that mint

  /** Without requests there is nothing to reserve and nothing to pay. */
  lemma {:induction false} IdleSettles(v: Book, c: nat, cp: Checkpoint, l: Liability, at: int, now: int, w: Book)
    requires v.requests == [] && SettleCycle(v, c, c, cp, l, at, now) == Ok(w)
    ensures w.shareEvents == v.shareEvents && w.requests == [] && w.history == v.history && w.payables == v.payables
  {
    assert ReservedRequests(v.history, v.reserves, 0, at) == [];
    assert AdmittedBy([], at) == [];
  }

  /** A quiet close without requests that activates one deposit. */
  lemma {:induction false} MintingClose(b: Book, tick: Positive, taken: Snapshot, i: nat, minted: nat)
      returns (after: Book)
    requires Consistent(b) && b.fees == [] && b.requests == []
    requires Due(b, QuietInput(taken, None), DueCutoff(b, b.clock + tick), b.clock + tick)
    requires Quiet(taken) && Incepted(b, taken).Ok? && NoDust(b.closings)
    requires var deposits := Incepted(b, taken).value.deposits;
             i < |deposits| && EligibleDeposits(deposits, DueCutoff(b, b.clock + tick)) == [i] && 0 < deposits[i].amount
    requires var incepted := Incepted(b, taken).value;
             var nav, supply := QuietNav(incepted, taken.treasury), Supply(b.shareEvents);
             && 0 <= nav && 0 <= supply && (supply == 0 <==> nav == 0) && 0 < minted
             && minted == incepted.deposits[i].amount * ShareMint.MintMultiplier(supply)
                          / ShareMint.MintDenominator(nav, supply)
    ensures CloseDue(b, tick, QuietInput(taken, None)) == Ok(after) && Consistent(after)
    ensures after.clock == b.clock + tick && after.fees == [] && after.requests == [] && after.history == b.history
    ensures after.reserves == b.reserves && after.payables == b.payables && after.inception.Some?
    ensures after.depositKeys == b.depositKeys
    ensures |after.closings| == |after.cycles| == |b.cycles| + 1 && NoDust(after.closings)
    ensures after.cycles[|b.cycles|].cutoff == DueCutoff(b, b.clock + tick)
    ensures var deposits := Incepted(b, taken).value.deposits;
            && after.deposits == deposits[i := deposits[i].(status := Active(|b.closings|))]
            && after.positions == b.positions + {deposits[i].user}
            && |after.shareEvents| == |b.shareEvents| + 1 && after.shareEvents[..|b.shareEvents|] == b.shareEvents
            && after.shareEvents[|b.shareEvents|].cause == MintOf(i)
            && after.shareEvents[|b.shareEvents|].user == deposits[i].user
            && after.shareEvents[|b.shareEvents|].shares == minted
  {
    hide Consistent, CloseDue, Due, Incepted, DueCutoff, Demand, MintDue, Ended, Staged, Supply, PendingTotal,
         MaturedTotal, EligibleDeposits, Quiet, DustBy;
    var now := b.clock + tick;
    var incepted := Incepted(b, taken).value;
    SoleMint(incepted.deposits, i, DueCutoff(b, now), QuietNav(incepted, taken.treasury), Supply(b.shareEvents),
             minted);
    NoReserved(b, taken.created);
    NoDustBy(b.closings, taken.created);
    var s := QuietCloses(b, tick, taken, None);
    EndedTables(b, taken.created, s);
    after := Ended(b, s);
    IdleStage(b, taken.created, s, i, minted, Supply(b.shareEvents), QuietNav(incepted, taken.treasury));
    NothingPaid(b, tick, taken, after);
  }

  /** Without requests a close withholds nothing. */
  lemma {:induction false} NothingPaid(b: Book, tick: Positive, taken: Snapshot, after: Book)
    requires Consistent(b) && b.requests == [] && CloseDue(b, tick, QuietInput(taken, None)) == Ok(after)
    ensures |b.closings| < |after.closings| && after.closings[|b.closings|].dust == 0
  {
    hide Consistent, CloseDue, MaturedAt, BurnedAt;
    VaultBatch.CloseIsBatch(b, tick, QuietInput(taken, None));
  }

  lemma {:induction false} NoReserved(b: Book, at: int)
    requires b.requests == []
    ensures ReservedThen(b, at) == [] && Demand(b.reserves, [], 0, 0) == 0
    ensures forall nav: int, supply: int :: Demand(b.reserves, [], nav, supply) == 0
  {
  }

  lemma {:induction false} IdleStage(b: Book, at: int, s: Stages, i: nat, minted: nat, supply: int, nav: int)
    requires Staged(b, at, s) && b.requests == [] && i < |s.valued.deposits| && s.settled.deposits == s.valued.deposits
    requires |b.closings| < |s.valued.checkpoints| && EligibleDeposits(s.valued.deposits, s.cutoff) == [i]
    requires s.valued.checkpoints[|b.closings|].nav == nav && s.valued.checkpoints[|b.closings|].supply == supply
    requires MintDue(s.valued.deposits, s.cutoff, nav, supply) == Ok(map[i := minted])
    ensures s.settled.requests == [] && s.settled.history == b.history && s.settled.payables == b.payables
    ensures var d := s.valued.deposits[i];
            && s.active.deposits == s.valued.deposits[i := d.(status := Active(|b.closings|))]
            && s.active.positions == s.settled.positions + {d.user}
            && s.active.shareEvents
               == b.shareEvents + [ShareEvent(MintOf(i), d.user, minted, d.amount, |b.closings|, Next(s.settled))]
  {
    hide Linked, Sound, PaidUp, Collateralized, PaidExactly, MarkActiveReserves, MaturedRequests, Unused, PaidInOrder,
         SettleCycle, ActivateDeposits, MintDue, EligibleDeposits, SettledFrom, Minting;
    var c := |b.closings|;
    IdleSettles(s.valued, c, s.valued.checkpoints[c], s.valued.liabilities[c], at, s.now, s.settled);
    ActivatesBy(s.settled, s.cutoff, c, s.valued.checkpoints[c]);
    SoleMinted(s.settled, i, minted, c);
  }

  lemma {:induction false} SoleMinted(w: Book, i: nat, minted: nat, c: nat)
    requires i < |w.deposits| && MintEach(w, [i], map[i := minted], c).Ok?
    ensures MintEach(w, [i], map[i := minted], c) == Ok(AddMint(w, i, minted, c))
  {
    assert [i][..0] == [];
    assert MintEach(w, [], map[i := minted], c) == Ok(w);
  }
}
