/** What owners have put in, what they have been paid and what is left to them, over any run. */
module VaultProfits {
  import opened Common
  import opened VaultTables
  import opened VaultLots
  import opened VaultRows
  import opened VaultReplay
  import opened VaultInvariant
  import opened VaultSteps
  import opened VaultConsistency
  import opened VaultClosing
  import opened VaultCycle
  import opened VaultOwners
  import opened VaultPaying
  import opened VaultPayments
  import VaultActivating
  import VaultRuns
  import VaultStatement

  /** What a user's activated deposits brought in. */
  function PutIn(deposits: seq<Deposit>, user: nat): int {
    if deposits == [] then 0
    else
      var last := deposits[|deposits| - 1];
      PutIn(deposits[..|deposits| - 1], user)
      + (if last.user == user && last.status.Active? then last.amount else 0)
  }

  /** What a user's redemptions were paid, and the cost basis that they used up. */
  function PaidTo(payables: seq<Payable>, requests: seq<Request>, user: nat): int {
    if payables == [] then 0
    else
      var last := payables[|payables| - 1];
      PaidTo(payables[..|payables| - 1], requests, user)
      + (if last.request < |requests| && requests[last.request].user == user then last.amount else 0)
  }

  function BasisUsed(payables: seq<Payable>, requests: seq<Request>, user: nat): int {
    if payables == [] then 0
    else
      var last := payables[|payables| - 1];
      BasisUsed(payables[..|payables| - 1], requests, user)
      + (if last.request < |requests| && requests[last.request].user == user then last.basis else 0)
  }

  function BasisLeft(b: Book, user: nat): int {
    RemainingBasis(b.lots, b.allocations, user, |b.lots|)
  }

  /** Every unit of cost basis is still in a lot or was used up by a payment. */
  ghost predicate BasisKept(b: Book, user: nat) {
    BasisLeft(b, user) + BasisUsed(b.payables, b.requests, user) == PutIn(b.deposits, user)
  }

  lemma {:induction false} PnlIsPaidLessBasis(payables: seq<Payable>, requests: seq<Request>, user: nat)
    ensures RedemptionPnl(payables, requests, user)
         == PaidTo(payables, requests, user) - BasisUsed(payables, requests, user)
  {
    if payables != [] {
      PnlIsPaidLessBasis(payables[..|payables| - 1], requests, user);
    }
  }

  // ---------------------------------------------------------------- rows that do not matter

  /** The same users behind the requests that were paid. */
  ghost predicate SameUsers(before: seq<Request>, after: seq<Request>) {
    |before| <= |after| && forall r :: 0 <= r < |before| ==> after[r].user == before[r].user
  }

  lemma {:induction false} UsedUnder(payables: seq<Payable>, before: seq<Request>, after: seq<Request>, user: nat)
    requires SameUsers(before, after) && forall k :: 0 <= k < |payables| ==> payables[k].request < |before|
    ensures BasisUsed(payables, after, user) == BasisUsed(payables, before, user)
  {
    if payables != [] {
      UsedUnder(payables[..|payables| - 1], before, after, user);
    }
  }

  lemma {:induction false} PayablesOfRequests(b: Book, now: int)
    requires Sound(b, now)
    ensures forall k :: 0 <= k < |b.payables| ==> b.payables[k].request < |b.requests|
  {
    hide LotBook, QueueSound, MarksSound, CheckpointsSound, DepositsSound, FeesSound, HistorySound, BurnsMatched;
    forall k | 0 <= k < |b.payables|
      ensures b.payables[k].request < |b.requests|
    {
      assert PayableSound(b.payables[k], b.reserveMarks, b.requests);
    }
  }

  lemma {:induction false} PendingPutsIn(deposits: seq<Deposit>, d: Deposit, user: nat)
    requires d.status == Pending
    ensures PutIn(deposits + [d], user) == PutIn(deposits, user)
  {
    assert (deposits + [d])[..|deposits|] == deposits;
  }

  lemma {:induction false} PendingPutIn(deposits: seq<Deposit>, pending: seq<Deposit>, user: nat)
    requires |pending| <= 1 && forall i :: 0 <= i < |pending| ==> pending[i].status == Pending
    ensures PutIn(deposits + pending, user) == PutIn(deposits, user)
  {
    if pending == [] {
      assert deposits + pending == deposits;
    } else {
      PendingPutsIn(deposits, pending[0], user);
      assert deposits + pending == deposits + [pending[0]];
    }
  }

  /** A step that adds pending deposits at most, and touches no lot and no payable. */
  ghost predicate Quietly(b: Book, after: Book, pending: seq<Deposit>) {
    && after.lots == b.lots && after.allocations == b.allocations && after.payables == b.payables
    && SameUsers(b.requests, after.requests) && after.deposits == b.deposits + pending
    && |pending| <= 1 && forall i :: 0 <= i < |pending| ==> pending[i].status == Pending
  }

  lemma {:induction false} QuietKeepsBasis(b: Book, after: Book, pending: seq<Deposit>, user: nat)
    requires BasisKept(b, user) && Quietly(b, after, pending)
    requires forall k :: 0 <= k < |b.payables| ==> b.payables[k].request < |b.requests|
    ensures BasisKept(after, user)
  {
    UsedUnder(b.payables, b.requests, after.requests, user);
    PendingPutIn(b.deposits, pending, user);
    hide RemainingBasis, BasisUsed, PutIn, SameUsers;
  }

  // ---------------------------------------------------------------- burns

  lemma {:induction false} OneMorePart(lots: seq<Lot>, allocations: seq<BurnAllocation>, a: BurnAllocation, user: nat,
                                       n: nat)
    requires n <= |lots| && a.part.lot < |lots|
    ensures RemainingBasis(lots, allocations + [a], user, n) == RemainingBasis(lots, allocations, user, n)
            - (if a.part.lot < n && lots[a.part.lot].user == user
               then a.part.cumulativeBasis - LotBasis(allocations, a.part.lot) else 0)
  {
    if n != 0 {
      OneMorePart(lots, allocations, a, user, n - 1);
      OneMore(allocations, a, n - 1);
    }
  }

  lemma {:induction false} BasisOfPart(allocations: seq<BurnAllocation>, a: BurnAllocation)
    requires Chained(allocations + [a])
    ensures Chained(allocations) && a.part.basis == a.part.cumulativeBasis - LotBasis(allocations, a.part.lot)
  {
    ChainedPrefix(allocations, a);
    var longer := allocations + [a];
    assert ChainedAt(longer, |allocations|) && longer[..|allocations|] == allocations;
  }

  /** A burn uses up its basis, of its owner's lots alone. */
  lemma {:induction false} PartsUseBasis(lots: seq<Lot>, allocations: seq<BurnAllocation>, burn: nat,
                                         parts: seq<LotBurn>, owner: nat, user: nat)
    requires forall k :: 0 <= k < |parts| ==> parts[k].lot < |lots| && lots[parts[k].lot].user == owner
    requires Chained(Recorded(allocations, burn, parts))
    ensures RemainingBasis(lots, Recorded(allocations, burn, parts), user, |lots|)
         == RemainingBasis(lots, allocations, user, |lots|) - (if owner == user then PartBasis(parts) else 0)
  {
    if parts != [] {
      var init, part := parts[..|parts| - 1], parts[|parts| - 1];
      var before, a := Recorded(allocations, burn, init), BurnAllocation(burn, part);
      BasisOfPart(before, a);
      PartsUseBasis(lots, allocations, burn, init, owner, user);
      OneMorePart(lots, before, a, user, |lots|);
    }
  }

  lemma {:induction false} OnePayableUses(payables: seq<Payable>, p: Payable, requests: seq<Request>, user: nat)
    ensures BasisUsed(payables + [p], requests, user) == BasisUsed(payables, requests, user)
            + (if p.request < |requests| && requests[p.request].user == user then p.basis else 0)
  {
    assert (payables + [p])[..|payables|] == payables;
  }

  lemma {:induction false} ChainedLots(b: Book, now: int)
    requires Sound(b, now)
    ensures Chained(b.allocations)
    ensures forall k :: 0 <= k < |b.allocations| ==> b.allocations[k].part.lot < |b.lots|
  {
    hide QueueSound, PayablesSound, MarksSound, CheckpointsSound, DepositsSound, FeesSound, HistorySound, BurnsMatched,
         Chained, LotsSound, FirstInFirstOut;
  }

  /** The rows of one payment, as far as basis goes. */
  ghost predicate BasisMoves(b: Book, after: Book, r: nat, parts: seq<LotBurn>) {
    && r < |b.requests| && |after.payables| == |b.payables| + 1 && b.payables <= after.payables
    && after.payables[|b.payables|].request == r && after.payables[|b.payables|].basis == PartBasis(parts)
    && after.allocations == Recorded(b.allocations, |b.shareEvents|, parts) && after.lots == b.lots
    && (forall k :: 0 <= k < |parts| ==> parts[k].lot < |b.lots| && b.lots[parts[k].lot].user == b.requests[r].user)
    && SameUsers(b.requests, after.requests) && after.deposits == b.deposits
  }

  lemma {:induction false} PayableOfPayment(b: Book, after: Book, c: nat, nav: int, supply: int, r: nat,
                                            parts: seq<LotBurn>)
    requires PayablesAdded(b, after, c, nav, supply, [r])
    requires BurnedFrom(parts, b.lots, after.shareEvents[|b.shareEvents|])
    ensures |after.payables| == |b.payables| + 1 && b.payables <= after.payables && r < |b.requests|
    ensures after.payables[|b.payables|].request == r && after.payables[|b.payables|].basis == PartBasis(parts)
    ensures forall k :: 0 <= k < |parts| ==>
                          parts[k].lot < |b.lots| && b.lots[parts[k].lot].user == b.requests[r].user
  {
    hide RoundsDown, PartBasis, PartShares;
    assert PaymentAdded(after.payables[|b.payables| + 0], after.shareEvents[|b.shareEvents| + 0], b.requests, c, nav,
                        supply, [r][0]);
  }

  lemma {:induction false} RipeCheckpoint(b: Book, c: nat, r: nat)
    requires Ripe(b, c, r)
    ensures c < |b.checkpoints|
  {
  }

  lemma {:induction false} PaidUsers(before: seq<Request>, after: seq<Request>, paid: seq<nat>)
    requires PaidExactly(before, after, paid)
    ensures SameUsers(before, after)
  {
  }

  lemma {:induction false} PaymentMovesBasis(b: Book, c: nat, r: nat, before: int, now: int)
      returns (parts: seq<LotBurn>)
    requires Linked(b) && Sound(b, now) && Ripe(b, c, r) && 0 <= b.checkpoints[c].nav && PaidUp(b, c, before)
    ensures FinalizeOne(b, c, c, b.checkpoints[c], r, now).Ok?
    ensures BasisMoves(b, FinalizeOne(b, c, c, b.checkpoints[c], r, now).value, r, parts)
    ensures Chained(FinalizeOne(b, c, c, b.checkpoints[c], r, now).value.allocations)
  {
    hide Linked, Sound, Ripe, PaidUp, FinalizeOne, Recorded, Chained, PaymentMoves, PaysOut, PayablesAdded, PaidExactly,
         BurnedFrom, SameUsers;
    RipeCheckpoint(b, c, r);
    parts := OnePayment(b, c, r, now);
    var after := PayOne(b, c, r, before, now);
    ChainedLots(after, now);
    PayableOfPayment(b, after, c, b.checkpoints[c].nav, b.checkpoints[c].supply, r, parts);
    PaidUsers(b.requests, after.requests, [r]);
  }

  lemma {:induction false} MovedBasisIsKept(b: Book, after: Book, r: nat, parts: seq<LotBurn>, user: nat)
    requires BasisMoves(b, after, r, parts) && Chained(after.allocations) && BasisKept(b, user)
    requires forall k :: 0 <= k < |b.payables| ==> b.payables[k].request < |b.requests|
    ensures BasisKept(after, user)
  {
    hide Recorded, RemainingBasis, BasisUsed, PutIn, Chained;
    var p := after.payables[|b.payables|];
    PartsUseBasis(b.lots, b.allocations, |b.shareEvents|, parts, b.requests[r].user, user);
    assert after.payables == b.payables + [p];
    OnePayableUses(b.payables, p, after.requests, user);
    UsedUnder(b.payables, b.requests, after.requests, user);
  }

  /** One payment moves basis from the lots to what is used up, and all payments of a close do. */
  lemma {:induction false} PaymentsKeepBasis(b: Book, c: nat, rows: seq<nat>, user: nat, before: int, now: int)
    requires Linked(b) && Sound(b, now) && AllRipe(b, c, rows) && PaidUp(b, c, before)
    requires Numbers(rows, |b.requests|) && c < |b.checkpoints| && 0 <= b.checkpoints[c].nav && BasisKept(b, user)
    ensures FinalizeEach(b, c, c, b.checkpoints[c], rows, now).Ok?
    ensures BasisKept(FinalizeEach(b, c, c, b.checkpoints[c], rows, now).value, user)
  {
    hide Linked, Sound, FinalizeOne, PaidUp, Ripe, AllRipe, PaidExactly, PaysOut, PaidInOrder, BasisKept, BasisMoves,
         Chained;
    if rows != [] {
      var init, r := rows[..|rows| - 1], rows[|rows| - 1];
      RipeApart(b, c, rows);
      PaymentsKeepBasis(b, c, init, user, before, now);
      var middle := PayAll(b, c, init, before, now);
      StillRipe(b, middle, c, init, r);
      PayablesOfRequests(middle, now);
      var parts := PaymentMovesBasis(middle, c, r, before, now);
      MovedBasisIsKept(middle, FinalizeOne(middle, c, c, b.checkpoints[c], r, now).value, r, parts, user);
    }
  }

  // ---------------------------------------------------------------- mints

  lemma {:induction false} LotUntouched(lots: seq<Lot>, lot: Lot, allocations: seq<BurnAllocation>, user: nat, n: nat)
    requires n <= |lots|
    ensures RemainingBasis(lots + [lot], allocations, user, n) == RemainingBasis(lots, allocations, user, n)
  {
    if n != 0 {
      LotUntouched(lots, lot, allocations, user, n - 1);
    }
  }

  lemma {:induction false} OneActivated(deposits: seq<Deposit>, i: nat, c: nat, user: nat)
    requires i < |deposits| && deposits[i].status == Pending
    ensures PutIn(deposits[i := deposits[i].(status := Active(c))], user) == PutIn(deposits, user)
            + (if deposits[i].user == user then deposits[i].amount else 0)
  {
    var n := |deposits| - 1;
    var after := deposits[i := deposits[i].(status := Active(c))];
    if i < n {
      OneActivated(deposits[..n], i, c, user);
      assert after[..n] == deposits[..n][i := deposits[i].(status := Active(c))];
    } else {
      assert after[..n] == deposits[..n];
    }
  }

  lemma {:induction false} MintKeepsBasis(b: Book, i: nat, shares: int, c: nat, user: nat)
    requires i < |b.deposits| && b.deposits[i].status == Pending && BasisKept(b, user)
    requires forall k :: 0 <= k < |b.allocations| ==> b.allocations[k].part.lot < |b.lots|
    ensures BasisKept(AddMint(b, i, shares, c), user)
  {
    hide Seal, BasisUsed, PutIn;
    var d := b.deposits[i];
    UntouchedLot(b.allocations, |b.lots|);
    LotUntouched(b.lots, Lot(d.user, |b.shareEvents|, shares, d.amount), b.allocations, user, |b.lots|);
    OneActivated(b.deposits, i, c, user);
  }

  lemma {:induction false} MintsKeepBasis(b: Book, rows: seq<nat>, shares: map<nat, nat>, c: nat, user: nat, now: int)
    requires Linked(b) && Sound(b, now) && c < |b.checkpoints| && BasisKept(b, user)
    requires Numbers(rows, |b.deposits|) && VaultActivating.AllWaiting(b.deposits, rows)
    requires MintEach(b, rows, shares, c).Ok?
    ensures BasisKept(MintEach(b, rows, shares, c).value, user)
  {
    hide Linked, Sound, VaultActivating.AllWaiting, VaultActivating.ActivatedExactly, VaultActivating.Activated,
         BasisKept, AddMint;
    if rows != [] {
      var init, row := rows[..|rows| - 1], rows[|rows| - 1];
      VaultActivating.WaitingPrefix(b.deposits, rows);
      MintsKeepBasis(b, init, shares, c, user, now);
      VaultActivating.MintAll(b, init, shares, c, now);
      var middle := MintEach(b, init, shares, c).value;
      VaultActivating.ExactlyOneMore(b.deposits, middle.deposits, rows, c);
      ChainedLots(middle, now);
      MintKeepsBasis(middle, row, shares[row], c, user);
    }
  }

  lemma {:induction false} ActivationKeepsBasis(b: Book, cutoff: int, c: nat, cp: Checkpoint, user: nat, now: int)
    requires Linked(b) && Sound(b, now) && c < |b.checkpoints| && BasisKept(b, user)
    requires ActivateDeposits(b, cutoff, c, cp).Ok?
    ensures BasisKept(ActivateDeposits(b, cutoff, c, cp).value, user)
  {
    hide Linked, Sound, BasisKept, EligibleDeposits, MintEach, SharesByDeposit, DepositEntries,
         VaultActivating.AllWaiting;
    VaultActivating.ActivatesBy(b, cutoff, c, cp);
    VaultActivating.EligibleAreWaiting(b.deposits, cutoff);
    hide ActivateDeposits;
    MintsKeepBasis(b, EligibleDeposits(b.deposits, cutoff),
                   VaultActivating.MintDue(b.deposits, cutoff, cp.nav, cp.supply).value, c, user, now);
  }

  // ---------------------------------------------------------------- the whole close

  lemma {:induction false} PayoutsKeepBasis(liquid: Book, c: nat, at: int, before: int, now: int, user: nat)
    requires Linked(liquid) && Sound(liquid, now) && PaidUp(liquid, c, before) && BasisKept(liquid, user)
    requires c < |liquid.checkpoints| && 0 <= liquid.checkpoints[c].nav
    ensures FinalizeMatured(liquid, c, c, liquid.checkpoints[c], at, now).Ok?
    ensures BasisKept(FinalizeMatured(liquid, c, c, liquid.checkpoints[c], at, now).value, user)
  {
    SupplyFallen(liquid, c, before);
    RequestsOf(liquid, now);
    hide Linked, Sound, PaidUp, MaturedRequests, AdmittedBy, FinalizeEach, AllRipe, BasisKept;
    NoneAdmitted(liquid, at);
    MaturedAreRipe(liquid, c, at);
    PaymentsKeepBasis(liquid, c, MaturedRequests(liquid.requests, liquid.reserveMarks, c, c, at), user, before, now);
  }

  lemma {:induction false} SameBasis(b: Book, after: Book, user: nat)
    requires BasisKept(b, user) && after.lots == b.lots && after.allocations == b.allocations
    requires after.payables == b.payables && after.requests == b.requests && after.deposits == b.deposits
    ensures BasisKept(after, user)
  {
  }

  lemma {:induction false} SettlementKeepsBasis(b: Book, v: Book, cutoff: int, at: int, now: int, user: nat)
    requires Linked(v) && Sound(v, now) && AtCheckpoint(b, v, cutoff) && 0 <= v.checkpoints[|b.closings|].nav
    requires var c := |b.closings|; SettleCycle(v, c, c, v.checkpoints[c], v.liabilities[c], at, now).Ok?
    requires BasisKept(v, user)
    ensures var c := |b.closings|;
            BasisKept(SettleCycle(v, c, c, v.checkpoints[c], v.liabilities[c], at, now).value, user)
  {
    hide Linked, Sound, PaidUp, MarkActiveReserves, MarkLiquidity, FinalizeMatured, Unused, BasisKept;
    var c := |b.closings|;
    var cp, l := v.checkpoints[c], v.liabilities[c];
    SettledThrough(v, c, at, now);
    ReserveStage(v, c, at, now);
    var reserved := MarkActiveReserves(v, c, c, cp, at).value;
    NothingPaidUp(v, reserved, c);
    LiquidityStage(reserved, c, cp, l, now);
    var liquid := MarkLiquidity(reserved, c, c, cp, l).value;
    PaidUpFrame(reserved, liquid, c, MaturedTotal(v.payables));
    SameBasis(v, liquid, user);
    PayoutsKeepBasis(liquid, c, at, MaturedTotal(v.payables), now, user);
  }

  lemma {:induction false} ValuedKeepsBasis(b: Book, v: Book, user: nat)
    requires v.lots == b.lots && v.allocations == b.allocations && v.payables == b.payables && v.requests == b.requests
    requires v.deposits == b.deposits + VaultStatement.FounderDeposits(b, v.inception) && BasisKept(b, user)
    ensures BasisKept(v, user)
  {
    PendingPutIn(b.deposits, VaultStatement.FounderDeposits(b, v.inception), user);
    hide PutIn, RemainingBasis, BasisUsed, VaultStatement.FounderDeposits;
  }

  lemma {:induction false} CloseKeepsBasis(b: Book, tick: Positive, input: CloseInput, user: nat)
    requires Consistent(b) && CloseDue(b, tick, input).Ok? && BasisKept(b, user)
    ensures BasisKept(CloseDue(b, tick, input).value, user)
  {
    hide Consistent, CloseDue, ValuedFrom, Linked, Sound, PaidUp, PaidExactly, PaidInOrder, Collateralized, Ended,
         VaultStatement.Recorded, MarkActiveReserves, MaturedRequests, SettleCycle, ActivateDeposits, ClosingNow,
         Unused, BasisKept;
    VaultStatement.BookSizes(b);
    var s := CloseDueStages(b, tick, input);
    var c, at, v := |b.closings|, input.snapshot.created, s.valued;
    var p, first := VaultStatement.ValuedStates(b, s.cutoff, input, v);
    ValuedKeepsBasis(b, v, user);
    SettledThrough(v, c, at, s.now);
    var w := SettleStage(b, v, s.cutoff, at, s.now);
    SettlementKeepsBasis(b, v, s.cutoff, at, s.now, user);
    ActivationKeepsBasis(w, s.cutoff, c, v.checkpoints[c], user, s.now);
    VaultStatement.EndedTables(b, s);
    SameBasis(s.active, Ended(b, s), user);
  }

  // ---------------------------------------------------------------- every run

  lemma {:induction false} AdmitKeepsBasis(b: Book, tick: Positive, reconciliation: nat, capacity: Option<Capacity>,
                                           user: nat)
    requires Consistent(b) && BasisKept(b, user) && AdmitNext(b, tick, reconciliation, capacity).Ok?
    ensures BasisKept(AdmitNext(b, tick, reconciliation, capacity).value, user)
  {
    hide Admission, Postponed, BasisKept, Linked, Aligned, ClosingsSound, SinceClose, Sound;
    AdmissionOutcome(b, tick, reconciliation, capacity);
    var head, now, after := FirstInQueue(b.requests), b.clock + tick,
                            AdmitNext(b, tick, reconciliation, capacity).value;
    if b.closings != [] && head.Some? && capacity.Some? {
      AdmissionTables(b, head.value, reconciliation, capacity.value, now);
      PostponedTables(b, head.value, reconciliation, capacity.value, now);
    }
    hide AdmitNext;
    PayablesOfRequests(b, b.clock);
    assert after.deposits == b.deposits + [];
    QuietKeepsBasis(b, after, [], user);
  }

  lemma {:induction false} DepositKeepsBasis(b: Book, tick: Positive, owner: nat, amount: int, source: string,
                                             key: string, user: nat)
    requires Consistent(b) && BasisKept(b, user) && RecordDeposit(b, tick, owner, amount, source, key).Ok?
    ensures BasisKept(RecordDeposit(b, tick, owner, amount, source, key).value, user)
  {
    hide BasisKept, Linked, Aligned, ClosingsSound, SinceClose, Sound, Seal;
    DepositOutcome(b, tick, owner, amount, source, key);
    var after := RecordDeposit(b, tick, owner, amount, source, key).value;
    hide RecordDeposit;
    PayablesOfRequests(b, b.clock);
    if after == b {
      assert after.deposits == b.deposits + [];
      QuietKeepsBasis(b, after, [], user);
    } else {
      QuietKeepsBasis(b, after, [after.deposits[|b.deposits|]], user);
    }
  }

  lemma {:induction false} RequestKeepsBasis(b: Book, tick: Positive, owner: nat, shares: int, key: string, user: nat)
    requires Consistent(b) && BasisKept(b, user) && RequestRedemption(b, tick, owner, shares, key).Ok?
    ensures BasisKept(RequestRedemption(b, tick, owner, shares, key).value, user)
  {
    hide BasisKept, Linked, Aligned, ClosingsSound, SinceClose, Sound, Seal, Balance, ReservedShares, HasOpenRequest;
    RequestOutcome(b, tick, owner, shares, key);
    var after := RequestRedemption(b, tick, owner, shares, key).value;
    hide RequestRedemption;
    PayablesOfRequests(b, b.clock);
    assert after.deposits == b.deposits + [];
    QuietKeepsBasis(b, after, [], user);
  }

  lemma {:induction false} StepKeepsBasis(b: Book, step: Step, user: nat)
    requires Consistent(b) && BasisKept(b, user)
    ensures BasisKept(Apply(b, step), user)
  {
    hide BasisKept, Consistent, CloseDue, AdmitNext, RecordDeposit, RequestRedemption;
    if Attempt(b, step).Ok? {
      match step
      case DepositStep(tick, owner, amount, source, key) =>
        DepositKeepsBasis(b, tick, owner, amount, source, key, user);
      case RequestStep(tick, owner, shares, key) =>
        RequestKeepsBasis(b, tick, owner, shares, key, user);
      case AdmitStep(tick, reconciliation, capacity) =>
        AdmitKeepsBasis(b, tick, reconciliation, capacity, user);
      case CloseStep(tick, input) =>
        CloseKeepsBasis(b, tick, input, user);
    }
  }

  /** No unit of cost basis is ever lost: what a user put in is still in lots or was used up by payments. */
  lemma {:induction false} BasisIsConserved(vault: nat, steps: seq<Step>, user: nat)
    ensures BasisKept(Run(vault, steps), user)
    decreases |steps|
  {
    if steps == [] {
      NothingPutIn(vault, user);
    } else {
      hide BasisKept, Consistent, Apply;
      BasisIsConserved(vault, steps[..|steps| - 1], user);
      VaultRuns.RunConsistent(vault, steps[..|steps| - 1]);
      StepKeepsBasis(Run(vault, steps[..|steps| - 1]), steps[|steps| - 1], user);
    }
  }

  lemma {:induction false} NothingPutIn(vault: nat, user: nat)
    ensures BasisKept(EmptyBook(vault), user)
  {
  }

  /**
   The profits in an owner's view add up: what the position is worth and what redemptions were paid, less all that the
   owner's activated deposits put in.
   */
  lemma {:induction false} ProfitsAddUp(vault: nat, steps: seq<Step>, user: nat, age: int, maxAge: int)
    requires Run(vault, steps).closings != [] && 0 <= age <= maxAge
    ensures var b := Run(vault, steps);
            var view := ViewOf(b, user, age, maxAge);
            && view.Ok? && view.value.Shown?
            && view.value.estimatedPnl + view.value.finalizedPnl
               == view.value.value + PaidTo(b.payables, b.requests, user) - PutIn(b.deposits, user)
            && view.value.finalizedPnl + PutIn(b.deposits, user)
               == PaidTo(b.payables, b.requests, user) + view.value.basis
  {
    hide Run, ViewOf, RemainingBasis, RedemptionPnl, PaidTo, PutIn;
    var b := Run(vault, steps);
    EveryOwnerIsShown(vault, steps, user, age, maxAge);
    BasisIsConserved(vault, steps, user);
    PnlIsPaidLessBasis(b.payables, b.requests, user);
  }
}
