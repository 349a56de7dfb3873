/** The state of the book between transactions, and how deposits and the queue keep it. */
module VaultConsistency {
  import opened Common
  import opened VaultTables
  import opened VaultRows
  import opened VaultReplay
  import opened VaultInvariant
  import opened VaultSteps
  import VaultLinks
  import VaultQueue
  import VaultStepLinks

  // ---------------------------------------------------------------- closed cycles

  /** Each cycle is closed, on the day after the one before, with one row in each table. */
  ghost predicate Aligned(cycles: seq<Cycle>, checkpoints: seq<Checkpoint>, liquidity: seq<Liquidity>,
                          closings: seq<Closing>)
  {
    && |cycles| == |checkpoints| == |liquidity| == |closings|
    && (forall i :: 0 <= i < |cycles| ==> cycles[i].status == Closed)
    && (forall i :: 0 < i < |cycles| ==> cycles[i].cutoff == cycles[i - 1].cutoff + 1)
    && (forall i :: 0 <= i < |liquidity| ==> liquidity[i].cycle == i == liquidity[i].checkpoint)
  }

  /**
   A closing never dilutes the shares that were active at its checkpoint, values the
   vault at nothing less than zero, and leaves no value without shares.
   */
  ghost predicate ClosingSound(c: Closing, cp: Checkpoint, i: nat) {
    && c.cycle == i == c.checkpoint
    && 0 <= c.activated && 0 <= c.matured && 0 <= c.dust && 0 <= c.supply
    && c.nav == cp.nav + c.activated - c.matured - c.dust && 0 <= c.nav <= cp.gross
    && (c.supply == 0 ==> c.nav == 0)
    && cp.nav * c.supply <= c.nav * cp.supply
  }

  ghost predicate ClosingsSound(closings: seq<Closing>, checkpoints: seq<Checkpoint>) {
    && |closings| == |checkpoints|
    && (forall i :: 0 <= i < |closings| ==> ClosingSound(closings[i], checkpoints[i], i))
  }

  // ---------------------------------------------------------------- since the last close

  predicate NonValuing(p: Payload) {
    p.DepositPending? || p.RedemptionRequested? || p.RedemptionWaiting? || p.RedemptionAdmitted?
    || p.RedemptionRedeeming?
  }

  ghost predicate QuietSince(events: seq<Event>, version: nat) {
    version <= |events| && forall i :: version <= i < |events| ==> NonValuing(events[i].payload)
  }

  /** What was deposited after a given book version. */
  function DepositedSince(deposits: seq<Deposit>, version: nat): int {
    if deposits == [] then 0
    else
      var last := deposits[|deposits| - 1];
      DepositedSince(deposits[..|deposits| - 1], version) + (if version < last.event then last.amount else 0)
  }

  /** What has and has not changed since a cycle closed. */
  ghost predicate SinceClose(b: Book, c: Closing, l: Liability) {
    && c.supply == Supply(b.shareEvents) && c.at <= b.clock
    && QuietSince(b.events, c.event)
    && ReservedSince(b.history, b.requests, c.at)
    && MaturedTotal(b.payables) == l.matured + c.matured
    && PendingTotal(b.deposits) == l.pending - c.activated + DepositedSince(b.deposits, c.event)
  }

  ghost predicate Consistent(b: Book) {
    && Linked(b) && Sound(b, b.clock)
    && Aligned(b.cycles, b.checkpoints, b.liquidity, b.closings) && ClosingsSound(b.closings, b.checkpoints)
    && (if b.closings == [] then b.shareEvents == [] && b.requests == []
        else
          && b.inception.Some? && |b.liabilities| == |b.closings|
          && SinceClose(b, b.closings[|b.closings| - 1], b.liabilities[|b.closings| - 1]))
  }

  lemma {:induction false} EmptyIsConsistent(vault: nat)
    ensures Consistent(EmptyBook(vault))
  {
    var b := EmptyBook(vault);
    assert FromTables(b) == Nothing;
    forall r: nat
      ensures RequestHistory(b.events, b.history, b.requests, r)
    {
      assert Transitions(StatusesOf(b.events, r)) == [];
    }
  }

  // ---------------------------------------------------------------- deposits

  lemma {:induction false} OneMoreDeposit(deposits: seq<Deposit>, d: Deposit, version: nat)
    requires d.status == Pending
    ensures PendingTotal(deposits + [d]) == PendingTotal(deposits) + d.amount
    ensures DepositedSince(deposits + [d], version)
         == DepositedSince(deposits, version) + (if version < d.event then d.amount else 0)
  {
    Snoc(deposits, d);
  }

  lemma {:induction false} DepositSound(b: Book, r: Deposit, now: int)
    requires Linked(b) && Sound(b, b.clock) && 0 < r.amount && r.status == Pending && b.clock <= now
    ensures Linked(AddDeposit(b, r)) && Sound(AddDeposit(b, r), now)
  {
    hide Linked, LotBook, QueueSound, MarksSound, PayablesSound, CheckpointsSound, FeesSound, HistorySound,
         BurnsMatched;
    VaultLinks.DepositLinked(b, r);
    VaultQueue.HistoryLater(b.history, b.requests, b.clock, now);
  }

  lemma {:induction false} ClockLinked(b: Book, keys: map<string, nat>, now: int)
    requires Linked(b)
    ensures Linked(b.(depositKeys := keys, clock := now))
  {
    hide FoldAll, OfKind, SharesMatched, LifecycleMatched, HistoryMatched;
    var after := b.(depositKeys := keys, clock := now);
    assert forall k :: RowsOf(after, k) == RowsOf(b, k);
  }

  lemma {:induction false} ClockAlone(b: Book, keys: map<string, nat>, now: int)
    requires Linked(b) && Sound(b, now)
    ensures Linked(b.(depositKeys := keys, clock := now)) && Sound(b.(depositKeys := keys, clock := now), now)
  {
    hide Linked, LotBook, QueueSound, MarksSound, PayablesSound, CheckpointsSound, DepositsSound, FeesSound,
         HistorySound, BurnsMatched;
    ClockLinked(b, keys, now);
  }

  lemma {:induction false} DepositSince(b: Book, r: Deposit, key: string, now: int, c: Closing, l: Liability)
    requires SinceClose(b, c, l) && r.status == Pending && b.clock <= now
    ensures SinceClose(Deposited(b, r, key, now), c, l)
  {
    OneMoreDeposit(b.deposits, r.(event := Next(b)), c.event);
  }

  lemma {:induction false} DepositRowConsistent(b: Book, r: Deposit, key: string, now: int)
    requires Consistent(b) && 0 < r.amount && r.status == Pending && b.clock <= now
    ensures Consistent(Deposited(b, r, key, now))
  {
    hide Linked, Sound, Aligned, ClosingsSound, SinceClose;
    DepositSound(b, r, now);
    ClockAlone(AddDeposit(b, r), b.depositKeys[key := |b.deposits|], now);
    if b.closings != [] {
      DepositSince(b, r, key, now, b.closings[|b.closings| - 1], b.liabilities[|b.closings| - 1]);
    }
  }

  lemma {:induction false} DepositOutcome(b: Book, tick: Positive, user: nat, amount: int, source: string, key: string)
    ensures var r, now := RecordDeposit(b, tick, user, amount, source, key), b.clock + tick;
            r.Ok? ==>
              || r == Ok(b)
              || (0 < amount
              && r == Ok(Deposited(b, Deposit(user, amount, DayOf(now) + 1, source, Pending, 0), key, now)))
  {
  }

  lemma {:induction false} DepositConsistent(b: Book, tick: Positive, user: nat, amount: int, source: string,
                                             key: string)
    requires Consistent(b) && RecordDeposit(b, tick, user, amount, source, key).Ok?
    ensures Consistent(RecordDeposit(b, tick, user, amount, source, key).value)
  {
    hide Consistent;
    DepositOutcome(b, tick, user, amount, source, key);
    var now := b.clock + tick;
    if 0 < amount {
      DepositRowConsistent(b, Deposit(user, amount, DayOf(now) + 1, source, Pending, 0), key, now);
    }
  }

  // ---------------------------------------------------------------- redemption requests

  lemma {:induction false} RequestSoundly(b: Book, r: Request, now: int)
    requires Linked(b) && Sound(b, b.clock) && b.clock <= now && r.status == Queued && 0 < r.shares
    requires r.shares <= Balance(b.shareEvents, r.user) - ReservedShares(b.reserves, b.requests, r.user)
    requires !HasOpenRequest(b.requests, r.user)
    ensures Linked(AddRequest(b, r, now)) && Sound(AddRequest(b, r, now), now)
  {
    hide LotBook, CheckpointsSound, FeesSound, DepositsSound, QueueSound, MarksSound, PayablesSound, HistorySound,
         BurnsMatched, Linked;
    var after := AddRequest(b, r, now);
    var row := after.requests[|b.requests|];
    VaultLinks.RequestLinked(b, r, now);
    VaultQueue.HistoryLater(b.history, b.requests, b.clock, now);
    VaultQueue.ChangeInHistory(b.history, b.requests, after.requests, after.history[|b.history|]);
    VaultQueue.RequestJoins(b.requests, b.reserves, b.shareEvents, row);
    VaultQueue.MarksKept(b.reserveMarks, b.requests, after.requests, b.checkpoints);
    VaultQueue.PayablesKept(b.payables, b.reserveMarks, b.reserveMarks, b.requests, after.requests);
  }

  lemma {:induction false} RequestSince(b: Book, r: Request, now: int, c: Closing, l: Liability)
    requires SinceClose(b, c, l) && r.status == Queued && b.clock <= now
    ensures SinceClose(Requested(b, r, now), c, l)
  {
    var after := AddRequest(b, r, now);
    VaultQueue.ReservedSinceKept(b.history, b.requests, after.requests, after.history[|b.history|], c.at);
  }

  /** Before any shares exist, nobody can ask for any to be redeemed. */
  lemma {:induction false} NothingToRedeem(b: Book, user: nat)
    requires Consistent(b) && b.shareEvents == []
    ensures Balance(b.shareEvents, user) - ReservedShares(b.reserves, b.requests, user) <= 0
  {
    hide Linked, LotBook, MarksSound, PayablesSound, CheckpointsSound, DepositsSound, FeesSound, HistorySound,
         BurnsMatched, Aligned, ClosingsSound, SinceClose;
    VaultQueue.ReservedIsPositive(b.reserves, b.requests, user);
  }

  lemma {:induction false} RequestRowConsistent(b: Book, r: Request, now: int)
    requires Consistent(b) && b.clock <= now && r.status == Queued && 0 < r.shares
    requires r.shares <= Balance(b.shareEvents, r.user) - ReservedShares(b.reserves, b.requests, r.user)
    requires !HasOpenRequest(b.requests, r.user)
    ensures Consistent(Requested(b, r, now))
  {
    if b.shareEvents == [] {
      NothingToRedeem(b, r.user);
    }
    hide Linked, Sound, Aligned, ClosingsSound, SinceClose;
    RequestSoundly(b, r, now);
    ClockAlone(AddRequest(b, r, now), b.depositKeys, now);
    if b.closings != [] {
      RequestSince(b, r, now, b.closings[|b.closings| - 1], b.liabilities[|b.closings| - 1]);
    }
  }

  lemma {:induction false} RequestOutcome(b: Book, tick: Positive, user: nat, shares: int, key: string)
    ensures var r, now := RequestRedemption(b, tick, user, shares, key), b.clock + tick;
            r.Ok? ==>
              || r == Ok(b)
              || (&& 0 < shares <= Balance(b.shareEvents, user) - ReservedShares(b.reserves, b.requests, user)
                  && !HasOpenRequest(b.requests, user)
                  && r == Ok(Requested(b, Request(user, shares, key, Queued, 0, 0, 0), now)))
  {
  }

  lemma {:induction false} RequestConsistent(b: Book, tick: Positive, user: nat, shares: int, key: string)
    requires Consistent(b) && RequestRedemption(b, tick, user, shares, key).Ok?
    ensures Consistent(RequestRedemption(b, tick, user, shares, key).value)
  {
    hide Consistent;
    RequestOutcome(b, tick, user, shares, key);
    if RequestRedemption(b, tick, user, shares, key) != Ok(b) {
      RequestRowConsistent(b, Request(user, shares, key, Queued, 0, 0, 0), b.clock + tick);
    }
  }

  // ---------------------------------------------------------------- admission

  /** Only the head of the queue is ever admitted or postponed. */
  lemma {:induction false} HeadIsFirst(requests: seq<Request>)
    ensures var head := FirstInQueue(requests);
            if head.None? then forall i :: 0 <= i < |requests| ==> !InQueue(requests[i].status)
            else forall i :: 0 <= i < head.value ==> !InQueue(requests[i].status)
  {
    if requests != [] {
      HeadIsFirst(requests[..|requests| - 1]);
    }
  }

  lemma {:induction false} AdmissionTables(b: Book, r: nat, reconciliation: nat, capacity: Capacity, now: int)
    requires r < |b.requests| && b.closings != []
    ensures var after := Admission(b, r, reconciliation, capacity, now);
            var before := b.requests[r];
            && after == b.(events := after.events, requests := after.requests, history := after.history,
                           reserves := after.reserves)
            && after.requests
               == b.requests[r := before.(status := Redeeming, startsAt := now, endsAt := now + REDEMPTION_WINDOW_MS)]
            && after.history == b.history + [Move(r, Some(before.status), Admitted, now)]
                                + [Move(r, Some(Admitted), Redeeming, now)]
            && |after.reserves| == |b.reserves| + 1 && after.reserves[..|b.reserves|] == b.reserves
            && after.reserves[|b.reserves|].request == r && after.reserves[|b.reserves|].shares == before.shares
            && |after.events| == |b.events| + 2 && after.events[..|b.events|] == b.events
            && NonValuing(after.events[|b.events|].payload) && NonValuing(after.events[|b.events| + 1].payload)
  {
  }

  lemma {:induction false} AdmissionSound(b: Book, r: nat, reconciliation: nat, capacity: Capacity, now: int)
    requires Sound(b, b.clock) && b.clock <= now && FirstInQueue(b.requests) == Some(r) && b.closings != []
    ensures Sound(Admission(b, r, reconciliation, capacity, now), now)
  {
    hide LotBook, CheckpointsSound, FeesSound, DepositsSound, QueueSound, MarksSound, PayablesSound, HistorySound,
         BurnsMatched;
    var after := Admission(b, r, reconciliation, capacity, now);
    AdmissionTables(b, r, reconciliation, capacity, now);
    HeadIsFirst(b.requests);
    var middle := b.requests[r := b.requests[r].(status := Admitted)];
    var first := Move(r, Some(b.requests[r].status), Admitted, now);
    VaultQueue.HistoryLater(b.history, b.requests, b.clock, now);
    VaultQueue.ChangeInHistory(b.history, b.requests, middle, first);
    VaultQueue.ChangeInHistory(b.history + [first], middle, after.requests, Move(r, Some(Admitted), Redeeming, now));
    VaultQueue.HeadMoves(b.requests, b.reserves, b.shareEvents, r, after.requests[r], after.reserves);
    VaultQueue.MarksKept(b.reserveMarks, b.requests, after.requests, b.checkpoints);
    VaultQueue.PayablesKept(b.payables, b.reserveMarks, b.reserveMarks, b.requests, after.requests);
  }

  lemma {:induction false} PostponedTables(b: Book, r: nat, reconciliation: nat, capacity: Capacity, now: int)
    requires r < |b.requests|
    ensures var after := Postponed(b, r, reconciliation, capacity, now);
            && after == b.(events := after.events, requests := after.requests, history := after.history,
                           waiting := after.waiting)
            && after.requests == b.requests[r := b.requests[r].(status := WaitingLiquidity)]
            && after.history == b.history + [Move(r, Some(b.requests[r].status), WaitingLiquidity, now)]
            && |after.events| == |b.events| + 1 && after.events[..|b.events|] == b.events
            && NonValuing(after.events[|b.events|].payload)
  {
  }

  lemma {:induction false} PostponedSound(b: Book, r: nat, reconciliation: nat, capacity: Capacity, now: int)
    requires Sound(b, b.clock) && b.clock <= now && FirstInQueue(b.requests) == Some(r)
    ensures Sound(Postponed(b, r, reconciliation, capacity, now), now)
  {
    var after := Postponed(b, r, reconciliation, capacity, now);
    PostponedTables(b, r, reconciliation, capacity, now);
    HeadIsFirst(b.requests);
    VaultQueue.HistoryLater(b.history, b.requests, b.clock, now);
    VaultQueue.ChangeInHistory(b.history, b.requests, after.requests, after.history[|b.history|]);
    VaultQueue.HeadMoves(b.requests, b.reserves, b.shareEvents, r, after.requests[r], b.reserves);
    VaultQueue.MarksKept(b.reserveMarks, b.requests, after.requests, b.checkpoints);
    VaultQueue.PayablesKept(b.payables, b.reserveMarks, b.reserveMarks, b.requests, after.requests);
  }

  lemma {:induction false} AdmissionSince(b: Book, r: nat, reconciliation: nat, capacity: Capacity, now: int,
                                          c: Closing, l: Liability)
    requires SinceClose(b, c, l) && r < |b.requests| && b.closings != [] && b.clock <= now
    ensures SinceClose(Admission(b, r, reconciliation, capacity, now).(clock := now), c, l)
  {
    var after := Admission(b, r, reconciliation, capacity, now);
    AdmissionTables(b, r, reconciliation, capacity, now);
    var first := Move(r, Some(b.requests[r].status), Admitted, now);
    VaultQueue.ReservedSinceKept(b.history, b.requests, after.requests, first, c.at);
    VaultQueue.ReservedSinceKept(b.history + [first], after.requests, after.requests,
                                 Move(r, Some(Admitted), Redeeming, now), c.at);
    assert forall i :: 0 <= i < |b.events| ==> after.events[i] == after.events[..|b.events|][i];
  }

  lemma {:induction false} PostponedSince(b: Book, r: nat, reconciliation: nat, capacity: Capacity, now: int,
                                          c: Closing, l: Liability)
    requires SinceClose(b, c, l) && r < |b.requests| && b.requests[r].status == Queued && b.clock <= now
    ensures SinceClose(Postponed(b, r, reconciliation, capacity, now).(clock := now), c, l)
  {
    var after := Postponed(b, r, reconciliation, capacity, now);
    PostponedTables(b, r, reconciliation, capacity, now);
    VaultQueue.ReservedSinceKept(b.history, b.requests, after.requests, after.history[|b.history|], c.at);
    assert forall i :: 0 <= i < |b.events| ==> after.events[i] == after.events[..|b.events|][i];
  }

  lemma {:induction false} AdmissionConsistent(b: Book, r: nat, reconciliation: nat, capacity: Capacity, now: int)
    requires Consistent(b) && b.clock <= now && FirstInQueue(b.requests) == Some(r) && b.closings != []
    ensures Consistent(Admission(b, r, reconciliation, capacity, now).(clock := now))
  {
    hide Linked, Sound, Aligned, ClosingsSound, SinceClose;
    AdmissionTables(b, r, reconciliation, capacity, now);
    AdmissionSound(b, r, reconciliation, capacity, now);
    VaultStepLinks.AdmissionLinked(b, r, reconciliation, capacity, now);
    ClockAlone(Admission(b, r, reconciliation, capacity, now), b.depositKeys, now);
    AdmissionSince(b, r, reconciliation, capacity, now, b.closings[|b.closings| - 1], b.liabilities[|b.closings| - 1]);
  }

  lemma {:induction false} PostponedConsistent(b: Book, r: nat, reconciliation: nat, capacity: Capacity, now: int)
    requires Consistent(b) && b.clock <= now && FirstInQueue(b.requests) == Some(r) && b.closings != []
    requires b.requests[r].status == Queued
    ensures Consistent(Postponed(b, r, reconciliation, capacity, now).(clock := now))
  {
    hide Linked, Sound, Aligned, ClosingsSound, SinceClose;
    PostponedTables(b, r, reconciliation, capacity, now);
    PostponedSound(b, r, reconciliation, capacity, now);
    VaultStepLinks.PostponedLinked(b, r, reconciliation, capacity, now);
    ClockAlone(Postponed(b, r, reconciliation, capacity, now), b.depositKeys, now);
    PostponedSince(b, r, reconciliation, capacity, now, b.closings[|b.closings| - 1], b.liabilities[|b.closings| - 1]);
  }

  /** Time alone changes nothing. */
  lemma {:induction false} ClockConsistent(b: Book, now: int)
    requires Consistent(b) && b.clock <= now
    ensures Consistent(b.(clock := now))
  {
    hide Linked, LotBook, QueueSound, MarksSound, PayablesSound, CheckpointsSound, DepositsSound, FeesSound,
         HistorySound, BurnsMatched, Aligned, ClosingsSound;
    VaultQueue.HistoryLater(b.history, b.requests, b.clock, now);
    ClockAlone(b, b.depositKeys, now);
  }

  lemma {:induction false} AdmissionOutcome(b: Book, tick: Positive, reconciliation: nat, capacity: Option<Capacity>)
    ensures var r, now := AdmitNext(b, tick, reconciliation, capacity), b.clock + tick;
            var head := FirstInQueue(b.requests);
            r.Ok? ==>
              || r == Ok(b) || r == Ok(b.(clock := now))
              || (&& b.closings != [] && head.Some? && capacity.Some?
                  && (|| r == Ok(Admission(b, head.value, reconciliation, capacity.value, now).(clock := now))
                      || (&& b.requests[head.value].status == Queued
                          && r == Ok(Postponed(b, head.value, reconciliation, capacity.value, now).(clock := now)))))
  {
  }

  lemma {:induction false} AdmitConsistent(b: Book, tick: Positive, reconciliation: nat, capacity: Option<Capacity>)
    requires Consistent(b) && AdmitNext(b, tick, reconciliation, capacity).Ok?
    ensures Consistent(AdmitNext(b, tick, reconciliation, capacity).value)
  {
    hide Consistent, Admission, Postponed;
    AdmissionOutcome(b, tick, reconciliation, capacity);
    var now, head := b.clock + tick, FirstInQueue(b.requests);
    ClockConsistent(b, now);
    if b.closings != [] && head.Some? && capacity.Some? {
      AdmissionConsistent(b, head.value, reconciliation, capacity.value, now);
      if b.requests[head.value].status == Queued {
        PostponedConsistent(b, head.value, reconciliation, capacity.value, now);
      }
    }
  }
}
