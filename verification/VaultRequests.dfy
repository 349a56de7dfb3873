/** How deposits, redemption requests and admissions end, told from the rows of the tables. */
module VaultRequests {
  import opened Common
  import opened VaultTables
  import opened VaultSteps
  import opened VaultConsistency

  // ---------------------------------------------------------------- what is written

  /** The event stands at the given place of the log, at the next version and chained to the one before. */
  ghost predicate Chains(b: Book, events: seq<Event>, k: nat, entity: nat, payload: Payload) {
    && k < |events|
    && var e := events[k];
       && e.version == k + 1 && e.entity == entity && e.payload == payload
       && e.previous == (if k == 0 then None else Some(events[k - 1].digest))
       && e.digest == Digest(b.vault, k + 1, e.previous, entity, payload)
  }

  /** The log has `n` events more. */
  ghost predicate LogGrows(b: Book, after: Book, n: nat) {
    |after.events| == |b.events| + n && b.events <= after.events
  }

  // ---------------------------------------------------------------- deposits

  /** How recording a deposit ends: a key is used once, and so is a source; what is new waits for the next day. */
  lemma {:induction false} DepositEnds(b: Book, tick: Positive, user: nat, amount: int, source: string, key: string)
    ensures var r, now := RecordDeposit(b, tick, user, amount, source, key), b.clock + tick;
            if amount <= 0 then r == Err(InvalidDepositAmount)
            else if !(1 <= |source| <= 300) then r == Err(InvalidDepositSource)
            else if !(1 <= |key| <= 200) then r == Err(InvalidDepositKey)
            else if key in b.depositKeys then
              var i := b.depositKeys[key];
              if i < |b.deposits| && b.deposits[i].user == user && b.deposits[i].amount == amount
                 && b.deposits[i].source == source
              then r == Ok(b)
              else r == Err(IdempotencyConflict)
            else if b.inception.None? || source == "internal:founder-seed:v1" then r == Err(DepositMismatch)
            else if exists i :: 0 <= i < |b.deposits| && b.deposits[i].source == source
            then r == Err(DepositSourceTaken)
            else
              && r.Ok?
              && var after, n := r.value, |b.deposits|;
                 && after == b.(events := after.events, deposits := after.deposits, depositKeys := after.depositKeys,
                                clock := now)
                 && after.deposits
                    == b.deposits + [Deposit(user, amount, now / 86400000 + 1, source, Pending, |b.events| + 1)]
                 && after.depositKeys == b.depositKeys[key := n]
                 && LogGrows(b, after, 1)
                 && Chains(b, after.events, |b.events|, n, DepositPending(user, amount, source))
  {
  }

  // ---------------------------------------------------------------- redemption requests

  /** A user's request of a key: the row that has both or, when there is none, the next one. */
  ghost predicate RequestOf(requests: seq<Request>, user: nat, key: string, i: nat) {
    if i < |requests| then
      && requests[i].user == user && requests[i].key == key
      && forall k :: i < k < |requests| ==> !(requests[k].user == user && requests[k].key == key)
    else
      i == |requests| && forall k :: 0 <= k < |requests| ==> !(requests[k].user == user && requests[k].key == key)
  }

  lemma {:induction false} RequestIsFound(requests: seq<Request>, user: nat, key: string, i: nat)
    requires RequestOf(requests, user, key, i)
    ensures FindRequest(requests, user, key) == if i < |requests| then Some(i) else None
    decreases |requests|
  {
    if requests != [] {
      var n := |requests| - 1;
      if !(requests[n].user == user && requests[n].key == key) {
        RequestIsFound(requests[..n], user, key, if i < |requests| then i else n);
      }
    }
  }

  /** The shares that a user's open and admitted requests keep from being asked for again. */
  function HeldBack(reserves: seq<Reserve>, requests: seq<Request>, user: nat): int {
    if reserves == [] then 0
    else
      var n := |reserves| - 1;
      HeldBack(reserves[..n], requests, user)
      + (if reserves[n].request < |requests| && requests[reserves[n].request].user == user
            && requests[reserves[n].request].status in {Admitted, Redeeming}
         then reserves[n].shares else 0)
  }

  /** What a user's mints have brought beyond what their burns took. */
  function Holding(shareEvents: seq<ShareEvent>, user: nat): int {
    if shareEvents == [] then 0
    else
      var n := |shareEvents| - 1;
      var e := shareEvents[n];
      Holding(shareEvents[..n], user)
      + (if e.user != user then 0 else if e.cause.MintOf? then e.shares else -e.shares)
  }

  lemma {:induction false} HoldingIsBalance(shareEvents: seq<ShareEvent>, user: nat)
    ensures Holding(shareEvents, user) == Balance(shareEvents, user)
  {
    if shareEvents != [] {
      HoldingIsBalance(shareEvents[..|shareEvents| - 1], user);
    }
  }

  lemma {:induction false} HeldBackIsReserved(reserves: seq<Reserve>, requests: seq<Request>, user: nat)
    ensures HeldBack(reserves, requests, user) == ReservedShares(reserves, requests, user)
  {
    if reserves != [] {
      HeldBackIsReserved(reserves[..|reserves| - 1], requests, user);
    }
  }

  /**
   How a redemption request ends: a user's key is used once; the user needs a position, as many shares that are not
   held back, and no other request under way.
   */
  lemma {:induction false} RequestEnds(b: Book, tick: Positive, user: nat, shares: int, key: string, i: nat)
    requires RequestOf(b.requests, user, key, i)
    ensures var r, now := RequestRedemption(b, tick, user, shares, key), b.clock + tick;
            if shares <= 0 then r == Err(InvalidRedemptionShares)
            else if !(1 <= |key| <= 200) then r == Err(InvalidRedemptionKey)
            else if i < |b.requests| then
              r == if b.requests[i].shares == shares then Ok(b) else Err(RedemptionIdempotencyConflict)
            else if user !in b.positions then r == Err(PositionMissing)
            else if Holding(b.shareEvents, user) - HeldBack(b.reserves, b.requests, user) < shares
            then r == Err(ExceedsUnreservedHolding)
            else if exists k :: 0 <= k < |b.requests| && b.requests[k].user == user
                                && b.requests[k].status in {Queued, WaitingLiquidity, Admitted, Redeeming}
            then r == Err(OpenRequestExists)
            else
              && r.Ok?
              && var after := r.value;
                 && after == b.(events := after.events, requests := after.requests, history := after.history,
                                clock := now)
                 && after.requests == b.requests + [Request(user, shares, key, Queued, 0, 0, |b.events| + 1)]
                 && after.history == b.history + [Move(i, None, Queued, now)]
                 && LogGrows(b, after, 1)
                 && Chains(b, after.events, |b.events|, i, RedemptionRequested(user, shares))
  {
    RequestIsFound(b.requests, user, key, i);
    HoldingIsBalance(b.shareEvents, user);
    HeldBackIsReserved(b.reserves, b.requests, user);
    hide Balance, ReservedShares, FindRequest, Holding, HeldBack;
  }

  // ---------------------------------------------------------------- admission

  predicate Waits(status: Status) {
    status in {Queued, WaitingLiquidity}
  }

  /** The first request that waits or, when none does, the number of requests. */
  ghost predicate HeadOfQueue(requests: seq<Request>, r: nat) {
    && r <= |requests| && (r < |requests| ==> Waits(requests[r].status))
    && forall k :: 0 <= k < r ==> !Waits(requests[k].status)
  }

  lemma {:induction false} HeadIsTarget(b: Book, r: nat)
    requires HeadOfQueue(b.requests, r)
    ensures AdmissionTarget(b) == if b.closings == [] || r == |b.requests| then None else Some(r)
  {
    HeadIsFirst(b.requests);
    var head := FirstInQueue(b.requests);
    hide FirstInQueue;
    if head.Some? && r < |b.requests| {
      assert !(r < head.value) && !(head.value < r);
    }
  }

  /** A queued head for which there is too little liquidity: it waits from now on, and why is recorded. */
  ghost predicate Postpones(b: Book, after: Book, r: nat, reconciliation: nat, required: int, available: int, now: int)
    requires r < |b.requests|
  {
    && after == b.(events := after.events, requests := after.requests, history := after.history,
                   waiting := after.waiting, clock := now)
    && after.requests == b.requests[r := b.requests[r].(status := WaitingLiquidity)]
    && after.history == b.history + [Move(r, Some(Queued), WaitingLiquidity, now)]
    && after.waiting == b.waiting + [WaitingEvidence(r, reconciliation, required, available, |b.events| + 1)]
    && LogGrows(b, after, 1)
    && Chains(b, after.events, |b.events|, |b.waiting|, RedemptionWaiting(r, reconciliation, required, available))
  }

  /** A head that is admitted: its window opens, its shares are reserved at the last close, and it starts redeeming. */
  ghost predicate Admits(b: Book, after: Book, r: nat, reconciliation: nat, required: int, available: int, now: int)
    requires r < |b.requests| && b.closings != []
  {
    var was, last, n := b.requests[r], b.closings[|b.closings| - 1], |b.reserves|;
    && after == b.(events := after.events, requests := after.requests, history := after.history,
                   reserves := after.reserves, clock := now)
    && after.requests == b.requests[r := was.(status := Redeeming, startsAt := now, endsAt := now + 259200000)]
    && after.history == b.history + [Move(r, Some(was.status), Admitted, now), Move(r, Some(Admitted), Redeeming, now)]
    && after.reserves == b.reserves + [Reserve(r, was.shares, reconciliation, last.cycle, last.checkpoint, required,
                                               available, |b.events| + 1)]
    && LogGrows(b, after, 2)
    && Chains(b, after.events, |b.events|, n,
              RedemptionAdmitted(r, was.shares, reconciliation, last.cycle, last.checkpoint, required, available))
    && Chains(b, after.events, |b.events| + 1, |b.events| + 2, RedemptionRedeeming(r, Some(n)))
  }

  lemma {:induction false} PostponedPostpones(b: Book, r: nat, reconciliation: nat, capacity: Capacity, now: int)
    requires r < |b.requests| && b.requests[r].status == Queued
    ensures Postpones(b, Postponed(b, r, reconciliation, capacity, now).(clock := now), r, reconciliation,
                      capacity.required, capacity.available, now)
  {
  }

  lemma {:induction false} AdmissionAdmits(b: Book, r: nat, reconciliation: nat, capacity: Capacity, now: int)
    requires r < |b.requests| && b.closings != []
    ensures Admits(b, Admission(b, r, reconciliation, capacity, now).(clock := now), r, reconciliation,
                   capacity.required, capacity.available, now)
  {
  }

  lemma {:induction false} TooLittle(b: Book, tick: Positive, reconciliation: nat, capacity: Capacity, r: nat)
    requires HeadOfQueue(b.requests, r) && b.closings != [] && r < |b.requests|
    requires capacity.available < capacity.required
    ensures var result, now := AdmitNext(b, tick, reconciliation, Some(capacity)), b.clock + tick;
            if b.requests[r].status == Queued then
              && result.Ok?
              && Postpones(b, result.value, r, reconciliation, capacity.required, capacity.available, now)
            else result == Ok(b.(clock := now))
  {
    HeadIsTarget(b, r);
    hide Postpones, Postponed, AdmissionTarget, EvidenceUsed, Admission, HeadOfQueue;
    if b.requests[r].status == Queued {
      PostponedPostpones(b, r, reconciliation, capacity, b.clock + tick);
    }
  }

  lemma {:induction false} Enough(b: Book, tick: Positive, reconciliation: nat, capacity: Capacity, r: nat)
    requires HeadOfQueue(b.requests, r) && b.closings != [] && r < |b.requests|
    requires capacity.required <= capacity.available
    ensures var result, now := AdmitNext(b, tick, reconciliation, Some(capacity)), b.clock + tick;
            if exists k :: 0 <= k < |b.reserves| && b.reserves[k].reconciliation == reconciliation
            then result == Err(AdmissionEvidenceUsed)
            else
              && result.Ok?
              && Admits(b, result.value, r, reconciliation, capacity.required, capacity.available, now)
  {
    HeadIsTarget(b, r);
    hide Admits, Postponed, AdmissionTarget, Admission, HeadOfQueue;
    AdmissionAdmits(b, r, reconciliation, capacity, b.clock + tick);
  }

  /**
   How an admission ends. Nothing happens before the first close or without a queue. With too little liquidity a queued
   head starts to wait, and one that waits goes on waiting. With enough of it the head is admitted, unless the
   reconciliation has served for another admission.
   */
  lemma {:induction false} AdmissionEnds(b: Book, tick: Positive, reconciliation: nat, capacity: Option<Capacity>,
                                         r: nat)
    requires HeadOfQueue(b.requests, r)
    ensures var result, now := AdmitNext(b, tick, reconciliation, capacity), b.clock + tick;
            if b.closings == [] || r == |b.requests| then result == Ok(b)
            else if capacity.None? then result == Err(AdmissionEvidenceUnavailable)
            else
              var required, available := capacity.value.required, capacity.value.available;
              if available < required && b.requests[r].status == Queued then
                result.Ok? && Postpones(b, result.value, r, reconciliation, required, available, now)
              else if available < required then result == Ok(b.(clock := now))
              else if exists k :: 0 <= k < |b.reserves| && b.reserves[k].reconciliation == reconciliation
              then result == Err(AdmissionEvidenceUsed)
              else result.Ok? && Admits(b, result.value, r, reconciliation, required, available, now)
  {
    HeadIsTarget(b, r);
    hide Postpones, Admits, Postponed, Admission, AdmissionTarget, HeadOfQueue;
    if b.closings != [] && r < |b.requests| && capacity.Some? {
      hide AdmitNext;
      if capacity.value.available < capacity.value.required {
        TooLittle(b, tick, reconciliation, capacity.value, r);
      } else {
        Enough(b, tick, reconciliation, capacity.value, r);
      }
    }
  }
}
