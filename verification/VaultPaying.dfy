/** Paying the redemptions that have matured: one burn and one payable each, never more than their worth. */
module VaultPaying {
  import opened Common
  import opened VaultTables
  import opened VaultLots
  import opened VaultRows
  import opened VaultReplay
  import opened VaultInvariant
  import opened VaultSteps
  import ShareRedemption
  import VaultQueue
  import VaultStepLinks

  // ---------------------------------------------------------------- one redemption

  /** A redeeming request that this cycle has marked, in a book whose supply has only fallen since. */
  ghost predicate Ripe(b: Book, cycle: nat, r: nat) {
    && r < |b.requests| && b.requests[r].status == Redeeming && MarkOf(b.reserveMarks, cycle, r).Some?
    && cycle < |b.checkpoints| && Supply(b.shareEvents) <= b.checkpoints[cycle].supply
  }

  function BurnFor(b: Book, r: nat, basis: int, checkpoint: nat): ShareEvent
    requires r < |b.requests|
  {
    ShareEvent(BurnOf(r), b.requests[r].user, b.requests[r].shares, basis, checkpoint, Next(b))
  }

  lemma {:induction false} QueueIsRequests(requests: seq<Request>, reserves: seq<Reserve>, shareEvents: seq<ShareEvent>)
    requires QueueSound(requests, reserves, shareEvents)
    ensures RequestsSound(requests, reserves, shareEvents)
  {
  }

  lemma {:induction false} Unpaid(payables: seq<Payable>, marks: seq<ReserveMark>, requests: seq<Request>, r: nat)
    requires PayablesSound(payables, marks, requests) && r < |requests| && requests[r].status != Claimable
    ensures PayableOf(payables, r).None? && PayablesFor(payables, r) == 0
  {
    forall k | 0 <= k < |payables|
      ensures payables[k].request != r
    {
      assert PayableSound(payables[k], marks, requests);
    }
    VaultQueue.PaidOnce(payables, r);
  }

  /** The mark binds exactly what the request is worth at its checkpoint. */
  lemma {:induction false} MarkBinds(b: Book, cycle: nat, r: nat)
    requires Ripe(b, cycle, r) && MarksSound(b.reserveMarks, b.requests, b.checkpoints)
    ensures var m := b.reserveMarks[MarkOf(b.reserveMarks, cycle, r).value];
            && 0 < b.checkpoints[cycle].supply && m.checkpoint == cycle && m.request == r
            && m.amount == Worth(b.requests[r].shares, b.checkpoints[cycle])
  {
    assert MarkSound(b.reserveMarks[MarkOf(b.reserveMarks, cycle, r).value], b.requests, b.checkpoints);
  }

  /** A ripe request is within its position's balance, and that within the checkpoint's supply. */
  lemma {:induction false} RipeWithinSupply(b: Book, cycle: nat, r: nat)
    requires Ripe(b, cycle, r) && LotBook(b.shareEvents, b.lots, b.allocations)
    requires RequestsSound(b.requests, b.reserves, b.shareEvents)
    ensures 0 < b.requests[r].shares <= Balance(b.shareEvents, b.requests[r].user) <= Supply(b.shareEvents)
  {
    hide LotBook;
    assert RequestSound(b.requests[r], r, b.reserves, b.shareEvents);
    BalanceWithinSupply(b.shareEvents, b.lots, b.allocations, b.requests[r].user);
  }

  /** A ripe request is always paid: no guard of the payment can fire. */
  lemma {:induction false} RipeIsPaid(b: Book, cycle: nat, r: nat, now: int)
    requires Sound(b, now) && Ripe(b, cycle, r) && 0 <= b.checkpoints[cycle].nav
    ensures 0 < b.checkpoints[cycle].supply
    ensures var cp, request := b.checkpoints[cycle], b.requests[r];
            var plan := PlanBurn(b.lots, b.allocations, request.user, request.shares, |b.lots|);
            && plan.Ok? && plan.value.remaining == 0
            && FinalizeOne(b, cycle, cycle, cp, r, now)
               == Ok(Finalization(b, r, MarkOf(b.reserveMarks, cycle, r).value, Worth(request.shares, cp), plan.value,
                                  cycle, now))
  {
    hide LotBook, QueueSound, PayablesSound, MarksSound, CheckpointsSound, DepositsSound, FeesSound, HistorySound,
         BurnsMatched, ShareRedemption.FinalizeRedemptions, Balance;
    QueueIsRequests(b.requests, b.reserves, b.shareEvents);
    Unpaid(b.payables, b.reserveMarks, b.requests, r);
    MarkBinds(b, cycle, r);
    RipeWithinSupply(b, cycle, r);
    var request := b.requests[r];
    ShareRedemption.SingleRedemption(b.checkpoints[cycle].nav, b.checkpoints[cycle].supply, request.user,
                                     request.shares, Balance(b.shareEvents, request.user));
    BurnKeepsLots(b.shareEvents, b.lots, b.allocations, BurnFor(b, r, 0, cycle));
  }

  // ---------------------------------------------------------------- what the payment writes

  lemma {:induction false} FinalizationTables(b: Book, r: nat, mark: nat, amount: int, plan: Plan, checkpoint: nat,
                                              now: int)
    requires r < |b.requests|
    ensures var after, request := Finalization(b, r, mark, amount, plan, checkpoint, now), b.requests[r];
            && after == b.(events := after.events, shareEvents := after.shareEvents, allocations := after.allocations,
                           payables := after.payables, requests := after.requests, history := after.history)
            && after.shareEvents == b.shareEvents + [BurnFor(b, r, plan.basis, checkpoint)]
            && after.allocations == Recorded(b.allocations, |b.shareEvents|, plan.parts)
            && after.payables == b.payables + [Payable(r, mark, request.shares, amount, plan.basis, Next(b))]
            && after.requests == b.requests[r := request.(status := Claimable)]
            && after.history == b.history + [Move(r, Some(request.status), Finalized, now)]
                                + [Move(r, Some(Finalized), Claimable, now)]
  {
  }

  lemma {:induction false} HistoryAfterPayment(b: Book, r: nat, now: int)
    requires r < |b.requests| && HistorySound(b.history, b.requests, now)
    ensures HistorySound(b.history + [Move(r, Some(b.requests[r].status), Finalized, now)]
                         + [Move(r, Some(Finalized), Claimable, now)],
                         b.requests[r := b.requests[r].(status := Claimable)], now)
  {
    var middle := b.requests[r := b.requests[r].(status := Finalized)];
    var first := Move(r, Some(b.requests[r].status), Finalized, now);
    VaultQueue.ChangeInHistory(b.history, b.requests, middle, first);
    VaultQueue.ChangeInHistory(b.history + [first], middle, b.requests[r := b.requests[r].(status := Claimable)],
                               Move(r, Some(Finalized), Claimable, now));
  }

  lemma {:induction false} PaymentSound(b: Book, cycle: nat, r: nat, plan: Plan, now: int)
    requires Sound(b, now) && Ripe(b, cycle, r) && 0 < b.checkpoints[cycle].supply && 0 <= b.checkpoints[cycle].nav
    requires PlanBurn(b.lots, b.allocations, b.requests[r].user, b.requests[r].shares, |b.lots|) == Ok(plan)
    ensures var mark := MarkOf(b.reserveMarks, cycle, r).value;
            var amount := Worth(b.requests[r].shares, b.checkpoints[cycle]);
            Sound(Finalization(b, r, mark, amount, plan, cycle, now), now)
  {
    hide LotBook, QueueSound, PayablesSound, MarksSound, CheckpointsSound, DepositsSound, FeesSound, HistorySound,
         BurnsMatched, Finalization;
    var mark, amount := MarkOf(b.reserveMarks, cycle, r).value, Worth(b.requests[r].shares, b.checkpoints[cycle]);
    var after := Finalization(b, r, mark, amount, plan, cycle, now);
    var burn := BurnFor(b, r, plan.basis, cycle);
    FinalizationTables(b, r, mark, amount, plan, cycle, now);
    QueueIsRequests(b.requests, b.reserves, b.shareEvents);
    RipeWithinSupply(b, cycle, r);
    MarkBinds(b, cycle, r);
    BurnKeepsLots(b.shareEvents, b.lots, b.allocations, burn);
    VaultQueue.RequestPaid(b.requests, b.reserves, b.shareEvents, r, burn);
    WorthSign(b.requests[r].shares, b.checkpoints[cycle]);
    VaultQueue.OnePayableMore(b.payables, b.reserveMarks, b.requests, after.payables[|b.payables|]);
    VaultQueue.MarksKept(b.reserveMarks, b.requests, after.requests, b.checkpoints);
    HistoryAfterPayment(b, r, now);
    BurnMatched(b.shareEvents, b.payables, burn, after.payables[|b.payables|]);
  }

  lemma {:induction false} WorthSign(shares: nat, cp: Checkpoint)
    requires 0 < cp.supply && 0 <= cp.nav
    ensures 0 <= Worth(shares, cp) && Worth(shares, cp) * cp.supply <= shares * cp.nav
  {
    FloorBounds(shares * cp.nav, cp.supply);
  }

  // ---------------------------------------------------------------- the sums over payables

  lemma {:induction false} OnePayableMore(payables: seq<Payable>, p: Payable, marks: seq<ReserveMark>, checkpoint: nat)
    ensures MaturedTotal(payables + [p]) == MaturedTotal(payables) + p.amount
    ensures MaturedAt(payables + [p], marks, checkpoint)
         == MaturedAt(payables, marks, checkpoint) + (if PaidAt(p, marks, checkpoint) then p.amount else 0)
    ensures BurnedAt(payables + [p], marks, checkpoint)
         == BurnedAt(payables, marks, checkpoint) + (if PaidAt(p, marks, checkpoint) then p.shares else 0)
  {
    Snoc(payables, p);
  }

  /** The payments at a checkpoint so far: what they burned, and that they paid no more than its worth. */
  ghost predicate PaidUp(b: Book, cycle: nat, before: int) {
    && cycle < |b.checkpoints|
    && var cp, burned := b.checkpoints[cycle], BurnedAt(b.payables, b.reserveMarks, cycle);
       var matured := MaturedAt(b.payables, b.reserveMarks, cycle);
       && 0 <= burned && Supply(b.shareEvents) == cp.supply - burned
       && 0 <= matured && matured * cp.supply <= burned * cp.nav && (cp.supply == 0 ==> matured == 0)
       && MaturedTotal(b.payables) == before + matured
  }

  lemma {:induction false} WorthAdds(matured: int, burned: int, shares: nat, cp: Checkpoint)
    requires 0 < cp.supply && 0 <= cp.nav && matured * cp.supply <= burned * cp.nav
    ensures (matured + Worth(shares, cp)) * cp.supply <= (burned + shares) * cp.nav
  {
    WorthSign(shares, cp);
    Distribute(matured, Worth(shares, cp), cp.supply);
    Distribute(burned, shares, cp.nav);
  }

  lemma {:induction false} PaymentPaysUp(b: Book, cycle: nat, r: nat, plan: Plan, before: int, now: int)
    requires Ripe(b, cycle, r) && PaidUp(b, cycle, before) && MarksSound(b.reserveMarks, b.requests, b.checkpoints)
    requires 0 < b.checkpoints[cycle].supply && 0 <= b.checkpoints[cycle].nav && 0 < b.requests[r].shares
    ensures var mark := MarkOf(b.reserveMarks, cycle, r).value;
            var amount := Worth(b.requests[r].shares, b.checkpoints[cycle]);
            var after := Finalization(b, r, mark, amount, plan, cycle, now);
            && PaidUp(after, cycle, before) && Supply(after.shareEvents) <= Supply(b.shareEvents)
  {
    hide Finalization, MarksSound;
    var cp, shares := b.checkpoints[cycle], b.requests[r].shares;
    var mark, amount := MarkOf(b.reserveMarks, cycle, r).value, Worth(shares, cp);
    FinalizationTables(b, r, mark, amount, plan, cycle, now);
    MarkBinds(b, cycle, r);
    OnePayableMore(b.payables, Payable(r, mark, shares, amount, plan.basis, Next(b)), b.reserveMarks, cycle);
    OneMoreShareEvent(b.shareEvents, BurnFor(b, r, plan.basis, cycle), 0);
    WorthSign(shares, cp);
    WorthAdds(MaturedAt(b.payables, b.reserveMarks, cycle), BurnedAt(b.payables, b.reserveMarks, cycle), shares, cp);
  }

  lemma {:induction false} PaymentLinked(b: Book, cycle: nat, r: nat, mark: nat, amount: int, plan: Plan, now: int)
    requires Linked(b) && Sound(b, now) && Ripe(b, cycle, r)
    ensures Linked(Finalization(b, r, mark, amount, plan, cycle, now))
  {
    hide Linked, LotBook, QueueSound, PayablesSound, MarksSound, CheckpointsSound, DepositsSound, FeesSound,
         HistorySound, BurnsMatched;
    QueueIsRequests(b.requests, b.reserves, b.shareEvents);
    RipeWithinSupply(b, cycle, r);
    Unpaid(b.payables, b.reserveMarks, b.requests, r);
    VaultStepLinks.FinalizationLinked(b, r, mark, amount, plan, cycle, now);
  }

  // ---------------------------------------------------------------- all that are ripe

  /** What payments leave as it was. */
  ghost predicate Paying(b: Book, after: Book) {
    after == b.(events := after.events, shareEvents := after.shareEvents, allocations := after.allocations,
                payables := after.payables, requests := after.requests, history := after.history)
  }

  /** The requests that were paid are claimable; no other has changed. */
  ghost predicate PaidExactly(before: seq<Request>, after: seq<Request>, paid: seq<nat>) {
    && |after| == |before|
    && (forall r :: 0 <= r < |before| ==>
          after[r] == if r in paid then before[r].(status := Claimable) else before[r])
  }

  /** One payable each was added for the listed requests, in order: what they are worth at a checkpoint of the cycle. */
  ghost predicate PaidInOrder(before: seq<Payable>, after: seq<Payable>, requests: seq<Request>,
                              marks: seq<ReserveMark>,
                              cp: Checkpoint, cycle: nat, paid: seq<nat>)
  {
    && |after| == |before| + |paid| && after[..|before|] == before
    && forall k :: 0 <= k < |paid| ==> PaysOut(after[|before| + k], requests, marks, cp, cycle, paid[k])
  }

  predicate PaysOut(p: Payable, requests: seq<Request>, marks: seq<ReserveMark>, cp: Checkpoint, cycle: nat, r: nat) {
    && p.request == r < |requests| && p.shares == requests[r].shares && p.amount == Worth(p.shares, cp)
    && p.mark < |marks| && PaidAt(p, marks, cycle)
  }

  lemma {:induction false} PaidInOrderThen(before: seq<Payable>, middle: seq<Payable>, p: Payable,
                                           requests: seq<Request>,
                                           marks: seq<ReserveMark>, cp: Checkpoint, cycle: nat, paid: seq<nat>)
    requires paid != [] && PaidInOrder(before, middle, requests, marks, cp, cycle, paid[..|paid| - 1])
    requires PaysOut(p, requests, marks, cp, cycle, paid[|paid| - 1])
    ensures PaidInOrder(before, middle + [p], requests, marks, cp, cycle, paid)
  {
    hide PaysOut;
    var after := middle + [p];
    assert after[..|before|] == middle[..|before|];
    forall k | 0 <= k < |paid|
      ensures PaysOut(after[|before| + k], requests, marks, cp, cycle, paid[k])
    {
      if k < |paid| - 1 {
        assert after[|before| + k] == middle[|before| + k] && paid[k] == paid[..|paid| - 1][k];
      }
    }
  }

  ghost predicate AllRipe(b: Book, cycle: nat, requests: seq<nat>) {
    && (forall i :: 0 <= i < |requests| ==> Ripe(b, cycle, requests[i]))
    && (forall i, j :: 0 <= i < j < |requests| ==> requests[i] != requests[j])
  }

  lemma {:induction false} PayOne(b: Book, cycle: nat, r: nat, before: int, now: int) returns (after: Book)
    requires Linked(b) && Sound(b, now) && Ripe(b, cycle, r) && PaidUp(b, cycle, before)
    requires 0 <= b.checkpoints[cycle].nav
    ensures FinalizeOne(b, cycle, cycle, b.checkpoints[cycle], r, now) == Ok(after)
    ensures Linked(after) && Sound(after, now) && Paying(b, after) && PaidUp(after, cycle, before)
    ensures PaidExactly(b.requests, after.requests, [r]) && Supply(after.shareEvents) <= Supply(b.shareEvents)
    ensures |after.payables| == |b.payables| + 1 && after.payables[..|b.payables|] == b.payables
    ensures PaysOut(after.payables[|b.payables|], b.requests, b.reserveMarks, b.checkpoints[cycle], cycle, r)
  {
    hide Linked, Sound, Finalization, FinalizeOne, PlanBurn, PaidUp, MarksSound, Worth;
    RipeIsPaid(b, cycle, r, now);
    var mark, amount := MarkOf(b.reserveMarks, cycle, r).value, Worth(b.requests[r].shares, b.checkpoints[cycle]);
    var plan := PlanBurn(b.lots, b.allocations, b.requests[r].user, b.requests[r].shares, |b.lots|).value;
    RipeSigns(b, cycle, r, now);
    after := Finalization(b, r, mark, amount, plan, cycle, now);
    PaymentLinked(b, cycle, r, mark, amount, plan, now);
    PaymentSound(b, cycle, r, plan, now);
    PaymentPaysUp(b, cycle, r, plan, before, now);
    FinalizationTables(b, r, mark, amount, plan, cycle, now);
    RipePaidAt(b, cycle, r, now);
  }

  lemma {:induction false} RipePaidAt(b: Book, cycle: nat, r: nat, now: int)
    requires Sound(b, now) && Ripe(b, cycle, r)
    ensures var mark := MarkOf(b.reserveMarks, cycle, r).value;
            b.reserveMarks[mark].checkpoint == cycle
  {
    hide LotBook, QueueSound, PayablesSound, CheckpointsSound, DepositsSound, FeesSound, HistorySound, BurnsMatched;
    assert MarkSound(b.reserveMarks[MarkOf(b.reserveMarks, cycle, r).value], b.requests, b.checkpoints);
  }

  lemma {:induction false} RipeSigns(b: Book, cycle: nat, r: nat, now: int)
    requires Sound(b, now) && Ripe(b, cycle, r)
    ensures 0 < b.requests[r].shares && MarksSound(b.reserveMarks, b.requests, b.checkpoints)
  {
    hide LotBook, PayablesSound, MarksSound, CheckpointsSound, DepositsSound, FeesSound, HistorySound, BurnsMatched;
    RipeWithinSupply(b, cycle, r);
  }

  lemma {:induction false} RipeApart(b: Book, cycle: nat, requests: seq<nat>)
    requires AllRipe(b, cycle, requests) && requests != []
    ensures var init, r := requests[..|requests| - 1], requests[|requests| - 1];
            AllRipe(b, cycle, init) && Ripe(b, cycle, r) && r !in init
  {
    hide Ripe;
    var init := requests[..|requests| - 1];
    assert forall i :: 0 <= i < |init| ==> init[i] == requests[i];
  }

  lemma {:induction false} StillRipe(b: Book, after: Book, cycle: nat, paid: seq<nat>, r: nat)
    requires Ripe(b, cycle, r) && r !in paid && Paying(b, after) && PaidExactly(b.requests, after.requests, paid)
    requires Supply(after.shareEvents) <= Supply(b.shareEvents)
    ensures Ripe(after, cycle, r)
  {
  }

  lemma {:induction false} PaidThen(before: seq<Request>, middle: seq<Request>, after: seq<Request>, requests: seq<nat>)
    requires requests != [] && PaidExactly(before, middle, requests[..|requests| - 1])
    requires PaidExactly(middle, after, [requests[|requests| - 1]])
             && requests[|requests| - 1] !in requests[..|requests| - 1]
    ensures PaidExactly(before, after, requests)
  {
    var init, r := requests[..|requests| - 1], requests[|requests| - 1];
    assert requests == init + [r];
    assert forall q :: q in requests <==> q in init || q in [r];
  }

  lemma {:induction false} PaidNone(requests: seq<Request>)
    ensures PaidExactly(requests, requests, [])
  {
  }

  /** Paying every ripe request succeeds, pays each of them once and touches no other. */
  lemma {:induction false} PayAll(b: Book, cycle: nat, requests: seq<nat>, before: int, now: int) returns (after: Book)
    requires Linked(b) && Sound(b, now) && AllRipe(b, cycle, requests) && PaidUp(b, cycle, before)
    requires Numbers(requests, |b.requests|) && cycle < |b.checkpoints| && 0 <= b.checkpoints[cycle].nav
    ensures FinalizeEach(b, cycle, cycle, b.checkpoints[cycle], requests, now) == Ok(after)
    ensures Linked(after) && Sound(after, now) && Paying(b, after) && PaidUp(after, cycle, before)
    ensures PaidExactly(b.requests, after.requests, requests) && Supply(after.shareEvents) <= Supply(b.shareEvents)
    ensures PaidInOrder(b.payables, after.payables, b.requests, b.reserveMarks, b.checkpoints[cycle], cycle, requests)
  {
    hide Linked, Sound, FinalizeOne, PaidUp, Ripe, AllRipe, PaidExactly, PaysOut, PaidInOrder;
    if requests == [] {
      after := b;
      PaidNone(b.requests);
      PaidInOrderNone(b.payables, b.requests, b.reserveMarks, b.checkpoints[cycle], cycle);
    } else {
      var init, r := requests[..|requests| - 1], requests[|requests| - 1];
      RipeApart(b, cycle, requests);
      var middle := PayAll(b, cycle, init, before, now);
      StillRipe(b, middle, cycle, init, r);
      after := PayOne(middle, cycle, r, before, now);
      PaidThen(b.requests, middle.requests, after.requests, requests);
      SameTerms(b.requests, middle.requests, init, after.payables[|middle.payables|], b.reserveMarks,
                b.checkpoints[cycle], cycle, r);
      assert after.payables == middle.payables + [after.payables[|middle.payables|]];
      PaidInOrderThen(b.payables, middle.payables, after.payables[|middle.payables|], b.requests, b.reserveMarks,
                      b.checkpoints[cycle], cycle, requests);
    }
  }

  lemma {:induction false} PaidInOrderNone(payables: seq<Payable>, requests: seq<Request>, marks: seq<ReserveMark>,
                                           cp: Checkpoint, cycle: nat)
    ensures PaidInOrder(payables, payables, requests, marks, cp, cycle, [])
  {
  }

  /** A payment is of the same terms whether or not other requests were paid before it. */
  lemma {:induction false} SameTerms(before: seq<Request>, middle: seq<Request>, paid: seq<nat>, p: Payable,
                                     marks: seq<ReserveMark>, cp: Checkpoint, cycle: nat, r: nat)
    requires PaidExactly(before, middle, paid) && PaysOut(p, middle, marks, cp, cycle, r)
    ensures PaysOut(p, before, marks, cp, cycle, r)
  {
  }
}
