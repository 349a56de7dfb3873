/** What every write of the vault keeps true of its tables. */
module VaultInvariant {
  import opened Common
  import opened VaultTables
  import opened VaultLots
  import CostBasis

  // ---------------------------------------------------------------- amounts and valuations

  ghost predicate DepositsSound(deposits: seq<Deposit>, checkpoints: nat) {
    forall i :: 0 <= i < |deposits| ==>
      && 0 < deposits[i].amount
      && (deposits[i].status.Active? ==> deposits[i].status.checkpoint < checkpoints)
  }

  ghost predicate FeesSound(fees: seq<FeeAccrual>) {
    forall i :: 0 <= i < |fees| ==> 0 <= fees[i].amount
  }

  /** A checkpoint values the vault at what its liability leaves, and no shares means no value. */
  ghost predicate CheckpointSound(cp: Checkpoint, l: Liability, i: nat) {
    && cp.cycle == i == l.cycle && cp.liability == i
    && cp.gross == l.grossAssets && 0 <= cp.nav == cp.gross - l.deductions && 0 <= cp.supply
    && (cp.supply == 0 ==> cp.nav == 0)
    && l.marked == l.gross && 0 <= l.pending && 0 <= l.matured
    && 0 <= l.deductions - l.pending - l.matured
    && l.deductions == l.senior + l.marked + l.fees + l.expenses + l.pending + l.matured
  }

  ghost predicate CheckpointsSound(checkpoints: seq<Checkpoint>, liabilities: seq<Liability>) {
    && |checkpoints| == |liabilities|
    && (forall i :: 0 <= i < |checkpoints| ==> CheckpointSound(checkpoints[i], liabilities[i], i))
  }

  // ---------------------------------------------------------------- marks and payables

  /** A mark binds its request's shares at the floor of its checkpoint's value. */
  ghost predicate MarkSound(m: ReserveMark, requests: seq<Request>, checkpoints: seq<Checkpoint>) {
    && m.cycle == m.checkpoint < |checkpoints| && m.request < |requests|
    && m.shares == requests[m.request].shares
    && var cp := checkpoints[m.checkpoint];
       0 < cp.supply && m.amount == m.shares * cp.nav / cp.supply
  }

  ghost predicate MarksSound(marks: seq<ReserveMark>, requests: seq<Request>, checkpoints: seq<Checkpoint>) {
    && (forall k :: 0 <= k < |marks| ==> MarkSound(marks[k], requests, checkpoints))
    && (forall j, k :: 0 <= j < k < |marks| && marks[j].cycle == marks[k].cycle ==>
          marks[j].request != marks[k].request)
  }

  /** A payable pays its binding mark for the shares that its request asked for. */
  ghost predicate PayableSound(p: Payable, marks: seq<ReserveMark>, requests: seq<Request>) {
    && p.mark < |marks| && marks[p.mark].request == p.request < |requests|
    && p.shares == requests[p.request].shares && p.amount == marks[p.mark].amount && 0 <= p.amount
    && requests[p.request].status == Claimable
  }

  ghost predicate PayablesSound(payables: seq<Payable>, marks: seq<ReserveMark>, requests: seq<Request>) {
    && (forall k :: 0 <= k < |payables| ==> PayableSound(payables[k], marks, requests))
    && (forall j, k :: 0 <= j < k < |payables| ==> payables[j].request != payables[k].request)
    && (forall r :: 0 <= r < |requests| && requests[r].status == Claimable ==> PayableOf(payables, r).Some?)
  }

  // ---------------------------------------------------------------- shares

  ghost predicate LotBook(shareEvents: seq<ShareEvent>, lots: seq<Lot>, allocations: seq<BurnAllocation>) {
    && LotsSound(lots, allocations) && Chained(allocations) && FirstInFirstOut(lots, allocations)
    && (forall k :: 0 <= k < |allocations| ==> allocations[k].part.lot < |lots|)
    && Supply(shareEvents) == UnburnedTotal(lots, allocations, |lots|)
    && (forall user: nat :: Balance(shareEvents, user) == UnburnedOf(lots, allocations, user, |lots|))
  }

  // ---------------------------------------------------------------- the queue

  predicate AtRest(status: Status) {
    status == Queued || status == WaitingLiquidity || status == Redeeming || status == Claimable
  }

  predicate Held(reserves: seq<Reserve>, r: nat, shares: int) {
    ReserveOf(reserves, r).Some? && reserves[ReserveOf(reserves, r).value].shares == shares
  }

  /** An open request never asks for more than its position holds; an admitted one is reserved. */
  ghost predicate RequestSound(request: Request, r: nat, reserves: seq<Reserve>, shareEvents: seq<ShareEvent>) {
    && 0 < request.shares && AtRest(request.status)
    && (Unfinished(request.status) ==> request.shares <= Balance(shareEvents, request.user))
    && (InQueue(request.status) ==> ReserveOf(reserves, r).None?)
    && (!InQueue(request.status) ==>
          Held(reserves, r, request.shares) && request.endsAt == request.startsAt + REDEMPTION_WINDOW_MS)
  }

  ghost predicate RequestsSound(requests: seq<Request>, reserves: seq<Reserve>, shareEvents: seq<ShareEvent>) {
    forall r :: 0 <= r < |requests| ==> RequestSound(requests[r], r, reserves, shareEvents)
  }

  /** Whatever is ahead of an admitted request in the queue is itself admitted or later. */
  ghost predicate FirstComeFirstServed(requests: seq<Request>) {
    forall i, j :: 0 <= i < j < |requests| && InQueue(requests[i].status) ==> InQueue(requests[j].status)
  }

  ghost predicate OneOpenEach(requests: seq<Request>) {
    forall i, j :: 0 <= i < j < |requests| && Unfinished(requests[i].status) && Unfinished(requests[j].status) ==>
      requests[i].user != requests[j].user
  }

  /** Each reserve is for a different request and holds something. */
  ghost predicate ReservesSound(reserves: seq<Reserve>, requests: nat) {
    && (forall k :: 0 <= k < |reserves| ==> reserves[k].request < requests && 0 < reserves[k].shares)
    && (forall j, k :: 0 <= j < k < |reserves| ==> reserves[j].request != reserves[k].request)
  }

  // ---------------------------------------------------------------- history

  /** From time `t` on, the history tells every request's present status. */
  ghost predicate HistorySound(history: seq<Move>, requests: seq<Request>, t: int) {
    forall r: nat, at: int :: t <= at ==>
      StatusAt(history, r, at) == if r < |requests| then Some(requests[r].status) else None
  }

  predicate ReservedAt(history: seq<Move>, r: nat, at: int) {
    StatusAt(history, r, at).Some? && Reserved(StatusAt(history, r, at).value)
  }

  /** From time `t` on, whatever the history says was reserved is still being redeemed. */
  ghost predicate ReservedSince(history: seq<Move>, requests: seq<Request>, t: int) {
    forall r: nat, at: int :: t <= at && ReservedAt(history, r, at) ==>
      r < |requests| && requests[r].status == Redeeming
  }

  // ---------------------------------------------------------------- burns

  function BurnsFor(shareEvents: seq<ShareEvent>, request: nat): nat {
    if shareEvents == [] then 0
    else
      BurnsFor(shareEvents[..|shareEvents| - 1], request)
      + (if shareEvents[|shareEvents| - 1].cause == BurnOf(request) then 1 else 0)
  }

  /** Each payable has its burn, and each burn its payable. */
  ghost predicate BurnsMatched(shareEvents: seq<ShareEvent>, payables: seq<Payable>) {
    forall r: nat :: BurnsFor(shareEvents, r) == PayablesFor(payables, r)
  }

  // ---------------------------------------------------------------- together

  ghost predicate Sound(b: Book, t: int) {
    && DepositsSound(b.deposits, |b.checkpoints|) && FeesSound(b.fees)
    && CheckpointsSound(b.checkpoints, b.liabilities)
    && MarksSound(b.reserveMarks, b.requests, b.checkpoints)
    && PayablesSound(b.payables, b.reserveMarks, b.requests)
    && LotBook(b.shareEvents, b.lots, b.allocations)
    && QueueSound(b.requests, b.reserves, b.shareEvents)
    && HistorySound(b.history, b.requests, t) && BurnsMatched(b.shareEvents, b.payables)
  }

  ghost predicate QueueSound(requests: seq<Request>, reserves: seq<Reserve>, shareEvents: seq<ShareEvent>) {
    && RequestsSound(requests, reserves, shareEvents)
    && FirstComeFirstServed(requests) && OneOpenEach(requests) && ReservesSound(reserves, |requests|)
  }

  // ---------------------------------------------------------------- shares, one event at a time

  lemma {:induction false} OneMoreShareEvent(shareEvents: seq<ShareEvent>, e: ShareEvent, user: nat)
    ensures Supply(shareEvents + [e]) == Supply(shareEvents) + Signed(e)
    ensures Balance(shareEvents + [e], user) == Balance(shareEvents, user) + (if e.user == user then Signed(e) else 0)
  {
    Snoc(shareEvents, e);
  }

  lemma {:induction false} UntouchedLot(allocations: seq<BurnAllocation>, lot: nat)
    requires forall k :: 0 <= k < |allocations| ==> allocations[k].part.lot < lot
    ensures LotBurned(allocations, lot) == 0 && LotBasis(allocations, lot) == 0
  {
    if allocations != [] {
      UntouchedLot(allocations[..|allocations| - 1], lot);
    }
  }

  lemma {:induction false} OlderLots(lots: seq<Lot>, lot: Lot, allocations: seq<BurnAllocation>, user: nat, n: nat)
    requires n <= |lots|
    ensures UnburnedOf(lots + [lot], allocations, user, n) == UnburnedOf(lots, allocations, user, n)
    ensures UnburnedTotal(lots + [lot], allocations, n) == UnburnedTotal(lots, allocations, n)
  {
    if n != 0 {
      OlderLots(lots, lot, allocations, user, n - 1);
    }
  }

  /** A mint opens a lot of its own and raises its owner's balance and the supply alike. */
  lemma {:induction false} MintKeepsLots(shareEvents: seq<ShareEvent>, lots: seq<Lot>,
                                         allocations: seq<BurnAllocation>, mint: ShareEvent,
                      lot: Lot)
    requires LotBook(shareEvents, lots, allocations)
    requires mint.cause.MintOf? && mint.user == lot.user && mint.shares == lot.shares && 0 < lot.shares
             && 0 <= lot.basis
    ensures LotBook(shareEvents + [mint], lots + [lot], allocations)
    ensures Supply(shareEvents + [mint]) == Supply(shareEvents) + mint.shares
    ensures forall user: nat :: Balance(shareEvents, user) <= Balance(shareEvents + [mint], user)
  {
    UntouchedLot(allocations, |lots|);
    CumulativeFromNothing(lot.shares, lot.basis);
    MintBalances(shareEvents, lots, allocations, mint, lot);
    forall i | 0 <= i < |lots| + 1
      ensures LotSound((lots + [lot])[i], LotBurned(allocations, i), LotBasis(allocations, i))
    {
      if i < |lots| {
        assert LotSound(lots[i], LotBurned(allocations, i), LotBasis(allocations, i));
      }
    }
  }

  lemma {:induction false} CumulativeFromNothing(shares: Positive, basis: nat)
    ensures CostBasis.CumulativeBasis(shares, basis, 0) == 0
  {
    CostBasis.CumulativeEnds(shares, basis);
  }

  lemma {:induction false} MintBalances(shareEvents: seq<ShareEvent>, lots: seq<Lot>,
                                        allocations: seq<BurnAllocation>, mint: ShareEvent,
                     lot: Lot)
    requires LotBook(shareEvents, lots, allocations) && LotBurned(allocations, |lots|) == 0
    requires mint.cause.MintOf? && mint.user == lot.user && mint.shares == lot.shares && 0 < lot.shares
    ensures var after := lots + [lot];
            && Supply(shareEvents + [mint]) == UnburnedTotal(after, allocations, |after|)
            && Supply(shareEvents + [mint]) == Supply(shareEvents) + mint.shares
            && (forall user: nat ::
                  Balance(shareEvents + [mint], user) == UnburnedOf(after, allocations, user, |after|))
            && (forall user: nat :: Balance(shareEvents, user) <= Balance(shareEvents + [mint], user))
  {
    var after := lots + [lot];
    OneMoreShareEvent(shareEvents, mint, mint.user);
    OlderLots(lots, lot, allocations, mint.user, |lots|);
    forall user: nat
      ensures Balance(shareEvents + [mint], user) == UnburnedOf(after, allocations, user, |after|)
      ensures Balance(shareEvents, user) <= Balance(shareEvents + [mint], user)
    {
      OneMoreShareEvent(shareEvents, mint, user);
      OlderLots(lots, lot, allocations, user, |lots|);
    }
  }

  lemma {:induction false} RecordedLots(allocations: seq<BurnAllocation>, burn: nat, parts: seq<LotBurn>, lots: nat)
    requires forall k :: 0 <= k < |allocations| ==> allocations[k].part.lot < lots
    requires forall k :: 0 <= k < |parts| ==> parts[k].lot < lots
    ensures forall k :: 0 <= k < |Recorded(allocations, burn, parts)| ==>
      Recorded(allocations, burn, parts)[k].part.lot < lots
  {
    if parts != [] {
      RecordedLots(allocations, burn, parts[..|parts| - 1], lots);
    }
  }

  /** No position holds more than the supply, and none less than nothing. */
  lemma {:induction false} BalanceWithinSupply(shareEvents: seq<ShareEvent>, lots: seq<Lot>,
                                               allocations: seq<BurnAllocation>, user: nat)
    requires LotBook(shareEvents, lots, allocations)
    ensures 0 <= Balance(shareEvents, user) <= Supply(shareEvents)
  {
    UnburnedSign(lots, allocations, user, |lots|);
  }

  /** A burn within the balance always finds its lots, and leaves every other position alone. */
  lemma {:induction false} BurnKeepsLots(shareEvents: seq<ShareEvent>, lots: seq<Lot>,
                                         allocations: seq<BurnAllocation>, burn: ShareEvent)
    requires LotBook(shareEvents, lots, allocations)
    requires burn.cause.BurnOf? && 0 <= burn.shares <= Balance(shareEvents, burn.user)
    ensures PlanBurn(lots, allocations, burn.user, burn.shares, |lots|).Ok?
    ensures var plan := PlanBurn(lots, allocations, burn.user, burn.shares, |lots|).value;
            && plan.remaining == 0
            && LotBook(shareEvents + [burn], lots, Recorded(allocations, |shareEvents|, plan.parts))
    ensures Supply(shareEvents + [burn]) == Supply(shareEvents) - burn.shares
    ensures forall user: nat :: user != burn.user ==>
      Balance(shareEvents + [burn], user) == Balance(shareEvents, user)
  {
    BurnConsumesLots(lots, allocations, burn.user, burn.shares, |shareEvents|);
    var plan := PlanBurn(lots, allocations, burn.user, burn.shares, |lots|).value;
    RecordedLots(allocations, |shareEvents|, plan.parts, |lots|);
    forall user: nat
      ensures Balance(shareEvents + [burn], user)
           == Balance(shareEvents, user) - (if user == burn.user then burn.shares else 0)
    {
      OneMoreShareEvent(shareEvents, burn, user);
    }
    OneMoreShareEvent(shareEvents, burn, burn.user);
  }

  // ---------------------------------------------------------------- burns and payables

  lemma {:induction false} MintMatched(shareEvents: seq<ShareEvent>, payables: seq<Payable>, mint: ShareEvent)
    requires BurnsMatched(shareEvents, payables) && mint.cause.MintOf?
    ensures BurnsMatched(shareEvents + [mint], payables)
  {
    Snoc(shareEvents, mint);
    assert forall r: nat :: BurnsFor(shareEvents + [mint], r) == BurnsFor(shareEvents, r);
  }

  lemma {:induction false} BurnMatched(shareEvents: seq<ShareEvent>, payables: seq<Payable>, burn: ShareEvent,
                                       p: Payable)
    requires BurnsMatched(shareEvents, payables) && burn.cause == BurnOf(p.request)
    ensures BurnsMatched(shareEvents + [burn], payables + [p])
  {
    Snoc(shareEvents, burn);
    Snoc(payables, p);
    forall r: nat
      ensures BurnsFor(shareEvents + [burn], r) == PayablesFor(payables + [p], r)
    {
      assert BurnsFor(shareEvents, r) == PayablesFor(payables, r);
    }
  }
}
