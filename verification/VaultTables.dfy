/**
 The tables of one vault's accounting book and its hash-chained event log.
 A row's identity is its number in its append-only table, an event's is its book version.
 */
module VaultTables {
  import opened Common

  const DAY_MS: Positive := 86_400_000
  const REDEMPTION_WINDOW_MS: Positive := 259_200_000
  const SOURCE_MAX_AGE_MS: Positive := 300_000

  datatype Status = Queued | WaitingLiquidity | Admitted | Redeeming | Finalized | Claimable | Canceled

  // ---------------------------------------------------------------- events

  /** One lot's part in a burn. */
  datatype LotBurn = LotBurn(lot: nat, burned: int, basis: int, priorBurned: int, cumulativeBurned: int,
                             priorBasis: int, cumulativeBasis: int)

  datatype Payload =
    | AccountingIncepted(reconciliation: nat, seed: int)
    | CycleOpened(cutoff: int)
    | DepositPending(user: nat, amount: int, source: string)
    | RedemptionRequested(user: nat, shares: int)
    | RedemptionWaiting(request: nat, reconciliation: nat, required: int, available: int)
    | RedemptionAdmitted(request: nat, shares: int, reconciliation: nat, cycle: nat, checkpoint: nat,
                         required: int, available: int)
    | RedemptionRedeeming(request: nat, reserve: Option<nat>)
    | ProtocolFeeAccrued(ticket: nat, ticketReserve: nat, amount: int)
    | SettlementRecognized(ticket: nat, summary: nat, pnl: int)
    | TicketLiabilityMarked(ticket: nat, amount: int)
    | LiabilityMarked(cycle: nat, reconciliation: nat, gross: int, deductions: int)
    | NavCheckpointed(cycle: nat, liability: nat, reconciliation: nat, gross: int, deductions: int,
                      nav: int, supply: int)
    | RedemptionReserveMarked(request: nat, amount: int)
    | LiquidityMarked(free: int)
    | RedemptionPayableMatured(request: nat, user: nat, checkpoint: nat, payable: nat, shares: int,
                               amount: int, basis: int, lots: seq<LotBurn>)
    | RedemptionFinalized(request: nat, payable: nat, amount: int)
    | RedemptionClaimable(request: nat, payable: nat)
    | DepositActivated(deposit: nat, user: nat, checkpoint: nat, lot: nat, amount: int, shares: int)
    | CycleClosed(cycle: nat, checkpoint: nat, activated: int, matured: int, dust: int, nav: int, supply: int)

  /** SHA-256 over the sealed fields, abstracted as an injective function: a free constructor. */
  datatype Digest = Digest(vault: nat, version: nat, previous: Option<Digest>, entity: nat, payload: Payload)

  datatype Event = Event(version: nat, entity: nat, payload: Payload, previous: Option<Digest>, digest: Digest)

  function LastDigest(events: seq<Event>): Option<Digest> {
    if events == [] then None else Some(events[|events| - 1].digest)
  }

  function Seal(vault: nat, events: seq<Event>, entity: nat, payload: Payload): Event {
    var previous := LastDigest(events);
    Event(|events| + 1, entity, payload, previous, Digest(vault, |events| + 1, previous, entity, payload))
  }

  // ---------------------------------------------------------------- rows

  datatype Inception = Inception(reconciliation: nat, seed: int, at: int, event: nat)

  datatype CycleStatus = Open | Marked | Checkpointed | Closed

  datatype Cycle = Cycle(cutoff: int, status: CycleStatus, event: nat)

  datatype DepositStatus = Pending | Active(checkpoint: nat)

  datatype Deposit = Deposit(user: nat, amount: int, eligible: int, source: string, status: DepositStatus, event: nat)

  datatype Request = Request(user: nat, shares: int, key: string, status: Status, startsAt: int, endsAt: int,
                             event: nat)

  datatype Move = Move(request: nat, source: Option<Status>, target: Status, at: int)

  datatype WaitingEvidence = WaitingEvidence(request: nat, reconciliation: nat, required: int, available: int,
                                             event: nat)

  datatype Reserve = Reserve(request: nat, shares: int, reconciliation: nat, cycle: nat, checkpoint: nat,
                             required: int, available: int, event: nat)

  datatype FeeAccrual = FeeAccrual(ticket: nat, ticketReserve: nat, amount: int, effectiveAt: int, event: nat)

  datatype Recognition = Recognition(cycle: nat, ticket: nat, summary: nat, stake: int, payout: int, pnl: int,
                                     event: nat)

  datatype TicketMark = TicketMark(cycle: nat, ticket: nat, stake: int, gross: int, marked: int, event: nat)

  datatype Liability = Liability(cycle: nat, reconciliation: nat, grossAssets: int, senior: int, gross: int,
                                 marked: int,
                                 fees: int, expenses: int, pending: int, matured: int, deductions: int, event: nat)

  datatype Checkpoint = Checkpoint(cycle: nat, liability: nat, reconciliation: nat, gross: int, nav: int, supply: int,
                                   estimatedPnl: int, finalizedPnl: int, event: nat)

  datatype ReserveMark = ReserveMark(cycle: nat, checkpoint: nat, request: nat, shares: int, amount: int, event: nat)

  datatype Liquidity = Liquidity(cycle: nat, checkpoint: nat, deductions: int, activeReserve: int, collateral: int,
                                 free: int, event: nat)

  datatype ShareCause = MintOf(deposit: nat) | BurnOf(request: nat)

  datatype ShareEvent = ShareEvent(cause: ShareCause, user: nat, shares: int, basis: int, checkpoint: nat, event: nat)

  datatype Lot = Lot(user: nat, mint: nat, shares: int, basis: int)

  datatype BurnAllocation = BurnAllocation(burn: nat, part: LotBurn)

  datatype Payable = Payable(request: nat, mark: nat, shares: int, amount: int, basis: int, event: nat)

  datatype Closing = Closing(cycle: nat, checkpoint: nat, activated: int, matured: int, dust: int, nav: int,
                             supply: int, at: int, event: nat)

  datatype Book = Book(
    vault: nat,
    clock: int,
    events: seq<Event>,
    inception: Option<Inception>,
    positions: set<nat>,
    deposits: seq<Deposit>,
    depositKeys: map<string, nat>,
    requests: seq<Request>,
    history: seq<Move>,
    waiting: seq<WaitingEvidence>,
    reserves: seq<Reserve>,
    fees: seq<FeeAccrual>,
    recognitions: seq<Recognition>,
    ticketMarks: seq<TicketMark>,
    cycles: seq<Cycle>,
    liabilities: seq<Liability>,
    checkpoints: seq<Checkpoint>,
    reserveMarks: seq<ReserveMark>,
    liquidity: seq<Liquidity>,
    shareEvents: seq<ShareEvent>,
    lots: seq<Lot>,
    allocations: seq<BurnAllocation>,
    payables: seq<Payable>,
    closings: seq<Closing>)

  function EmptyBook(vault: nat): Book {
    Book(vault, 0, [], None, {}, [], map[], [], [], [], [], [], [], [], [], [], [], [], [], [], [], [], [], [])
  }

  // ---------------------------------------------------------------- what lies outside the book

  /** A treasury reconciliation; `trusted` says its source, scope and zero delta were accepted. */
  datatype Snapshot = Snapshot(id: nat, created: int, observed: int, treasury: nat, userAvailable: nat,
                               userClaimable: nat, userCheckout: nat, pendingWithdrawal: nat, openStake: nat,
                               openReserve: nat, bookVersion: nat, stateHash: nat, trusted: bool)

  function Senior(s: Snapshot): nat {
    s.userAvailable + s.userClaimable + s.userCheckout + s.pendingWithdrawal
  }

  datatype Settlement = Settlement(summary: nat, payout: nat, at: int)

  /** A house-book ticket with its reserve and, once settled, its summary. */
  datatype Ticket = Ticket(id: nat, reserve: nat, stake: nat, payout: nat, fee: nat, created: int,
                           settlement: Option<Settlement>)

  datatype MarkWrite = MarkWrite(ticket: nat, amount: int, evidenceAt: int)

  /** The two figures that the admission capacity function reports. */
  datatype Capacity = Capacity(required: int, available: int)

  // ---------------------------------------------------------------- queries

  predicate Numbers(rows: seq<nat>, n: nat) {
    forall i :: 0 <= i < |rows| ==> rows[i] < n
  }

  /** The numbers below `n` that satisfy `p`, in order. */
  function Select(n: nat, p: nat -> bool): (rows: seq<nat>)
    ensures Numbers(rows, n)
  {
    if n == 0 then []
    else if p(n - 1) then Select(n - 1, p) + [n - 1]
    else Select(n - 1, p)
  }

  lemma {:induction false} SelectOrdered(n: nat, p: nat -> bool)
    ensures forall i :: 0 <= i < |Select(n, p)| ==> Select(n, p)[i] < n && p(Select(n, p)[i])
    ensures forall i, j :: 0 <= i < j < |Select(n, p)| ==> Select(n, p)[i] < Select(n, p)[j]
  {
    if n != 0 {
      SelectOrdered(n - 1, p);
    }
  }

  lemma {:induction false} SelectComplete(n: nat, p: nat -> bool, k: nat)
    requires k < n && p(k)
    ensures k in Select(n, p)
  {
    if k < n - 1 {
      SelectComplete(n - 1, p, k);
    }
  }

  lemma {:induction false} SelectNone(n: nat, p: nat -> bool)
    requires forall k: nat :: k < n ==> !p(k)
    ensures Select(n, p) == []
  {
    if n != 0 {
      SelectNone(n - 1, p);
    }
  }

  function Signed(e: ShareEvent): int {
    if e.cause.MintOf? then e.shares else -e.shares
  }

  function Supply(shareEvents: seq<ShareEvent>): int {
    if shareEvents == [] then 0
    else Supply(shareEvents[..|shareEvents| - 1]) + Signed(shareEvents[|shareEvents| - 1])
  }

  function Balance(shareEvents: seq<ShareEvent>, user: nat): int {
    if shareEvents == [] then 0
    else
      var last := shareEvents[|shareEvents| - 1];
      Balance(shareEvents[..|shareEvents| - 1], user) + (if last.user == user then Signed(last) else 0)
  }

  predicate Reserved(status: Status) {
    status == Admitted || status == Redeeming
  }

  predicate InQueue(status: Status) {
    status == Queued || status == WaitingLiquidity
  }

  predicate Unfinished(status: Status) {
    InQueue(status) || Reserved(status)
  }

  /** The shares held back for the user's admitted requests. */
  function ReservedShares(reserves: seq<Reserve>, requests: seq<Request>, user: nat): int {
    if reserves == [] then 0
    else
      var last := reserves[|reserves| - 1];
      ReservedShares(reserves[..|reserves| - 1], requests, user)
      + (if last.request < |requests| && requests[last.request].user == user
           && Reserved(requests[last.request].status)
         then last.shares else 0)
  }

  /** The latest status that the history had recorded for a request by a given time. */
  function StatusAt(history: seq<Move>, request: nat, at: int): Option<Status> {
    if history == [] then None
    else
      var last := history[|history| - 1];
      if last.request == request && last.at <= at then Some(last.target)
      else StatusAt(history[..|history| - 1], request, at)
  }

  function ReserveOf(reserves: seq<Reserve>, request: nat): (r: Option<nat>)
    ensures r.Some? ==> r.value < |reserves| && reserves[r.value].request == request
  {
    if reserves == [] then None
    else if reserves[|reserves| - 1].request == request then Some(|reserves| - 1)
    else ReserveOf(reserves[..|reserves| - 1], request)
  }

  function MarkOf(marks: seq<ReserveMark>, cycle: nat, request: nat): (r: Option<nat>)
    ensures r.Some? ==> r.value < |marks| && marks[r.value].request == request && marks[r.value].cycle == cycle
  {
    if marks == [] then None
    else if marks[|marks| - 1].request == request && marks[|marks| - 1].cycle == cycle then Some(|marks| - 1)
    else MarkOf(marks[..|marks| - 1], cycle, request)
  }

  function PayableOf(payables: seq<Payable>, request: nat): (r: Option<nat>)
    ensures r.Some? ==> r.value < |payables| && payables[r.value].request == request
  {
    if payables == [] then None
    else if payables[|payables| - 1].request == request then Some(|payables| - 1)
    else PayableOf(payables[..|payables| - 1], request)
  }

  /** What shares are worth at a checkpoint, rounded down. */
  function Worth(shares: int, cp: Checkpoint): int {
    if cp.supply <= 0 then 0 else shares * cp.nav / cp.supply
  }

  function FeesAt(fees: seq<FeeAccrual>, at: int): int {
    if fees == [] then 0
    else
      FeesAt(fees[..|fees| - 1], at) + (if fees[|fees| - 1].effectiveAt <= at then fees[|fees| - 1].amount else 0)
  }

  /** The dust that closes had withheld by a given time. */
  function DustBy(closings: seq<Closing>, at: int): int {
    if closings == [] then 0
    else
      DustBy(closings[..|closings| - 1], at)
      + (if closings[|closings| - 1].at <= at then closings[|closings| - 1].dust else 0)
  }

  function FinalizedPnl(recognitions: seq<Recognition>): int {
    if recognitions == [] then 0
    else FinalizedPnl(recognitions[..|recognitions| - 1]) + recognitions[|recognitions| - 1].pnl
  }

  function PendingTotal(deposits: seq<Deposit>): int {
    if deposits == [] then 0
    else
      var last := deposits[|deposits| - 1];
      PendingTotal(deposits[..|deposits| - 1]) + (if last.status == Pending then last.amount else 0)
  }

  function ActivatedAt(deposits: seq<Deposit>, checkpoint: nat): int {
    if deposits == [] then 0
    else
      var last := deposits[|deposits| - 1];
      ActivatedAt(deposits[..|deposits| - 1], checkpoint)
      + (if last.status == Active(checkpoint) then last.amount else 0)
  }

  function MaturedTotal(payables: seq<Payable>): int {
    if payables == [] then 0
    else MaturedTotal(payables[..|payables| - 1]) + payables[|payables| - 1].amount
  }

  /** How many payables a request has. */
  function PayablesFor(payables: seq<Payable>, request: nat): nat {
    if payables == [] then 0
    else
      PayablesFor(payables[..|payables| - 1], request)
      + (if payables[|payables| - 1].request == request then 1 else 0)
  }

  predicate PaidAt(p: Payable, marks: seq<ReserveMark>, checkpoint: nat) {
    p.mark < |marks| && marks[p.mark].checkpoint == checkpoint
  }

  function MaturedAt(payables: seq<Payable>, marks: seq<ReserveMark>, checkpoint: nat): int {
    if payables == [] then 0
    else
      var last := payables[|payables| - 1];
      MaturedAt(payables[..|payables| - 1], marks, checkpoint)
      + (if PaidAt(last, marks, checkpoint) then last.amount else 0)
  }

  function BurnedAt(payables: seq<Payable>, marks: seq<ReserveMark>, checkpoint: nat): int {
    if payables == [] then 0
    else
      var last := payables[|payables| - 1];
      BurnedAt(payables[..|payables| - 1], marks, checkpoint)
      + (if PaidAt(last, marks, checkpoint) then last.shares else 0)
  }

  function MarkedReserve(marks: seq<ReserveMark>, cycle: nat): int {
    if marks == [] then 0
    else
      MarkedReserve(marks[..|marks| - 1], cycle)
      + (if marks[|marks| - 1].cycle == cycle then marks[|marks| - 1].amount else 0)
  }

  function MarkedShares(marks: seq<ReserveMark>, cycle: nat): int {
    if marks == [] then 0
    else
      MarkedShares(marks[..|marks| - 1], cycle)
      + (if marks[|marks| - 1].cycle == cycle then marks[|marks| - 1].shares else 0)
  }

  // ---------------------------------------------------------------- lots

  /** What a lot had given up by its last allocation. */
  function LotBurned(allocations: seq<BurnAllocation>, lot: nat): int {
    if allocations == [] then 0
    else if allocations[|allocations| - 1].part.lot == lot then allocations[|allocations| - 1].part.cumulativeBurned
    else LotBurned(allocations[..|allocations| - 1], lot)
  }

  function LotBasis(allocations: seq<BurnAllocation>, lot: nat): int {
    if allocations == [] then 0
    else if allocations[|allocations| - 1].part.lot == lot then allocations[|allocations| - 1].part.cumulativeBasis
    else LotBasis(allocations[..|allocations| - 1], lot)
  }

  function Unburned(lots: seq<Lot>, allocations: seq<BurnAllocation>, i: nat): int
    requires i < |lots|
  {
    lots[i].shares - LotBurned(allocations, i)
  }

  /** The user's shares in the first `n` lots. */
  function UnburnedOf(lots: seq<Lot>, allocations: seq<BurnAllocation>, user: nat, n: nat): int
    requires n <= |lots|
  {
    if n == 0 then 0
    else
      UnburnedOf(lots, allocations, user, n - 1)
      + (if lots[n - 1].user == user then Unburned(lots, allocations, n - 1) else 0)
  }

  function UnburnedTotal(lots: seq<Lot>, allocations: seq<BurnAllocation>, n: nat): int
    requires n <= |lots|
  {
    if n == 0 then 0
    else UnburnedTotal(lots, allocations, n - 1) + Unburned(lots, allocations, n - 1)
  }
}
