/** What each exported operation of the vault does to the book: all of it, or nothing. */
module VaultSteps {
  import opened Common
  import opened VaultTables
  import opened VaultRows
  import opened VaultLots
  import OwnerClaims
  import ShareMint
  import ShareRedemption
  import DepositSplit

  const FOUNDER_USER: nat := 0
  const FOUNDER_SOURCE: string := "internal:founder-seed:v1"

  datatype Fault =
    | InvalidDepositAmount
    | InvalidDepositSource
    | InvalidDepositKey
    | IdempotencyConflict
    | DepositMismatch
    | DepositSourceTaken
    | InvalidRedemptionShares
    | InvalidRedemptionKey
    | RedemptionIdempotencyConflict
    | PositionMissing
    | ExceedsUnreservedHolding
    | OpenRequestExists
    | AdmissionEvidenceUnavailable
    | AdmissionEvidenceUsed
    | NotDue
    | InceptionSeedNegative
    | InceptionMismatch
    | CycleMissing
    | ClosedCycleNotLatest
    | CyclePartialState
    | ReconciliationUntrusted
    | BookVersionStale
    | RecoveryUnsafe
    | TicketMarkCoverage
    | TicketMarkInvalid
    | NavNegative
    | PositiveNavWithoutShares
    | LiabilityMarkMismatch
    | RedemptionSupplyMissing
    | CollateralShortfall
    | Shares(fault: OwnerClaims.Fault)
    | BindingMarkMismatch
    | CostBasisMissing
    | SplitFailed(split: DepositSplit.Fault)
    | DepositMintsZeroShares
    | InvalidClosingState
    | SourceTimeInvalid

  function DayOf(at: int): int {
    at / DAY_MS
  }

  // ---------------------------------------------------------------- deposits and requests

  predicate SourceUsed(deposits: seq<Deposit>, source: string) {
    exists i :: 0 <= i < |deposits| && deposits[i].source == source
  }

  /** The tables accept no deposit before the inception, none in the founder's name, and each source once. */
  function RecordDeposit(b: Book, tick: Positive, user: nat, amount: int, source: string, key: string)
    : Result<Book, Fault>
  {
    var now := b.clock + tick;
    if amount <= 0 then Err(InvalidDepositAmount)
    else if |source| < 1 || 300 < |source| then Err(InvalidDepositSource)
    else if |key| < 1 || 200 < |key| then Err(InvalidDepositKey)
    else if key in b.depositKeys then
      var id := b.depositKeys[key];
      if id < |b.deposits| && b.deposits[id].user == user && b.deposits[id].amount == amount
         && b.deposits[id].source == source
      then Ok(b)
      else Err(IdempotencyConflict)
    else if b.inception.None? || source == FOUNDER_SOURCE then Err(DepositMismatch)
    else if SourceUsed(b.deposits, source) then Err(DepositSourceTaken)
    else Ok(Deposited(b, Deposit(user, amount, DayOf(now) + 1, source, Pending, 0), key, now))
  }

  function Deposited(b: Book, r: Deposit, key: string, now: int): Book {
    AddDeposit(b, r).(depositKeys := b.depositKeys[key := |b.deposits|], clock := now)
  }

  function FindRequest(requests: seq<Request>, user: nat, key: string): Option<nat> {
    if requests == [] then None
    else if requests[|requests| - 1].user == user && requests[|requests| - 1].key == key then Some(|requests| - 1)
    else FindRequest(requests[..|requests| - 1], user, key)
  }

  predicate HasOpenRequest(requests: seq<Request>, user: nat) {
    exists i :: 0 <= i < |requests| && requests[i].user == user && Unfinished(requests[i].status)
  }

  function RequestRedemption(b: Book, tick: Positive, user: nat, shares: int, key: string): Result<Book, Fault> {
    var now := b.clock + tick;
    if shares <= 0 then Err(InvalidRedemptionShares)
    else if |key| < 1 || 200 < |key| then Err(InvalidRedemptionKey)
    else
      match FindRequest(b.requests, user, key)
      case Some(id) =>
        if id < |b.requests| && b.requests[id].shares == shares then Ok(b) else Err(RedemptionIdempotencyConflict)
      case None =>
        if user !in b.positions then Err(PositionMissing)
        else if Balance(b.shareEvents, user) - ReservedShares(b.reserves, b.requests, user) < shares
        then Err(ExceedsUnreservedHolding)
        else if HasOpenRequest(b.requests, user) then Err(OpenRequestExists)
        else Ok(Requested(b, Request(user, shares, key, Queued, 0, 0, 0), now))
  }

  function Requested(b: Book, r: Request, now: int): Book {
    AddRequest(b, r, now).(clock := now)
  }

  // ---------------------------------------------------------------- admission

  function FirstInQueue(requests: seq<Request>): (r: Option<nat>)
    ensures r.Some? ==> r.value < |requests| && InQueue(requests[r.value].status)
  {
    if requests == [] then None
    else
      match FirstInQueue(requests[..|requests| - 1])
      case Some(i) => Some(i)
      case None => if InQueue(requests[|requests| - 1].status) then Some(|requests| - 1) else None
  }

  /** The head of the queue, once some cycle has closed. */
  function AdmissionTarget(b: Book): Option<nat> {
    if b.closings == [] then None else FirstInQueue(b.requests)
  }

  /** Each reconciliation is evidence for one admission. */
  predicate EvidenceUsed(reserves: seq<Reserve>, reconciliation: nat) {
    exists k :: 0 <= k < |reserves| && reserves[k].reconciliation == reconciliation
  }

  function AdmitNext(b: Book, tick: Positive, reconciliation: nat, capacity: Option<Capacity>): Result<Book, Fault> {
    var now := b.clock + tick;
    match AdmissionTarget(b)
    case None => Ok(b)
    case Some(r) =>
      if capacity.None? then Err(AdmissionEvidenceUnavailable)
      else if capacity.value.available < capacity.value.required then
        Ok((if b.requests[r].status == Queued then Postponed(b, r, reconciliation, capacity.value, now) else b).(
          clock := now))
      else if EvidenceUsed(b.reserves, reconciliation) then Err(AdmissionEvidenceUsed)
      else
        Ok(Admission(b, r, reconciliation, capacity.value, now).(clock := now))
  }

  function Postponed(b: Book, r: nat, reconciliation: nat, capacity: Capacity, now: int): Book
    requires r < |b.requests|
  {
    SetStatus(AddWaiting(b, WaitingEvidence(r, reconciliation, capacity.required, capacity.available, 0)),
              r, WaitingLiquidity, now)
  }

  function Admission(b: Book, r: nat, reconciliation: nat, capacity: Capacity, now: int): Book
    requires r < |b.requests| && b.closings != []
  {
    var last := b.closings[|b.closings| - 1];
    var held := AddReserve(b, Reserve(r, b.requests[r].shares, reconciliation, last.cycle, last.checkpoint,
                                      capacity.required, capacity.available, 0));
    var admitted := SetStatus(held, r, Admitted, now);
    SetStatus(Logged(admitted, Next(admitted), RedemptionRedeeming(r, Some(|b.reserves|))), r, Redeeming, now)
  }

  // ---------------------------------------------------------------- what lies outside, as of the snapshot

  datatype CloseInput = CloseInput(snapshot: Snapshot, recovery: Option<Snapshot>, financialVersion: nat,
                                   expenses: nat, tickets: seq<Ticket>)

  predicate Accrued(fees: seq<FeeAccrual>, ticket: nat) {
    exists i :: 0 <= i < |fees| && fees[i].ticket == ticket
  }

  predicate Recognized(recognitions: seq<Recognition>, ticket: nat) {
    exists i :: 0 <= i < |recognitions| && recognitions[i].ticket == ticket
  }

  function FeesDue(fees: seq<FeeAccrual>, tickets: seq<Ticket>, from: int, through: int): seq<Ticket> {
    if tickets == [] then []
    else
      var t := tickets[|tickets| - 1];
      FeesDue(fees, tickets[..|tickets| - 1], from, through)
      + (if 0 < t.fee && from <= t.created <= through && !Accrued(fees, t.id) then [t] else [])
  }

  predicate Settled(tickets: seq<Ticket>) {
    forall i :: 0 <= i < |tickets| ==> tickets[i].settlement.Some?
  }

  function SettlementsDue(recognitions: seq<Recognition>, tickets: seq<Ticket>, from: int, through: int)
    : (due: seq<Ticket>)
    ensures Settled(due)
  {
    if tickets == [] then []
    else
      var t := tickets[|tickets| - 1];
      SettlementsDue(recognitions, tickets[..|tickets| - 1], from, through)
      + (if t.settlement.Some? && from < t.settlement.value.at <= through && !Recognized(recognitions, t.id)
         then [t] else [])
  }

  function OpenTickets(tickets: seq<Ticket>, at: int): seq<Ticket> {
    if tickets == [] then []
    else
      var t := tickets[|tickets| - 1];
      OpenTickets(tickets[..|tickets| - 1], at)
      + (if t.created <= at && (t.settlement.None? || at < t.settlement.value.at) then [t] else [])
  }

  function GrossPayout(open: seq<Ticket>): nat {
    if open == [] then 0 else GrossPayout(open[..|open| - 1]) + open[|open| - 1].payout
  }

  function OpenStake(open: seq<Ticket>): nat {
    if open == [] then 0 else OpenStake(open[..|open| - 1]) + open[|open| - 1].stake
  }

  // ---------------------------------------------------------------- recognition and ticket marks

  function AccrueFees(b: Book, due: seq<Ticket>): Book {
    if due == [] then b
    else
      var t := due[|due| - 1];
      AddFee(AccrueFees(b, due[..|due| - 1]), FeeAccrual(t.id, t.reserve, t.fee, t.created, 0))
  }

  function RecognizeSettlements(b: Book, cycle: nat, due: seq<Ticket>): Book
    requires Settled(due)
  {
    if due == [] then b
    else
      var t := due[|due| - 1];
      AddRecognition(RecognizeSettlements(b, cycle, due[..|due| - 1]), RecognitionOf(cycle, t, t.settlement.value))
  }

  function RecognitionOf(cycle: nat, t: Ticket, s: Settlement): Recognition {
    Recognition(cycle, t.id, s.summary, t.stake, s.payout, t.stake - s.payout, 0)
  }

  function Recognize(b: Book, cycle: nat, tickets: seq<Ticket>, from: int, through: int): Book {
    RecognizeSettlements(AccrueFees(b, FeesDue(b.fees, tickets, from, through)), cycle,
                         SettlementsDue(b.recognitions, tickets, from, through))
  }

  /** The fallback that the due close supplies: every open ticket at its gross payout. */
  function GrossMarks(open: seq<Ticket>, at: int): seq<MarkWrite> {
    seq(|open|, i requires 0 <= i < |open| => MarkWrite(open[i].id, open[i].payout, at))
  }

  predicate HasMark(marks: seq<MarkWrite>, ticket: nat) {
    exists j :: 0 <= j < |marks| && marks[j].ticket == ticket
  }

  predicate HasTicket(open: seq<Ticket>, ticket: nat) {
    exists i :: 0 <= i < |open| && open[i].id == ticket
  }

  predicate MarksCover(open: seq<Ticket>, marks: seq<MarkWrite>) {
    && (forall i, j :: 0 <= i < j < |marks| ==> marks[i].ticket != marks[j].ticket)
    && (forall i :: 0 <= i < |open| ==> HasMark(marks, open[i].id))
    && (forall j :: 0 <= j < |marks| ==> HasTicket(open, marks[j].ticket))
  }

  function MarkFor(marks: seq<MarkWrite>, ticket: nat): Option<MarkWrite> {
    if marks == [] then None
    else if marks[|marks| - 1].ticket == ticket then Some(marks[|marks| - 1])
    else MarkFor(marks[..|marks| - 1], ticket)
  }

  /** Only the gross payout is accepted as a mark, on evidence no later than the snapshot. */
  predicate MarkAccepted(write: Option<MarkWrite>, t: Ticket, at: int) {
    write.Some? && write.value.evidenceAt <= at && write.value.amount == t.payout
  }

  function MarkTickets(b: Book, cycle: nat, open: seq<Ticket>, marks: seq<MarkWrite>, at: int): Result<Book, Fault> {
    if open == [] then Ok(b)
    else
      var t := open[|open| - 1];
      match MarkTickets(b, cycle, open[..|open| - 1], marks, at)
      case Err(fault) => Err(fault)
      case Ok(marked) =>
        if MarkAccepted(MarkFor(marks, t.id), t, at)
        then Ok(AddTicketMark(marked, TicketMark(cycle, t.id, t.stake, t.payout, t.payout, 0)))
        else Err(TicketMarkInvalid)
  }

  // ---------------------------------------------------------------- liability, checkpoint, liquidity

  /** The liability that a close would record now. */
  function LiabilityNow(b: Book, cycle: nat, input: CloseInput, open: seq<Ticket>): Liability {
    var senior, gross := Senior(input.snapshot), GrossPayout(open);
    var fees := FeesAt(b.fees, input.snapshot.created);
    var pending, matured := PendingTotal(b.deposits), MaturedTotal(b.payables);
    Liability(cycle, input.snapshot.id, input.snapshot.treasury, senior, gross, gross, fees, input.expenses, pending,
              matured, senior + gross + fees + input.expenses + pending + matured, 0)
  }

  /** The table of liabilities counts the dust of earlier closes among the protocol's fees. */
  predicate LiabilityAccepted(b: Book, l: Liability, at: int) {
    l.fees == FeesAt(b.fees, at) + DustBy(b.closings, at)
  }

  function ValueCycle(b: Book, cycle: nat, input: CloseInput, open: seq<Ticket>): Result<Book, Fault> {
    var liability, supply := LiabilityNow(b, cycle, input, open), Supply(b.shareEvents);
    var assets := liability.grossAssets;
    if assets < liability.deductions then Err(NavNegative)
    else if supply == 0 && assets != liability.deductions then Err(PositiveNavWithoutShares)
    else if !LiabilityAccepted(b, liability, input.snapshot.created) then Err(LiabilityMarkMismatch)
    else
      Ok(AddCheckpoint(AddLiability(b, liability),
                       Checkpoint(cycle, |b.liabilities|, input.snapshot.id, assets, assets - liability.deductions,
                                  supply, OpenStake(open) - liability.marked, FinalizedPnl(b.recognitions), 0)))
  }

  /** The admitted requests as the history had them at a given time. */
  function ReservedRequests(history: seq<Move>, reserves: seq<Reserve>, n: nat, at: int): seq<nat> {
    Select(n, (r: nat) => ReserveOf(reserves, r).Some? && StatusAt(history, r, at).Some?
                          && Reserved(StatusAt(history, r, at).value))
  }

  function MarkReserves(b: Book, cycle: nat, checkpoint: nat, cp: Checkpoint, requests: seq<nat>): Book
    requires 0 < cp.supply
  {
    if requests == [] then b
    else
      var r := requests[|requests| - 1];
      MarkReserve(MarkReserves(b, cycle, checkpoint, cp, requests[..|requests| - 1]), cycle, checkpoint, cp, r)
  }

  function MarkReserve(b: Book, cycle: nat, checkpoint: nat, cp: Checkpoint, r: nat): Book
    requires 0 < cp.supply
  {
    var held := ReserveOf(b.reserves, r);
    if MarkOf(b.reserveMarks, cycle, r).Some? || held.None? then b
    else
      var shares := b.reserves[held.value].shares;
      AddReserveMark(b, ReserveMark(cycle, checkpoint, r, shares, shares * cp.nav / cp.supply, 0))
  }

  function MarkActiveReserves(b: Book, cycle: nat, checkpoint: nat, cp: Checkpoint, at: int): Result<Book, Fault> {
    var requests := ReservedRequests(b.history, b.reserves, |b.requests|, at);
    if requests == [] then Ok(b)
    else if cp.supply <= 0 then Err(RedemptionSupplyMissing)
    else Ok(MarkReserves(b, cycle, checkpoint, cp, requests))
  }

  function MarkLiquidity(b: Book, cycle: nat, checkpoint: nat, cp: Checkpoint, l: Liability): Result<Book, Fault> {
    var reserve := MarkedReserve(b.reserveMarks, cycle);
    var collateral := l.deductions - l.marked + l.gross + reserve;
    if cp.gross < collateral then Err(CollateralShortfall)
    else Ok(AddLiquidity(b, Liquidity(cycle, checkpoint, l.deductions, reserve, collateral, cp.gross - collateral, 0)))
  }

  // ---------------------------------------------------------------- finalizing redemptions

  function AdmittedBy(requests: seq<Request>, at: int): (rows: seq<nat>)
    ensures Numbers(rows, |requests|)
  {
    Select(|requests|, (r: nat) => r < |requests| && requests[r].status == Admitted && requests[r].startsAt <= at)
  }

  function StartRedeeming(b: Book, requests: seq<nat>, now: int): (b': Book)
    requires Numbers(requests, |b.requests|)
    ensures |b'.requests| == |b.requests|
  {
    if requests == [] then b
    else
      var r, rest := requests[|requests| - 1], StartRedeeming(b, requests[..|requests| - 1], now);
      SetStatus(Logged(rest, Next(rest), RedemptionRedeeming(r, None)), r, Redeeming, now)
  }

  predicate Matured(requests: seq<Request>, marks: seq<ReserveMark>, cycle: nat, checkpoint: nat, at: int, r: nat) {
    && r < |requests| && requests[r].status == Redeeming && requests[r].endsAt <= at
    && MarkOf(marks, cycle, r).Some? && marks[MarkOf(marks, cycle, r).value].checkpoint == checkpoint
  }

  /** The redeeming requests whose window is over and which this checkpoint has marked. */
  function MaturedRequests(requests: seq<Request>, marks: seq<ReserveMark>, cycle: nat, checkpoint: nat, at: int)
    : (rows: seq<nat>)
    ensures Numbers(rows, |requests|)
  {
    Select(|requests|, (r: nat) => Matured(requests, marks, cycle, checkpoint, at, r))
  }

  function FinalizeOne(b: Book, cycle: nat, checkpoint: nat, cp: Checkpoint, r: nat, now: int): Result<Book, Fault>
    requires r < |b.requests|
  {
    var request, mark := b.requests[r], MarkOf(b.reserveMarks, cycle, r);
    if PayableOf(b.payables, r).Some? || mark.None? then Ok(b)
    else
      var balance := Balance(b.shareEvents, request.user);
      match ShareRedemption.FinalizeRedemptions(
        cp.nav, cp.supply, [ShareRedemption.RedemptionRequest(request.user, request.shares, balance)])
      case Err(fault) => Err(Shares(fault))
      case Ok(redeemed) =>
        if redeemed.allocations == [] || redeemed.allocations[0].amount != b.reserveMarks[mark.value].amount
        then Err(BindingMarkMismatch)
        else
          match PlanBurn(b.lots, b.allocations, request.user, request.shares, |b.lots|)
          case Err(fault) => Err(Shares(fault))
          case Ok(plan) =>
            if plan.remaining != 0 then Err(CostBasisMissing)
            else Ok(Finalization(b, r, mark.value, redeemed.allocations[0].amount, plan, checkpoint, now))
  }

  function Finalization(b: Book, r: nat, mark: nat, amount: int, plan: Plan, checkpoint: nat, now: int): Book
    requires r < |b.requests|
  {
    var payable := |b.payables|;
    var burned := AddBurn(b, r, mark, amount, plan, checkpoint);
    var finalized := Logged(SetStatus(burned, r, Finalized, now), r, RedemptionFinalized(r, payable, amount));
    Logged(SetStatus(finalized, r, Claimable, now), r, RedemptionClaimable(r, payable))
  }

  function FinalizeEach(b: Book, cycle: nat, checkpoint: nat, cp: Checkpoint, requests: seq<nat>, now: int)
    : (r: Result<Book, Fault>)
    requires Numbers(requests, |b.requests|)
    ensures r.Ok? ==> |r.value.requests| == |b.requests|
  {
    if requests == [] then Ok(b)
    else
      match FinalizeEach(b, cycle, checkpoint, cp, requests[..|requests| - 1], now)
      case Err(fault) => Err(fault)
      case Ok(rest) => FinalizeOne(rest, cycle, checkpoint, cp, requests[|requests| - 1], now)
  }

  function FinalizeMatured(b: Book, cycle: nat, checkpoint: nat, cp: Checkpoint, at: int, now: int)
    : Result<Book, Fault>
  {
    var started := StartRedeeming(b, AdmittedBy(b.requests, at), now);
    FinalizeEach(started, cycle, checkpoint, cp,
                 MaturedRequests(started.requests, started.reserveMarks, cycle, checkpoint, at), now)
  }

  // ---------------------------------------------------------------- activating deposits

  function EligibleDeposits(deposits: seq<Deposit>, cutoff: int): (rows: seq<nat>)
    ensures Numbers(rows, |deposits|)
  {
    Select(|deposits|, (i: nat) => i < |deposits| && deposits[i].status == Pending && deposits[i].eligible <= cutoff)
  }

  function DepositEntries(deposits: seq<Deposit>, rows: seq<nat>): seq<OwnerClaims.Entry>
    requires Numbers(rows, |deposits|)
  {
    seq(|rows|, i requires 0 <= i < |rows| => OwnerClaims.Entry(deposits[rows[i]].user, deposits[rows[i]].amount))
  }

  /** The eligible deposits of one user. */
  function PartsOf(deposits: seq<Deposit>, rows: seq<nat>, user: nat): seq<DepositSplit.Part>
    requires Numbers(rows, |deposits|)
  {
    if rows == [] then []
    else
      var i := rows[|rows| - 1];
      PartsOf(deposits, rows[..|rows| - 1], user)
      + (if deposits[i].user == user then [DepositSplit.Part(i, deposits[i].amount)] else [])
  }

  /** Each eligible deposit's shares, owner by owner. */
  function SharesByDeposit(deposits: seq<Deposit>, rows: seq<nat>, owners: seq<OwnerClaims.Allocation>)
    : Result<map<nat, nat>, Fault>
    requires Numbers(rows, |deposits|)
  {
    if owners == [] then Ok(map[])
    else
      match SharesByDeposit(deposits, rows, owners[..|owners| - 1])
      case Err(fault) => Err(fault)
      case Ok(shares) =>
        var last := owners[|owners| - 1];
        var parts := PartsOf(deposits, rows, last.owner);
        if !DepositSplit.Splittable(last.amount, parts) then Err(SplitFailed(DepositSplit.InvalidAllocation))
        else Ok(shares + DepositSplit.Split(last.amount, parts))
  }

  function MintEach(b: Book, rows: seq<nat>, shares: map<nat, nat>, checkpoint: nat): (r: Result<Book, Fault>)
    requires Numbers(rows, |b.deposits|)
    ensures r.Ok? ==> |r.value.deposits| == |b.deposits|
  {
    if rows == [] then Ok(b)
    else
      match MintEach(b, rows[..|rows| - 1], shares, checkpoint)
      case Err(fault) => Err(fault)
      case Ok(rest) =>
        var i := rows[|rows| - 1];
        if i !in shares || shares[i] == 0 then Err(DepositMintsZeroShares)
        else Ok(AddMint(rest, i, shares[i], checkpoint))
  }

  ghost function ActivateDeposits(b: Book, cutoff: int, checkpoint: nat, cp: Checkpoint): Result<Book, Fault> {
    var rows := EligibleDeposits(b.deposits, cutoff);
    if rows == [] then Ok(b)
    else
      match ShareMint.MintShares(cp.nav, cp.supply, DepositEntries(b.deposits, rows))
      case Err(fault) => Err(Shares(fault))
      case Ok(mint) =>
        match SharesByDeposit(b.deposits, rows, mint.allocations)
        case Err(fault) => Err(fault)
        case Ok(shares) => MintEach(b, rows, shares, checkpoint)
  }

  // ---------------------------------------------------------------- the closing state

  function ClosingNow(b: Book, cycle: nat, checkpoint: nat, cp: Checkpoint, now: int): Closing {
    var activated, matured := ActivatedAt(b.deposits, checkpoint), MaturedAt(b.payables, b.reserveMarks, checkpoint);
    var burned := BurnedAt(b.payables, b.reserveMarks, checkpoint);
    var dust := if 0 < cp.supply && burned == cp.supply then cp.nav - matured else 0;
    Closing(cycle, checkpoint, activated, matured, dust, cp.nav + activated - matured - dust, Supply(b.shareEvents),
            now, 0)
  }

  function CloseBooks(b: Book, cycle: nat, checkpoint: nat, cp: Checkpoint, now: int): Result<Book, Fault> {
    var closing := ClosingNow(b, cycle, checkpoint, cp, now);
    if closing.nav < 0 || (closing.supply == 0 && 0 < closing.nav) then Err(InvalidClosingState)
    else
      Ok(AddClosing(b, closing).(cycles := CycleClosedIn(b.cycles, cycle)))
  }

  function CycleClosedIn(cycles: seq<Cycle>, cycle: nat): seq<Cycle> {
    seq(|cycles|, i requires 0 <= i < |cycles| => if i == cycle then cycles[i].(status := Closed) else cycles[i])
  }

  // ---------------------------------------------------------------- one cycle, from open to closed

  predicate OnTime(snapshot: Snapshot, cutoff: int) {
    snapshot.created <= cutoff * DAY_MS + SOURCE_MAX_AGE_MS && snapshot.observed <= cutoff * DAY_MS + SOURCE_MAX_AGE_MS
  }

  predicate SourceAccepted(input: CloseInput, cutoff: int) {
    var s, start := input.snapshot, cutoff * DAY_MS;
    && s.trusted && start <= s.observed <= s.created
    && (input.recovery.None? ==> OnTime(s, cutoff) && start <= s.created)
  }

  /** A recovery needs the same financial state to have been observed by the cutoff. */
  predicate RecoveryAccepted(input: CloseInput, cutoff: int) {
    match input.recovery
    case None => true
    case Some(before) =>
      && before.trusted && before.observed <= cutoff * DAY_MS
      && before.bookVersion == input.snapshot.bookVersion && before.stateHash == input.snapshot.stateHash
  }

  /** Everything up to the checkpoint. */
  function CheckpointCycle(b: Book, cycle: nat, from: int, input: CloseInput, marks: seq<MarkWrite>)
    : (r: Result<Book, Fault>)
    ensures r.Ok? ==> r.value.checkpoints != [] && r.value.liabilities != []
  {
    var at := input.snapshot.created;
    var open := OpenTickets(input.tickets, at);
    if !MarksCover(open, marks) then Err(TicketMarkCoverage)
    else
      match MarkTickets(Recognize(b, cycle, input.tickets, from, at), cycle, open, marks, at)
      case Err(fault) => Err(fault)
      case Ok(marked) => ValueCycle(marked, cycle, input, open)
  }

  /** From the checkpoint to the payables. */
  function SettleCycle(b: Book, cycle: nat, checkpoint: nat, cp: Checkpoint, l: Liability, at: int, now: int)
    : Result<Book, Fault>
  {
    match MarkActiveReserves(b, cycle, checkpoint, cp, at)
    case Err(fault) => Err(fault)
    case Ok(reserved) =>
      match MarkLiquidity(reserved, cycle, checkpoint, cp, l)
      case Err(fault) => Err(fault)
      case Ok(marked) => FinalizeMatured(marked, cycle, checkpoint, cp, at, now)
  }

  ghost function CloseOpenCycle(b: Book, cycle: nat, cutoff: int, from: int, input: CloseInput,
                                marks: seq<MarkWrite>, now: int): Result<Book, Fault>
  {
    if !SourceAccepted(input, cutoff) then Err(ReconciliationUntrusted)
    else if input.financialVersion != input.snapshot.bookVersion then Err(BookVersionStale)
    else if !RecoveryAccepted(input, cutoff) then Err(RecoveryUnsafe)
    else
      match CheckpointCycle(b, cycle, from, input, marks)
      case Err(fault) => Err(fault)
      case Ok(valued) =>
        var checkpoint := |valued.checkpoints| - 1;
        var cp, l := valued.checkpoints[checkpoint], valued.liabilities[|valued.liabilities| - 1];
        match SettleCycle(valued, cycle, checkpoint, cp, l, input.snapshot.created, now)
        case Err(fault) => Err(fault)
        case Ok(settled) =>
          match ActivateDeposits(settled, cutoff, checkpoint, cp)
          case Err(fault) => Err(fault)
          case Ok(active) => CloseBooks(active, cycle, checkpoint, cp, now)
  }

  predicate LatestClosed(cycles: seq<Cycle>, cycle: nat) {
    && cycle < |cycles| && cycles[cycle].status == Closed
    && forall i :: 0 <= i < |cycles| && cycles[i].status == Closed ==> cycles[i].cutoff <= cycles[cycle].cutoff
  }

  /** A closed cycle is only loaded again; an open one is closed, and loaded with the time of its source. */
  ghost function CloseCycle(b: Book, cycle: nat, cutoff: int, from: int, input: CloseInput, marks: seq<MarkWrite>,
                            now: int): Result<Book, Fault>
  {
    if |b.cycles| <= cycle then Err(CycleMissing)
    else if b.cycles[cycle].status == Closed then
      if LatestClosed(b.cycles, cycle) then Ok(b) else Err(ClosedCycleNotLatest)
    else if b.cycles[cycle].status != Open then Err(CyclePartialState)
    else
      match CloseOpenCycle(b, cycle, cutoff, from, input, marks, now)
      case Err(fault) => Err(fault)
      case Ok(closed) => if now < input.snapshot.observed then Err(SourceTimeInvalid) else Ok(closed)
  }

  // ---------------------------------------------------------------- the close that is due

  function DueCutoff(b: Book, now: int): int {
    if b.cycles == [] then DayOf(now) else b.cycles[|b.cycles| - 1].cutoff + 1
  }

  /** The recovery evidence that the due close may use, if any. */
  function UsableRecovery(input: CloseInput, cutoff: int): Option<Snapshot> {
    match input.recovery
    case None => None
    case Some(before) =>
      if before.trusted && before.bookVersion == input.snapshot.bookVersion
         && before.stateHash == input.snapshot.stateHash
         && before.observed <= before.created <= cutoff * DAY_MS
      then Some(before) else None
  }

  /** The snapshot is a row that already exists, so it was taken no later than now. */
  predicate Due(b: Book, input: CloseInput, cutoff: int, now: int) {
    var s := input.snapshot;
    && s.trusted && s.bookVersion == input.financialVersion
    && cutoff * DAY_MS <= s.observed <= s.created <= now
    && cutoff <= DayOf(now)
    && (s.created <= cutoff * DAY_MS + SOURCE_MAX_AGE_MS || UsableRecovery(input, cutoff).Some?)
  }

  /** What the treasury holds beyond every obligation. */
  function Seed(snapshot: Snapshot): int {
    snapshot.treasury - Senior(snapshot) - snapshot.openStake - snapshot.openReserve
  }

  /** The vault is incepted on a reconciliation that was stored soon after its observation. */
  function Incepted(b: Book, snapshot: Snapshot): Result<Book, Fault> {
    var seed := Seed(snapshot);
    if b.inception.Some? then Ok(b)
    else if seed < 0 then Err(InceptionSeedNegative)
    else if SOURCE_MAX_AGE_MS < snapshot.created - snapshot.observed then Err(InceptionMismatch)
    else
      var incepted := AddInception(b, Inception(snapshot.id, seed, snapshot.created, 0));
      Ok(if 0 < seed
         then AddDeposit(incepted, Deposit(FOUNDER_USER, seed, DayOf(snapshot.created), FOUNDER_SOURCE, Pending, 0))
         else incepted)
  }

  ghost function CloseDue(b: Book, tick: Positive, input: CloseInput): Result<Book, Fault> {
    var now := b.clock + tick;
    var cutoff := DueCutoff(b, now);
    if !Due(b, input, cutoff, now) then Err(NotDue) else CloseFrom(b, now, cutoff, input)
  }

  ghost function CloseFrom(b: Book, now: int, cutoff: int, input: CloseInput): Result<Book, Fault> {
    match Incepted(b, input.snapshot)
    case Err(fault) => Err(fault)
    case Ok(incepted) =>
      var recovery := if OnTime(input.snapshot, cutoff) then None else UsableRecovery(input, cutoff);
      var begun := AddCycle(incepted, Cycle(cutoff, Open, 0));
      var from := if incepted.inception.Some? then incepted.inception.value.at else input.snapshot.created;
      var at := input.snapshot.created;
      match CloseCycle(begun, |incepted.cycles|, cutoff, from, input.(recovery := recovery),
                       GrossMarks(OpenTickets(input.tickets, at), at), now)
      case Err(fault) => Err(fault)
      case Ok(closed) => Ok(closed.(clock := now))
  }

  // ---------------------------------------------------------------- runs

  datatype Step =
    | DepositStep(tick: Positive, user: nat, amount: int, source: string, key: string)
    | RequestStep(tick: Positive, user: nat, shares: int, key: string)
    | AdmitStep(tick: Positive, reconciliation: nat, capacity: Option<Capacity>)
    | CloseStep(tick: Positive, input: CloseInput)

  ghost function Attempt(b: Book, step: Step): Result<Book, Fault> {
    match step
    case DepositStep(tick, user, amount, source, key) => RecordDeposit(b, tick, user, amount, source, key)
    case RequestStep(tick, user, shares, key) => RequestRedemption(b, tick, user, shares, key)
    case AdmitStep(tick, reconciliation, capacity) => AdmitNext(b, tick, reconciliation, capacity)
    case CloseStep(tick, input) => CloseDue(b, tick, input)
  }

  /** A failed transaction leaves the book as it was. */
  ghost function Apply(b: Book, step: Step): Book {
    match Attempt(b, step)
    case Ok(b') => b'
    case Err(_) => b
  }

  ghost function Run(vault: nat, steps: seq<Step>): Book {
    if steps == [] then EmptyBook(vault) else Apply(Run(vault, steps[..|steps| - 1]), steps[|steps| - 1])
  }
}
