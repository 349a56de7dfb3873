/** Writing one row together with the sealed event that records it. */
module VaultRows {
  import opened Common
  import opened VaultTables
  import opened VaultLots

  function Logged(b: Book, entity: nat, payload: Payload): Book {
    b.(events := b.events + [Seal(b.vault, b.events, entity, payload)])
  }

  /** The book version of the event that is logged next. */
  function Next(b: Book): nat {
    |b.events| + 1
  }

  // ---------------------------------------------------------------- the payload that a row is recorded with

  function InceptionPayload(r: Inception): Payload {
    AccountingIncepted(r.reconciliation, r.seed)
  }

  function CyclePayload(r: Cycle): Payload {
    CycleOpened(r.cutoff)
  }

  function DepositPayload(r: Deposit): Payload {
    DepositPending(r.user, r.amount, r.source)
  }

  function RequestPayload(r: Request): Payload {
    RedemptionRequested(r.user, r.shares)
  }

  function WaitingPayload(r: WaitingEvidence): Payload {
    RedemptionWaiting(r.request, r.reconciliation, r.required, r.available)
  }

  function ReservePayload(r: Reserve): Payload {
    RedemptionAdmitted(r.request, r.shares, r.reconciliation, r.cycle, r.checkpoint, r.required, r.available)
  }

  function FeePayload(r: FeeAccrual): Payload {
    ProtocolFeeAccrued(r.ticket, r.ticketReserve, r.amount)
  }

  function RecognitionPayload(r: Recognition): Payload {
    SettlementRecognized(r.ticket, r.summary, r.pnl)
  }

  function TicketMarkPayload(r: TicketMark): Payload {
    TicketLiabilityMarked(r.ticket, r.marked)
  }

  function LiabilityPayload(r: Liability): Payload {
    LiabilityMarked(r.cycle, r.reconciliation, r.grossAssets, r.deductions)
  }

  function CheckpointPayload(r: Checkpoint): Payload {
    NavCheckpointed(r.cycle, r.liability, r.reconciliation, r.gross, r.gross - r.nav, r.nav, r.supply)
  }

  function ReserveMarkPayload(r: ReserveMark): Payload {
    RedemptionReserveMarked(r.request, r.amount)
  }

  function LiquidityPayload(r: Liquidity): Payload {
    LiquidityMarked(r.free)
  }

  function ClosingPayload(r: Closing): Payload {
    CycleClosed(r.cycle, r.checkpoint, r.activated, r.matured, r.dust, r.nav, r.supply)
  }

  // ---------------------------------------------------------------- one row, one event

  function AddInception(b: Book, r: Inception): Book {
    Logged(b, b.vault, InceptionPayload(r)).(inception := Some(r.(event := Next(b))))
  }

  function AddCycle(b: Book, r: Cycle): Book {
    Logged(b, |b.cycles|, CyclePayload(r)).(cycles := b.cycles + [r.(event := Next(b))])
  }

  function AddDeposit(b: Book, r: Deposit): Book {
    Logged(b, |b.deposits|, DepositPayload(r)).(deposits := b.deposits + [r.(event := Next(b))])
  }

  function AddRequest(b: Book, r: Request, now: int): Book {
    Logged(b, |b.requests|, RequestPayload(r)).(
      requests := b.requests + [r.(event := Next(b))],
      history := b.history + [Move(|b.requests|, None, r.status, now)])
  }

  function AddWaiting(b: Book, r: WaitingEvidence): Book {
    Logged(b, |b.waiting|, WaitingPayload(r)).(waiting := b.waiting + [r.(event := Next(b))])
  }

  function AddReserve(b: Book, r: Reserve): Book {
    Logged(b, |b.reserves|, ReservePayload(r)).(reserves := b.reserves + [r.(event := Next(b))])
  }

  function AddFee(b: Book, r: FeeAccrual): Book {
    Logged(b, |b.fees|, FeePayload(r)).(fees := b.fees + [r.(event := Next(b))])
  }

  function AddRecognition(b: Book, r: Recognition): Book {
    Logged(b, |b.recognitions|, RecognitionPayload(r)).(recognitions := b.recognitions + [r.(event := Next(b))])
  }

  function AddTicketMark(b: Book, r: TicketMark): Book {
    Logged(b, |b.ticketMarks|, TicketMarkPayload(r)).(ticketMarks := b.ticketMarks + [r.(event := Next(b))])
  }

  function AddLiability(b: Book, r: Liability): Book {
    Logged(b, |b.liabilities|, LiabilityPayload(r)).(liabilities := b.liabilities + [r.(event := Next(b))])
  }

  function AddCheckpoint(b: Book, r: Checkpoint): Book {
    Logged(b, |b.checkpoints|, CheckpointPayload(r)).(checkpoints := b.checkpoints + [r.(event := Next(b))])
  }

  function AddReserveMark(b: Book, r: ReserveMark): Book {
    Logged(b, |b.reserveMarks|, ReserveMarkPayload(r)).(reserveMarks := b.reserveMarks + [r.(event := Next(b))])
  }

  function AddLiquidity(b: Book, r: Liquidity): Book {
    Logged(b, |b.liquidity|, LiquidityPayload(r)).(liquidity := b.liquidity + [r.(event := Next(b))])
  }

  function AddClosing(b: Book, r: Closing): Book {
    Logged(b, |b.closings|, ClosingPayload(r)).(closings := b.closings + [r.(event := Next(b))])
  }

  // ---------------------------------------------------------------- rows written together

  /** The share mint of one deposit, its lot and the deposit's activation. */
  function AddMint(b: Book, deposit: nat, shares: int, checkpoint: nat): Book
    requires deposit < |b.deposits|
  {
    var d := b.deposits[deposit];
    Logged(b, |b.shareEvents|, DepositActivated(deposit, d.user, checkpoint, |b.lots|, d.amount, shares)).(
      positions := b.positions + {d.user},
      shareEvents := b.shareEvents + [ShareEvent(MintOf(deposit), d.user, shares, d.amount, checkpoint, Next(b))],
      lots := b.lots + [Lot(d.user, |b.shareEvents|, shares, d.amount)],
      deposits := b.deposits[deposit := d.(status := Active(checkpoint))])
  }

  /** The share burn of one request, its lot allocations and its payable. */
  function AddBurn(b: Book, request: nat, mark: nat, amount: int, plan: Plan, checkpoint: nat): Book
    requires request < |b.requests|
  {
    var r := b.requests[request];
    Logged(b, |b.shareEvents|, RedemptionPayableMatured(request, r.user, checkpoint, |b.payables|, r.shares, amount,
                                                        plan.basis, plan.parts)).(
      shareEvents := b.shareEvents
        + [ShareEvent(BurnOf(request), r.user, r.shares, plan.basis, checkpoint, Next(b))],
      allocations := Recorded(b.allocations, |b.shareEvents|, plan.parts),
      payables := b.payables + [Payable(request, mark, r.shares, amount, plan.basis, Next(b))])
  }

  /** A status change, with the history row and the redemption window it brings. */
  function SetStatus(b: Book, request: nat, status: Status, now: int): Book
    requires request < |b.requests|
  {
    var r := b.requests[request];
    var r' := if status == Admitted
              then r.(status := status, startsAt := now, endsAt := now + REDEMPTION_WINDOW_MS)
              else r.(status := status);
    b.(requests := b.requests[request := r'],
       history := b.history + [Move(request, Some(r.status), status, now)])
  }
}
