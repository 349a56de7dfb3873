/**
 The independent replay of the event log: what it folds out of the log alone, and what
 it demands of the tables beside it.
 */
module VaultReplay {
  import opened Common
  import opened VaultTables
  import opened VaultLots
  import opened VaultRows

  // ---------------------------------------------------------------- the log by kind of event

  datatype Kind =
    | InceptionKind | CycleKind | DepositKind | RequestKind | WaitingKind | ReserveKind | FeeKind | RecognitionKind
    | TicketMarkKind | LiabilityKind | CheckpointKind | ReserveMarkKind | LiquidityKind | ClosingKind
    | ShareKind | LifecycleKind

  function KindOf(p: Payload): Kind {
    match p
    case AccountingIncepted(_, _) => InceptionKind
    case CycleOpened(_) => CycleKind
    case DepositPending(_, _, _) => DepositKind
    case RedemptionRequested(_, _) => RequestKind
    case RedemptionWaiting(_, _, _, _) => WaitingKind
    case RedemptionAdmitted(_, _, _, _, _, _, _) => ReserveKind
    case RedemptionRedeeming(_, _) => LifecycleKind
    case ProtocolFeeAccrued(_, _, _) => FeeKind
    case SettlementRecognized(_, _, _) => RecognitionKind
    case TicketLiabilityMarked(_, _) => TicketMarkKind
    case LiabilityMarked(_, _, _, _) => LiabilityKind
    case NavCheckpointed(_, _, _, _, _, _, _) => CheckpointKind
    case RedemptionReserveMarked(_, _) => ReserveMarkKind
    case LiquidityMarked(_) => LiquidityKind
    case RedemptionPayableMatured(_, _, _, _, _, _, _, _) => ShareKind
    case RedemptionFinalized(_, _, _) => LifecycleKind
    case RedemptionClaimable(_, _) => LifecycleKind
    case DepositActivated(_, _, _, _, _, _) => ShareKind
    case CycleClosed(_, _, _, _, _, _, _) => ClosingKind
  }

  /** Events that are the projection of exactly one row of one table. */
  predicate Direct(k: Kind) {
    k != ShareKind && k != LifecycleKind
  }

  /** A row's claim on the log: which event records it, for which entity, with which payload. */
  datatype Projection = Projection(event: nat, entity: nat, payload: Payload)

  function Projected(e: Event): Projection {
    Projection(e.version, e.entity, e.payload)
  }

  function OfKind(events: seq<Event>, k: Kind): seq<Projection> {
    if events == [] then []
    else
      var last := events[|events| - 1];
      OfKind(events[..|events| - 1], k) + (if KindOf(last.payload) == k then [Projected(last)] else [])
  }

  function OfCycle(r: Cycle, i: nat): Projection {
    Projection(r.event, i, CyclePayload(r))
  }

  function OfDeposit(r: Deposit, i: nat): Projection {
    Projection(r.event, i, DepositPayload(r))
  }

  function OfRequest(r: Request, i: nat): Projection {
    Projection(r.event, i, RequestPayload(r))
  }

  function OfWaiting(r: WaitingEvidence, i: nat): Projection {
    Projection(r.event, i, WaitingPayload(r))
  }

  function OfReserve(r: Reserve, i: nat): Projection {
    Projection(r.event, i, ReservePayload(r))
  }

  function OfFee(r: FeeAccrual, i: nat): Projection {
    Projection(r.event, i, FeePayload(r))
  }

  function OfRecognition(r: Recognition, i: nat): Projection {
    Projection(r.event, i, RecognitionPayload(r))
  }

  function OfTicketMark(r: TicketMark, i: nat): Projection {
    Projection(r.event, i, TicketMarkPayload(r))
  }

  function OfLiability(r: Liability, i: nat): Projection {
    Projection(r.event, i, LiabilityPayload(r))
  }

  function OfCheckpoint(r: Checkpoint, i: nat): Projection {
    Projection(r.event, i, CheckpointPayload(r))
  }

  function OfReserveMark(r: ReserveMark, i: nat): Projection {
    Projection(r.event, i, ReserveMarkPayload(r))
  }

  function OfLiquidity(r: Liquidity, i: nat): Projection {
    Projection(r.event, i, LiquidityPayload(r))
  }

  function OfClosing(r: Closing, i: nat): Projection {
    Projection(r.event, i, ClosingPayload(r))
  }

  /** What a table claims of the log: one projection a row. */
  function Rows<T>(rows: seq<T>, projection: (T, nat) -> Projection): seq<Projection> {
    seq(|rows|, i requires 0 <= i < |rows| => projection(rows[i], i))
  }

  function RowsOf(b: Book, k: Kind): seq<Projection> {
    match k
    case InceptionKind =>
      if b.inception.None? then []
      else [Projection(b.inception.value.event, b.vault, InceptionPayload(b.inception.value))]
    case CycleKind => Rows(b.cycles, OfCycle)
    case DepositKind => Rows(b.deposits, OfDeposit)
    case RequestKind => Rows(b.requests, OfRequest)
    case WaitingKind => Rows(b.waiting, OfWaiting)
    case ReserveKind => Rows(b.reserves, OfReserve)
    case FeeKind => Rows(b.fees, OfFee)
    case RecognitionKind => Rows(b.recognitions, OfRecognition)
    case TicketMarkKind => Rows(b.ticketMarks, OfTicketMark)
    case LiabilityKind => Rows(b.liabilities, OfLiability)
    case CheckpointKind => Rows(b.checkpoints, OfCheckpoint)
    case ReserveMarkKind => Rows(b.reserveMarks, OfReserveMark)
    case LiquidityKind => Rows(b.liquidity, OfLiquidity)
    case ClosingKind => Rows(b.closings, OfClosing)
    case ShareKind => []
    case LifecycleKind => []
  }

  // ---------------------------------------------------------------- shares and redemptions beside the log

  function LotOf(lots: seq<Lot>, mint: nat): Option<nat> {
    if lots == [] then None
    else if lots[|lots| - 1].mint == mint then Some(|lots| - 1)
    else LotOf(lots[..|lots| - 1], mint)
  }

  function PayableAt(payables: seq<Payable>, event: nat): (r: Option<nat>)
    ensures r.Some? ==> r.value < |payables| && payables[r.value].event == event
  {
    if payables == [] then None
    else if payables[|payables| - 1].event == event then Some(|payables| - 1)
    else PayableAt(payables[..|payables| - 1], event)
  }

  function PartsOfBurn(allocations: seq<BurnAllocation>, burn: nat): seq<LotBurn> {
    if allocations == [] then []
    else
      PartsOfBurn(allocations[..|allocations| - 1], burn)
      + (if allocations[|allocations| - 1].burn == burn then [allocations[|allocations| - 1].part] else [])
  }

  /** The event that a share event, its lot or payable, and its allocations call for. */
  function ShareProjection(e: ShareEvent, i: nat, lots: seq<Lot>, allocations: seq<BurnAllocation>,
                           payables: seq<Payable>): Option<Projection>
  {
    match e.cause
    case MintOf(deposit) =>
      var lot := LotOf(lots, i);
      if lot.None? then None
      else Some(Projection(e.event, i, DepositActivated(deposit, e.user, e.checkpoint, lot.value, e.basis, e.shares)))
    case BurnOf(request) =>
      var payable := PayableAt(payables, e.event);
      if payable.None? then None
      else
        Some(Projection(e.event, i, RedemptionPayableMatured(
          request, e.user, e.checkpoint, payable.value, e.shares, payables[payable.value].amount, e.basis,
          PartsOfBurn(allocations, i))))
  }

  predicate LifecycleAt(e: Event, requests: nat, reserves: seq<Reserve>, payables: seq<Payable>) {
    match e.payload
    case RedemptionRedeeming(r, reserve) =>
      && r < requests
      && (reserve.Some? ==> reserve.value < |reserves| && reserves[reserve.value].request == r)
    case RedemptionFinalized(r, p, amount) =>
      && e.entity == r < requests && p < |payables| && payables[p].request == r && payables[p].amount == amount
      && PayablesFor(payables, r) == 1
    case RedemptionClaimable(r, p) =>
      && e.entity == r < requests && p < |payables| && payables[p].request == r && PayablesFor(payables, r) == 1
    case _ => true
  }

  // ---------------------------------------------------------------- redemption history beside the log

  datatype StatusChange = StatusChange(request: nat, status: Status)

  function StatusEvent(e: Event): Option<StatusChange> {
    match e.payload
    case RedemptionRequested(_, _) => Some(StatusChange(e.entity, Queued))
    case RedemptionWaiting(r, _, _, _) => Some(StatusChange(r, WaitingLiquidity))
    case RedemptionAdmitted(r, _, _, _, _, _, _) => Some(StatusChange(r, Admitted))
    case RedemptionRedeeming(r, _) => Some(StatusChange(r, Redeeming))
    case RedemptionFinalized(r, _, _) => Some(StatusChange(r, Finalized))
    case RedemptionClaimable(r, _) => Some(StatusChange(r, Claimable))
    case _ => None
  }

  function StatusesOf(events: seq<Event>, request: nat): seq<Status> {
    if events == [] then []
    else
      var change := StatusEvent(events[|events| - 1]);
      StatusesOf(events[..|events| - 1], request)
      + (if change.Some? && change.value.request == request then [change.value.status] else [])
  }

  datatype Transition = Transition(source: Option<Status>, target: Status)

  function Transitions(statuses: seq<Status>): seq<Transition> {
    seq(|statuses|, i requires 0 <= i < |statuses| =>
      Transition(if i == 0 then None else Some(statuses[i - 1]), statuses[i]))
  }

  function TransitionsOf(history: seq<Move>, request: nat): seq<Transition> {
    if history == [] then []
    else
      var last := history[|history| - 1];
      TransitionsOf(history[..|history| - 1], request)
      + (if last.request == request then [Transition(last.source, last.target)] else [])
  }

  // ---------------------------------------------------------------- the fold

  datatype Fault =
    | EventsMissing
    | BookVersionGap
    | HashChainMismatch
    | PayloadInvalid
    | CheckpointLiabilityMissing
    | NavMismatch
    | CheckpointLiabilityMismatch
    | CheckpointSupplyMismatch
    | ShareUnitsInvalid
    | ClosingCheckpointMissing
    | ClosingStateMismatch
    | CheckpointMissing
    | ValuingEventAfterClose
    | PostCloseSupplyMismatch
    | ProjectionMismatch
    | ShareProjectionMismatch
    | DirectProjectionMismatch
    | LifecycleProjectionMismatch
    | HistoryMismatch

  datatype MarkedLiability = MarkedLiability(gross: int, deductions: int)

  datatype ReplayedCheckpoint = ReplayedCheckpoint(gross: int, deductions: int, nav: int, supply: int)

  datatype ReplayedClose = ReplayedClose(entity: nat, checkpoint: nat, version: nat, nav: int, supply: int, gross: int,
                                         deductions: int)

  datatype Replayed = Replayed(liability: Option<MarkedLiability>, checkpoints: map<nat, ReplayedCheckpoint>,
                               checkpointCount: nat, shareEvents: nat, minted: int, burned: int, supply: int,
                               closes: seq<ReplayedClose>)

  const Nothing: Replayed := Replayed(None, map[], 0, 0, 0, 0, 0, [])

  /** A figure that an older payload leaves out is written as a negative one; the last liability stands in for it. */
  function DeductionsOf(liability: Option<MarkedLiability>, deductions: int): Option<int> {
    if 0 <= deductions then Some(deductions)
    else if liability.Some? then Some(liability.value.deductions)
    else None
  }

  function GrossOf(liability: Option<MarkedLiability>, gross: int, implied: int): Option<int> {
    if 0 <= gross then Some(gross)
    else if liability.None? then None
    else if liability.value.gross == -1 then Some(implied)
    else Some(liability.value.gross)
  }

  /** One event of the log, as the replay values it. */
  function Fold(s: Replayed, e: Event): Result<Replayed, Fault> {
    match e.payload
    case LiabilityMarked(_, _, gross, deductions) =>
      if deductions < 0 then Err(PayloadInvalid)
      else Ok(s.(liability := Some(MarkedLiability(if 0 <= gross then gross else -1, deductions))))
    case NavCheckpointed(_, _, _, gross, deductions, nav, supply) =>
      if nav < 0 || supply < 0 then Err(PayloadInvalid)
      else
        var known := DeductionsOf(s.liability, deductions);
        if known.None? then Err(CheckpointLiabilityMissing)
        else
          var assets := GrossOf(s.liability, gross, nav + known.value);
          if assets.None? || assets.value - nav != known.value then Err(NavMismatch)
          else if s.liability.Some? && (s.liability.value.deductions != known.value
                  || (0 <= s.liability.value.gross && s.liability.value.gross != assets.value))
          then Err(CheckpointLiabilityMismatch)
          else if supply != s.supply then Err(CheckpointSupplyMismatch)
          else
            Ok(s.(checkpointCount := s.checkpointCount + 1,
                  checkpoints := s.checkpoints[e.entity :=
                                                 ReplayedCheckpoint(assets.value, known.value, nav, supply)]))
    case DepositActivated(_, _, _, _, _, shares) =>
      if shares <= 0 then Err(ShareUnitsInvalid)
      else Ok(s.(shareEvents := s.shareEvents + 1, minted := s.minted + shares, supply := s.supply + shares))
    case RedemptionPayableMatured(_, _, _, _, shares, _, _, _) =>
      if shares <= 0 || s.supply < shares then Err(ShareUnitsInvalid)
      else Ok(s.(shareEvents := s.shareEvents + 1, burned := s.burned + shares, supply := s.supply - shares))
    case CycleClosed(_, checkpoint, activated, matured, dust, nav, supply) =>
      if checkpoint !in s.checkpoints then Err(ClosingCheckpointMissing)
      else if activated < 0 || matured < 0 || dust < 0 || nav < 0 || supply < 0 then Err(PayloadInvalid)
      else
        var cp := s.checkpoints[checkpoint];
        if nav != cp.nav + activated - matured - dust || supply != s.supply then Err(ClosingStateMismatch)
        else if cp.gross - nav < 0 then Err(NavMismatch)
        else
          Ok(s.(closes := s.closes
                + [ReplayedClose(e.entity, checkpoint, e.version, nav, supply, cp.gross, cp.gross - nav)]))
    case _ => Ok(s)
  }

  /** The chain check of one event: gapless version, previous hash, and its own hash. */
  function ChainFault(vault: nat, before: seq<Event>, e: Event): Option<Fault> {
    if e.version != |before| + 1 || e.previous != LastDigest(before) then Some(BookVersionGap)
    else if e.digest != Digest(vault, e.version, e.previous, e.entity, e.payload) then Some(HashChainMismatch)
    else None
  }

  function FoldAll(vault: nat, events: seq<Event>): Result<Replayed, Fault> {
    if events == [] then Ok(Nothing)
    else
      var before, e := events[..|events| - 1], events[|events| - 1];
      match FoldAll(vault, before)
      case Err(fault) => Err(fault)
      case Ok(s) =>
        match ChainFault(vault, before, e)
        case Some(fault) => Err(fault)
        case None => Fold(s, e)
  }

  lemma {:induction false} FoldFaultPersists(vault: nat, events: seq<Event>, n: nat)
    requires n <= |events| && FoldAll(vault, events[..n]).Err?
    ensures FoldAll(vault, events) == FoldAll(vault, events[..n])
    decreases |events|
  {
    if n == |events| {
      assert events[..n] == events;
    } else {
      assert events[..|events| - 1][..n] == events[..n];
      FoldFaultPersists(vault, events[..|events| - 1], n);
    }
  }

  lemma {:induction false} FoldNext(vault: nat, events: seq<Event>, i: nat)
    requires i < |events| && FoldAll(vault, events[..i]).Ok?
    ensures FoldAll(vault, events[..i + 1])
         == match ChainFault(vault, events[..i], events[i])
            case Some(fault) => Err(fault)
            case None => Fold(FoldAll(vault, events[..i]).value, events[i])
  {
    assert events[..i + 1][..i] == events[..i];
  }

  /** The loop over the log: the chain is checked and the figures are kept as it goes. */
  method ReplayLog(vault: nat, events: seq<Event>) returns (r: Result<Replayed, Fault>)
    ensures r == FoldAll(vault, events)
  {
    hide FoldAll, Fold;
    var previous: Option<Digest>, s := None, Nothing;
    FoldNothing(vault);
    for i := 0 to |events|
      invariant FoldAll(vault, events[..i]) == Ok(s)
      invariant previous == LastDigest(events[..i])
    {
      var e := events[i];
      FoldNext(vault, events, i);
      var step: Result<Replayed, Fault>;
      if e.version != i + 1 || e.previous != previous {
        step := Err(BookVersionGap);
      } else if e.digest != Digest(vault, e.version, previous, e.entity, e.payload) {
        step := Err(HashChainMismatch);
      } else {
        step := ReplayEvent(s, e);
      }
      if step.Err? {
        FoldFaultPersists(vault, events, i + 1);
        return step;
      }
      s, previous := step.value, Some(e.digest);
      assert events[..i + 1][i] == e;
    }
    assert events[..|events|] == events;
    return Ok(s);
  }

  lemma {:induction false} FoldNothing(vault: nat)
    ensures FoldAll(vault, []) == Ok(Nothing)
  {
  }

  /** One event, branch by branch. */
  method ReplayEvent(s: Replayed, e: Event) returns (r: Result<Replayed, Fault>)
    ensures r == Fold(s, e)
  {
    var next := s;
    match e.payload {
      case LiabilityMarked(_, _, gross, deductions) =>
        if deductions < 0 {
          return Err(PayloadInvalid);
        }
        next := s.(liability := Some(MarkedLiability(if 0 <= gross then gross else -1, deductions)));
      case NavCheckpointed(_, _, _, gross, deductions, nav, supply) =>
        if nav < 0 || supply < 0 {
          return Err(PayloadInvalid);
        }
        var known := DeductionsOf(s.liability, deductions);
        if known.None? {
          return Err(CheckpointLiabilityMissing);
        }
        var assets := GrossOf(s.liability, gross, nav + known.value);
        if assets.None? || assets.value - nav != known.value {
          return Err(NavMismatch);
        }
        if s.liability.Some? {
          var l := s.liability.value;
          if l.deductions != known.value || (0 <= l.gross && l.gross != assets.value) {
            return Err(CheckpointLiabilityMismatch);
          }
        }
        if supply != s.supply {
          return Err(CheckpointSupplyMismatch);
        }
        next := s.(checkpointCount := s.checkpointCount + 1,
                   checkpoints := s.checkpoints[e.entity :=
                                                  ReplayedCheckpoint(assets.value, known.value, nav, supply)]);
      case DepositActivated(_, _, _, _, _, shares) =>
        if shares <= 0 {
          return Err(ShareUnitsInvalid);
        }
        next := s.(shareEvents := s.shareEvents + 1, minted := s.minted + shares, supply := s.supply + shares);
      case RedemptionPayableMatured(_, _, _, _, shares, _, _, _) =>
        if shares <= 0 || s.supply < shares {
          return Err(ShareUnitsInvalid);
        }
        next := s.(shareEvents := s.shareEvents + 1, burned := s.burned + shares, supply := s.supply - shares);
      case CycleClosed(_, checkpoint, activated, matured, dust, nav, supply) =>
        if checkpoint !in s.checkpoints {
          return Err(ClosingCheckpointMissing);
        }
        if activated < 0 || matured < 0 || dust < 0 || nav < 0 || supply < 0 {
          return Err(PayloadInvalid);
        }
        var cp := s.checkpoints[checkpoint];
        if nav != cp.nav + activated - matured - dust || supply != s.supply {
          return Err(ClosingStateMismatch);
        }
        if cp.gross - nav < 0 {
          return Err(NavMismatch);
        }
        next := s.(closes := s.closes
                   + [ReplayedClose(e.entity, checkpoint, e.version, nav, supply, cp.gross, cp.gross - nav)]);
      case _ =>
    }
    return Ok(next);
  }

  // ---------------------------------------------------------------- the same figures from the tables

  function Minted(shareEvents: seq<ShareEvent>): int {
    if shareEvents == [] then 0
    else
      var last := shareEvents[|shareEvents| - 1];
      Minted(shareEvents[..|shareEvents| - 1]) + (if last.cause.MintOf? then last.shares else 0)
  }

  function Burned(shareEvents: seq<ShareEvent>): int {
    if shareEvents == [] then 0
    else
      var last := shareEvents[|shareEvents| - 1];
      Burned(shareEvents[..|shareEvents| - 1]) + (if last.cause.BurnOf? then last.shares else 0)
  }

  function CheckpointRow(c: Checkpoint): ReplayedCheckpoint {
    ReplayedCheckpoint(c.gross, c.gross - c.nav, c.nav, c.supply)
  }

  function CloseRow(c: Closing, i: nat, checkpoints: seq<Checkpoint>): ReplayedClose {
    var gross := if c.checkpoint < |checkpoints| then checkpoints[c.checkpoint].gross else 0;
    ReplayedClose(i, c.checkpoint, c.event, c.nav, c.supply, gross, gross - c.nav)
  }

  function CloseRows(closings: seq<Closing>, checkpoints: seq<Checkpoint>): seq<ReplayedClose> {
    seq(|closings|, i requires 0 <= i < |closings| => CloseRow(closings[i], i, checkpoints))
  }

  function LastLiability(liabilities: seq<Liability>): Option<MarkedLiability> {
    if liabilities == [] then None
    else
      var l := liabilities[|liabilities| - 1];
      Some(MarkedLiability(l.grossAssets, l.deductions))
  }

  /** What the tables say the replay should find. */
  function Figures(liabilities: seq<Liability>, checkpoints: seq<Checkpoint>, shareEvents: seq<ShareEvent>,
                   closings: seq<Closing>): Replayed
  {
    Replayed(LastLiability(liabilities), CheckpointRows(checkpoints), |checkpoints|, |shareEvents|,
             Minted(shareEvents), Burned(shareEvents), Supply(shareEvents), CloseRows(closings, checkpoints))
  }

  function CheckpointRows(checkpoints: seq<Checkpoint>): map<nat, ReplayedCheckpoint> {
    map i: nat | i < |checkpoints| :: CheckpointRow(checkpoints[i])
  }

  function FromTables(b: Book): Replayed {
    Figures(b.liabilities, b.checkpoints, b.shareEvents, b.closings)
  }

  // ---------------------------------------------------------------- what every write keeps

  /** The log and the tables tell the same story, row by row and event by event. */
  ghost predicate Linked(b: Book) {
    && FoldAll(b.vault, b.events) == Ok(FromTables(b))
    && DirectMatched(b)
    && SharesMatched(b.events, b.shareEvents, b.lots, b.allocations, b.payables)
    && LifecycleMatched(b.events, |b.requests|, b.reserves, b.payables)
    && HistoryMatched(b.events, b.history, b.requests)
  }

  ghost predicate DirectMatched(b: Book) {
    forall k :: Direct(k) ==> OfKind(b.events, k) == RowsOf(b, k)
  }

  ghost predicate SharesMatched(events: seq<Event>, shareEvents: seq<ShareEvent>, lots: seq<Lot>,
                                allocations: seq<BurnAllocation>, payables: seq<Payable>)
  {
    && |OfKind(events, ShareKind)| == |shareEvents|
    && (forall i :: 0 <= i < |shareEvents| ==>
          ShareProjection(shareEvents[i], i, lots, allocations, payables) == Some(OfKind(events, ShareKind)[i]))
    && (forall k :: 0 <= k < |allocations| ==> allocations[k].burn < |shareEvents|)
  }

  ghost predicate LifecycleMatched(events: seq<Event>, requests: nat, reserves: seq<Reserve>, payables: seq<Payable>) {
    forall i :: 0 <= i < |events| ==> LifecycleAt(events[i], requests, reserves, payables)
  }

  ghost predicate HistoryMatched(events: seq<Event>, history: seq<Move>, requests: seq<Request>) {
    forall r: nat :: RequestHistory(events, history, requests, r)
  }

  ghost predicate RequestHistory(events: seq<Event>, history: seq<Move>, requests: seq<Request>, r: nat) {
    var statuses := StatusesOf(events, r);
    && TransitionsOf(history, r) == Transitions(statuses)
    && (r < |requests| <==> statuses != [])
    && (r < |requests| ==> statuses[|statuses| - 1] == requests[r].status)
  }
}
