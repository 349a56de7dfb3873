/**
 The accounting repository as it runs: tables that are inserted into and updated row by
 row, each operation one transaction that rolls back when it fails.
 */
module VaultLedger {
  import opened Common
  import opened VaultTables
  import opened VaultRows
  import opened VaultSteps
  import VaultLots
  import OwnerClaims
  import CostBasis
  import ShareMint
  import ShareRedemption
  import DepositSplit

  /** An operation ended as its specification says: with the same fault, or in the same book. */
  ghost predicate Ends(spec: Result<Book, Fault>, fault: Option<Fault>, now: Book) {
    match spec
    case Ok(b) => fault == None && now == b
    case Err(f) => fault == Some(f)
  }

  // ---------------------------------------------------------------- a fault in a loop is the loop's fault

  lemma {:induction false} MarkFaultPersists(b: Book, cycle: nat, open: seq<Ticket>, marks: seq<MarkWrite>, at: int,
                                             n: nat)
    requires n <= |open| && MarkTickets(b, cycle, open[..n], marks, at).Err?
    ensures MarkTickets(b, cycle, open, marks, at) == MarkTickets(b, cycle, open[..n], marks, at)
    decreases |open|
  {
    if n == |open| {
      assert open[..n] == open;
    } else {
      assert open[..|open| - 1][..n] == open[..n];
      MarkFaultPersists(b, cycle, open[..|open| - 1], marks, at, n);
    }
  }

  lemma {:induction false} PayFaultPersists(b: Book, cycle: nat, checkpoint: nat, cp: Checkpoint, rows: seq<nat>,
                                            now: int,
                                            n: nat)
    requires n <= |rows| && Numbers(rows, |b.requests|)
    requires FinalizeEach(b, cycle, checkpoint, cp, rows[..n], now).Err?
    ensures FinalizeEach(b, cycle, checkpoint, cp, rows, now) == FinalizeEach(b, cycle, checkpoint, cp, rows[..n], now)
    decreases |rows|
  {
    if n == |rows| {
      assert rows[..n] == rows;
    } else {
      assert rows[..|rows| - 1][..n] == rows[..n];
      PayFaultPersists(b, cycle, checkpoint, cp, rows[..|rows| - 1], now, n);
    }
  }

  lemma {:induction false} SplitFaultPersists(deposits: seq<Deposit>, rows: seq<nat>,
                                              owners: seq<OwnerClaims.Allocation>, n: nat)
    requires n <= |owners| && Numbers(rows, |deposits|) && SharesByDeposit(deposits, rows, owners[..n]).Err?
    ensures SharesByDeposit(deposits, rows, owners) == SharesByDeposit(deposits, rows, owners[..n])
    decreases |owners|
  {
    if n == |owners| {
      assert owners[..n] == owners;
    } else {
      assert owners[..|owners| - 1][..n] == owners[..n];
      SplitFaultPersists(deposits, rows, owners[..|owners| - 1], n);
    }
  }

  lemma {:induction false} MintFaultPersists(b: Book, rows: seq<nat>, shares: map<nat, nat>, checkpoint: nat, n: nat)
    requires n <= |rows| && Numbers(rows, |b.deposits|) && MintEach(b, rows[..n], shares, checkpoint).Err?
    ensures MintEach(b, rows, shares, checkpoint) == MintEach(b, rows[..n], shares, checkpoint)
    decreases |rows|
  {
    if n == |rows| {
      assert rows[..n] == rows;
    } else {
      assert rows[..|rows| - 1][..n] == rows[..n];
      MintFaultPersists(b, rows[..|rows| - 1], shares, checkpoint, n);
    }
  }

  lemma {:induction false} PlanFaultPersists(lots: seq<Lot>, allocations: seq<BurnAllocation>, user: nat, need: int,
                                             n: nat,
                                             m: nat)
    requires n <= m <= |lots| && VaultLots.PlanBurn(lots, allocations, user, need, n).Err?
    ensures VaultLots.PlanBurn(lots, allocations, user, need, m) == VaultLots.PlanBurn(lots, allocations, user, need, n)
  {
    if n < m {
      PlanFaultPersists(lots, allocations, user, need, n, m - 1);
    }
  }

  class Ledger {
    const vault: nat
    var clock: int
    var events: seq<Event>
    var inception: Option<Inception>
    var positions: set<nat>
    var deposits: seq<Deposit>
    var depositKeys: map<string, nat>
    var requests: seq<Request>
    var history: seq<Move>
    var waiting: seq<WaitingEvidence>
    var reserves: seq<Reserve>
    var fees: seq<FeeAccrual>
    var recognitions: seq<Recognition>
    var ticketMarks: seq<TicketMark>
    var cycles: seq<Cycle>
    var liabilities: seq<Liability>
    var checkpoints: seq<Checkpoint>
    var reserveMarks: seq<ReserveMark>
    var liquidity: seq<Liquidity>
    var shareEvents: seq<ShareEvent>
    var lots: seq<Lot>
    var allocations: seq<BurnAllocation>
    var payables: seq<Payable>
    var closings: seq<Closing>

    /** All the tables together. */
    function View(): Book
      reads this
    {
      Book(vault, clock, events, inception, positions, deposits, depositKeys, requests, history, waiting, reserves,
           fees, recognitions, ticketMarks, cycles, liabilities, checkpoints, reserveMarks, liquidity, shareEvents,
           lots, allocations, payables, closings)
    }

    constructor (id: nat)
      ensures View() == EmptyBook(id)
    {
      vault, clock, events, inception, positions := id, 0, [], None, {};
      deposits, depositKeys, requests, history, waiting, reserves := [], map[], [], [], [], [];
      fees, recognitions, ticketMarks, cycles, liabilities := [], [], [], [], [];
      checkpoints, reserveMarks, liquidity, shareEvents, lots := [], [], [], [], [];
      allocations, payables, closings := [], [], [];
    }

    method RestoreRequests(saved: Book)
      modifies this`positions, this`deposits, this`depositKeys, this`requests, this`history, this`waiting, this`reserves
      ensures positions == saved.positions && deposits == saved.deposits && depositKeys == saved.depositKeys
      ensures requests == saved.requests && history == saved.history && waiting == saved.waiting
      ensures reserves == saved.reserves
    {
      positions, deposits, depositKeys := saved.positions, saved.deposits, saved.depositKeys;
      requests, history, waiting, reserves := saved.requests, saved.history, saved.waiting, saved.reserves;
    }

    method RestoreCycles(saved: Book)
      modifies this`fees, this`recognitions, this`ticketMarks, this`cycles, this`liabilities, this`checkpoints,
               this`reserveMarks, this`liquidity
      ensures fees == saved.fees && recognitions == saved.recognitions && ticketMarks == saved.ticketMarks
      ensures cycles == saved.cycles && liabilities == saved.liabilities && checkpoints == saved.checkpoints
      ensures reserveMarks == saved.reserveMarks && liquidity == saved.liquidity
    {
      fees, recognitions, ticketMarks := saved.fees, saved.recognitions, saved.ticketMarks;
      cycles, liabilities, checkpoints := saved.cycles, saved.liabilities, saved.checkpoints;
      reserveMarks, liquidity := saved.reserveMarks, saved.liquidity;
    }

    method RestoreShares(saved: Book)
      modifies this`shareEvents, this`lots, this`allocations, this`payables, this`closings
      ensures shareEvents == saved.shareEvents && lots == saved.lots && allocations == saved.allocations
      ensures payables == saved.payables && closings == saved.closings
    {
      shareEvents, lots, allocations := saved.shareEvents, saved.lots, saved.allocations;
      payables, closings := saved.payables, saved.closings;
    }

    /** Rolling a transaction back: every table is as it was. */
    method Restore(saved: Book)
      requires saved.vault == vault
      modifies this
      ensures View() == saved
    {
      RestoreRequests(saved);
      RestoreCycles(saved);
      RestoreShares(saved);
      clock, events, inception := saved.clock, saved.events, saved.inception;
    }

    // -------------------------------------------------------------- events and rows

    /** Appends one event: the next book version, chained to the last hash and sealed with its own. */
    method Append(entity: nat, payload: Payload) returns (event: nat)
      modifies this`events
      ensures View() == Logged(old(View()), entity, payload) && event == |events| == |old(events)| + 1
    {
      var previous := if events == [] then None else Some(events[|events| - 1].digest);
      event := |events| + 1;
      var digest := Digest(vault, event, previous, entity, payload);
      events := events + [Event(event, entity, payload, previous, digest)];
    }

    method InsertCycle(row: Cycle)
      modifies this`events, this`cycles
      ensures View() == AddCycle(old(View()), row)
    {
      var event := Append(|cycles|, CyclePayload(row));
      cycles := cycles + [row.(event := event)];
    }

    method InsertDeposit(row: Deposit)
      modifies this`events, this`deposits
      ensures View() == AddDeposit(old(View()), row)
    {
      var event := Append(|deposits|, DepositPayload(row));
      deposits := deposits + [row.(event := event)];
    }

    method InsertWaiting(row: WaitingEvidence)
      modifies this`events, this`waiting
      ensures View() == AddWaiting(old(View()), row)
    {
      var event := Append(|waiting|, WaitingPayload(row));
      waiting := waiting + [row.(event := event)];
    }

    method InsertReserve(row: Reserve)
      modifies this`events, this`reserves
      ensures View() == AddReserve(old(View()), row)
    {
      var event := Append(|reserves|, ReservePayload(row));
      reserves := reserves + [row.(event := event)];
    }

    method InsertFee(row: FeeAccrual)
      modifies this`events, this`fees
      ensures View() == AddFee(old(View()), row)
    {
      var event := Append(|fees|, FeePayload(row));
      fees := fees + [row.(event := event)];
    }

    method InsertRecognition(row: Recognition)
      modifies this`events, this`recognitions
      ensures View() == AddRecognition(old(View()), row)
    {
      var event := Append(|recognitions|, RecognitionPayload(row));
      recognitions := recognitions + [row.(event := event)];
    }

    method InsertTicketMark(row: TicketMark)
      modifies this`events, this`ticketMarks
      ensures View() == AddTicketMark(old(View()), row)
    {
      var event := Append(|ticketMarks|, TicketMarkPayload(row));
      ticketMarks := ticketMarks + [row.(event := event)];
    }

    method InsertLiability(row: Liability)
      modifies this`events, this`liabilities
      ensures View() == AddLiability(old(View()), row)
    {
      var event := Append(|liabilities|, LiabilityPayload(row));
      liabilities := liabilities + [row.(event := event)];
    }

    method InsertCheckpoint(row: Checkpoint)
      modifies this`events, this`checkpoints
      ensures View() == AddCheckpoint(old(View()), row)
    {
      var event := Append(|checkpoints|, CheckpointPayload(row));
      checkpoints := checkpoints + [row.(event := event)];
    }

    method InsertReserveMark(row: ReserveMark)
      modifies this`events, this`reserveMarks
      ensures View() == AddReserveMark(old(View()), row)
    {
      var event := Append(|reserveMarks|, ReserveMarkPayload(row));
      reserveMarks := reserveMarks + [row.(event := event)];
    }

    method InsertLiquidity(row: Liquidity)
      modifies this`events, this`liquidity
      ensures View() == AddLiquidity(old(View()), row)
    {
      var event := Append(|liquidity|, LiquidityPayload(row));
      liquidity := liquidity + [row.(event := event)];
    }

    method InsertClosing(row: Closing)
      modifies this`events, this`closings
      ensures View() == AddClosing(old(View()), row)
    {
      var event := Append(|closings|, ClosingPayload(row));
      closings := closings + [row.(event := event)];
    }

    method InsertInception(row: Inception)
      modifies this`events, this`inception
      ensures View() == AddInception(old(View()), row)
    {
      var event := Append(vault, InceptionPayload(row));
      inception := Some(row.(event := event));
    }

    method InsertRequest(row: Request, now: int)
      modifies this`events, this`requests, this`history
      ensures View() == AddRequest(old(View()), row, now)
    {
      var event := Append(|requests|, RequestPayload(row));
      history := history + [Move(|requests|, None, row.status, now)];
      requests := requests + [row.(event := event)];
    }

    /** Updating a status, with what the database triggers add: the window and the history row. */
    method UpdateStatus(r: nat, status: Status, now: int)
      requires r < |requests|
      modifies this`requests, this`history
      ensures View() == SetStatus(old(View()), r, status, now)
    {
      history := history + [Move(r, Some(requests[r].status), status, now)];
      if status == Admitted {
        requests := requests[r := requests[r].(startsAt := now, endsAt := now + REDEMPTION_WINDOW_MS)];
      }
      requests := requests[r := requests[r].(status := status)];
    }

    // -------------------------------------------------------------- deposits, requests, admission

    method RecordPendingDeposit(tick: Positive, user: nat, amount: int, source: string, key: string)
      returns (fault: Option<Fault>)
      modifies this
      ensures Ends(RecordDeposit(old(View()), tick, user, amount, source, key), fault, View())
      ensures fault.Some? ==> View() == old(View())
    {
      if amount <= 0 {
        return Some(InvalidDepositAmount);
      }
      if |source| < 1 || 300 < |source| {
        return Some(InvalidDepositSource);
      }
      if |key| < 1 || 200 < |key| {
        return Some(InvalidDepositKey);
      }
      if key in depositKeys {
        var id := depositKeys[key];
        if id < |deposits| && deposits[id].user == user && deposits[id].amount == amount
           && deposits[id].source == source {
          return None;
        }
        return Some(IdempotencyConflict);
      }
      if inception.None? || source == FOUNDER_SOURCE {
        return Some(DepositMismatch);
      }
      if SourceUsed(deposits, source) {
        return Some(DepositSourceTaken);
      }
      var now, id := clock + tick, |deposits|;
      InsertDeposit(Deposit(user, amount, DayOf(now) + 1, source, Pending, 0));
      depositKeys := depositKeys[key := id];
      clock := now;
      return None;
    }

    method RequestLpVaultRedemption(tick: Positive, user: nat, shares: int, key: string) returns (fault: Option<Fault>)
      modifies this
      ensures Ends(RequestRedemption(old(View()), tick, user, shares, key), fault, View())
      ensures fault.Some? ==> View() == old(View())
    {
      if shares <= 0 {
        return Some(InvalidRedemptionShares);
      }
      if |key| < 1 || 200 < |key| {
        return Some(InvalidRedemptionKey);
      }
      var existing := FindRequest(requests, user, key);
      if existing.Some? {
        if existing.value < |requests| && requests[existing.value].shares == shares {
          return None;
        }
        return Some(RedemptionIdempotencyConflict);
      }
      if user !in positions {
        return Some(PositionMissing);
      }
      if Balance(shareEvents, user) - ReservedShares(reserves, requests, user) < shares {
        return Some(ExceedsUnreservedHolding);
      }
      if HasOpenRequest(requests, user) {
        return Some(OpenRequestExists);
      }
      InsertRequest(Request(user, shares, key, Queued, 0, 0, 0), clock + tick);
      clock := clock + tick;
      return None;
    }

    method Postpone(r: nat, reconciliation: nat, capacity: Capacity, now: int)
      requires r < |requests|
      modifies this
      ensures View() == Postponed(old(View()), r, reconciliation, capacity, now)
    {
      InsertWaiting(WaitingEvidence(r, reconciliation, capacity.required, capacity.available, 0));
      UpdateStatus(r, WaitingLiquidity, now);
    }

    method Admit(r: nat, reconciliation: nat, capacity: Capacity, now: int)
      requires r < |requests| && closings != []
      modifies this
      ensures View() == Admission(old(View()), r, reconciliation, capacity, now)
    {
      var last, reserve := closings[|closings| - 1], |reserves|;
      InsertReserve(Reserve(r, requests[r].shares, reconciliation, last.cycle, last.checkpoint, capacity.required,
                            capacity.available, 0));
      UpdateStatus(r, Admitted, now);
      var _ := Append(|events| + 1, RedemptionRedeeming(r, Some(reserve)));
      UpdateStatus(r, Redeeming, now);
    }

    method AdmitNextLpVaultRedemption(tick: Positive, reconciliation: nat, capacity: Option<Capacity>)
      returns (fault: Option<Fault>)
      modifies this
      ensures Ends(AdmitNext(old(View()), tick, reconciliation, capacity), fault, View())
      ensures fault.Some? ==> View() == old(View())
    {
      hide Postponed, Admission;
      var now, target := clock + tick, AdmissionTarget(View());
      if target.None? {
        return None;
      }
      if capacity.None? {
        return Some(AdmissionEvidenceUnavailable);
      }
      if capacity.value.available < capacity.value.required {
        if requests[target.value].status == Queued {
          Postpone(target.value, reconciliation, capacity.value, now);
        }
      } else if EvidenceUsed(reserves, reconciliation) {
        return Some(AdmissionEvidenceUsed);
      } else {
        Admit(target.value, reconciliation, capacity.value, now);
      }
      clock := now;
      return None;
    }

    // -------------------------------------------------------------- recognition and marks

    method RecognizeFeesAndSettlements(cycle: nat, tickets: seq<Ticket>, from: int, through: int)
      modifies this
      ensures View() == Recognize(old(View()), cycle, tickets, from, through)
    {
      hide AddFee, AddRecognition;
      var due := FeesDue(fees, tickets, from, through);
      for i := 0 to |due|
        invariant View() == AccrueFees(old(View()), due[..i])
      {
        assert due[..i + 1][..i] == due[..i];
        InsertFee(FeeAccrual(due[i].id, due[i].reserve, due[i].fee, due[i].created, 0));
      }
      assert due[..|due|] == due;
      ghost var accrued := View();
      AccrualKeepsRecognitions(old(View()), due);
      var settled := SettlementsDue(recognitions, tickets, from, through);
      for i := 0 to |settled|
        invariant View() == RecognizeSettlements(accrued, cycle, settled[..i])
      {
        assert settled[..i + 1][..i] == settled[..i];
        InsertRecognition(RecognitionOf(cycle, settled[i], settled[i].settlement.value));
      }
      assert settled[..|settled|] == settled;
    }

    method MarkOpenTickets(cycle: nat, open: seq<Ticket>, marks: seq<MarkWrite>, at: int) returns (fault: Option<Fault>)
      modifies this
      ensures Ends(MarkTickets(old(View()), cycle, open, marks, at), fault, View())
    {
      ghost var start := View();
      for i := 0 to |open|
        invariant MarkTickets(start, cycle, open[..i], marks, at) == Ok(View())
      {
        assert open[..i + 1][..i] == open[..i];
        var t := open[i];
        if !MarkAccepted(MarkFor(marks, t.id), t, at) {
          MarkFaultPersists(start, cycle, open, marks, at, i + 1);
          return Some(TicketMarkInvalid);
        }
        InsertTicketMark(TicketMark(cycle, t.id, t.stake, t.payout, t.payout, 0));
      }
      assert open[..|open|] == open;
      return None;
    }

    // -------------------------------------------------------------- checkpoint and liquidity

    method ValueOpenCycle(cycle: nat, input: CloseInput, open: seq<Ticket>) returns (fault: Option<Fault>)
      modifies this
      ensures Ends(ValueCycle(old(View()), cycle, input, open), fault, View())
    {
      hide AddLiability, AddCheckpoint, LiabilityNow;
      var l, supply := LiabilityNow(View(), cycle, input, open), Supply(shareEvents);
      var assets, row := l.grossAssets, |liabilities|;
      if assets < l.deductions {
        return Some(NavNegative);
      }
      if supply == 0 && assets != l.deductions {
        return Some(PositiveNavWithoutShares);
      }
      if !LiabilityAccepted(View(), l, input.snapshot.created) {
        return Some(LiabilityMarkMismatch);
      }
      var finalized := FinalizedPnl(recognitions);
      InsertLiability(l);
      InsertCheckpoint(Checkpoint(cycle, row, input.snapshot.id, assets, assets - l.deductions, supply,
                                  OpenStake(open) - l.marked, finalized, 0));
      return None;
    }

    method MarkActiveRedemptionReserves(cycle: nat, checkpoint: nat, cp: Checkpoint, at: int)
      returns (fault: Option<Fault>)
      modifies this
      ensures Ends(MarkActiveReserves(old(View()), cycle, checkpoint, cp, at), fault, View())
    {
      var rows := ReservedRequests(history, reserves, |requests|, at);
      if rows != [] && cp.supply <= 0 {
        return Some(RedemptionSupplyMissing);
      }
      for i := 0 to |rows|
        invariant 0 < cp.supply ==> View() == MarkReserves(old(View()), cycle, checkpoint, cp, rows[..i])
        invariant i == 0 ==> View() == old(View())
      {
        assert rows[..i + 1][..i] == rows[..i];
        var held := ReserveOf(reserves, rows[i]);
        if MarkOf(reserveMarks, cycle, rows[i]).None? && held.Some? {
          var shares := reserves[held.value].shares;
          InsertReserveMark(ReserveMark(cycle, checkpoint, rows[i], shares, shares * cp.nav / cp.supply, 0));
        }
      }
      assert rows[..|rows|] == rows;
      return None;
    }

    method MarkFreeLiquidity(cycle: nat, checkpoint: nat, cp: Checkpoint, l: Liability) returns (fault: Option<Fault>)
      modifies this
      ensures Ends(MarkLiquidity(old(View()), cycle, checkpoint, cp, l), fault, View())
    {
      var reserve := MarkedReserve(reserveMarks, cycle);
      var collateral := l.deductions - l.marked + l.gross + reserve;
      if cp.gross < collateral {
        return Some(CollateralShortfall);
      }
      InsertLiquidity(Liquidity(cycle, checkpoint, l.deductions, reserve, collateral, cp.gross - collateral, 0));
      return None;
    }

    // -------------------------------------------------------------- finalizing redemptions

    /** The lots to burn, oldest first: the loop over one position's lots. */
    method PlanLots(user: nat, need: int) returns (r: Result<VaultLots.Plan, OwnerClaims.Fault>)
      ensures r == VaultLots.PlanBurn(lots, allocations, user, need, |lots|)
    {
      var parts: seq<LotBurn>, basis, remaining := [], 0, need;
      for i := 0 to |lots|
        invariant VaultLots.PlanBurn(lots, allocations, user, need, i) == Ok(VaultLots.Plan(parts, basis, remaining))
      {
        if lots[i].user == user && remaining != 0 {
          var burned := LotBurned(allocations, i);
          var available := lots[i].shares - burned;
          var used := if remaining < available then remaining else available;
          if used != 0 {
            var lot := CostBasis.CostBasisLot(lots[i].shares, lots[i].basis, burned);
            var step := CostBasis.AllocateCostBasis(lot, used);
            if step.Err? {
              PlanFaultPersists(lots, allocations, user, need, i + 1, |lots|);
              return Err(step.error);
            }
            parts := parts + [LotBurn(i, used, step.value.allocatedBasis, burned, step.value.nextLot.burned,
                                      LotBasis(allocations, i), step.value.cumulativeBasis)];
            basis := basis + step.value.allocatedBasis;
            remaining := remaining - used;
          }
        }
      }
      return Ok(VaultLots.Plan(parts, basis, remaining));
    }

    method InsertBurn(r: nat, mark: nat, amount: int, plan: VaultLots.Plan, checkpoint: nat)
      requires r < |requests|
      modifies this
      ensures View() == AddBurn(old(View()), r, mark, amount, plan, checkpoint)
    {
      var request, burn, payable := requests[r], |shareEvents|, |payables|;
      var event := Append(burn, RedemptionPayableMatured(r, request.user, checkpoint, payable, request.shares, amount,
                                                         plan.basis, plan.parts));
      shareEvents := shareEvents
        + [ShareEvent(BurnOf(r), request.user, request.shares, plan.basis, checkpoint, event)];
      InsertAllocations(burn, plan.parts);
      payables := payables + [Payable(r, mark, request.shares, amount, plan.basis, event)];
    }

    method InsertAllocations(burn: nat, parts: seq<LotBurn>)
      modifies this`allocations
      ensures allocations == VaultLots.Recorded(old(allocations), burn, parts)
    {
      for i := 0 to |parts|
        invariant allocations == VaultLots.Recorded(old(allocations), burn, parts[..i])
      {
        assert parts[..i + 1][..i] == parts[..i];
        allocations := allocations + [BurnAllocation(burn, parts[i])];
      }
      assert parts[..|parts|] == parts;
    }

    method InsertFinalization(r: nat, mark: nat, amount: int, plan: VaultLots.Plan, checkpoint: nat, now: int)
      requires r < |requests|
      modifies this
      ensures View() == Finalization(old(View()), r, mark, amount, plan, checkpoint, now)
    {
      hide AddBurn;
      var payable := |payables|;
      InsertBurn(r, mark, amount, plan, checkpoint);
      BurnKeepsRequests(old(View()), r, mark, amount, plan, checkpoint);
      UpdateStatus(r, Finalized, now);
      var _ := Append(r, RedemptionFinalized(r, payable, amount));
      UpdateStatus(r, Claimable, now);
      var _ := Append(r, RedemptionClaimable(r, payable));
    }

    method FinalizeRedemption(cycle: nat, checkpoint: nat, cp: Checkpoint, r: nat,
                              now: int) returns (fault: Option<Fault>)
      requires r < |requests|
      modifies this
      ensures Ends(FinalizeOne(old(View()), cycle, checkpoint, cp, r, now), fault, View())
    {
      hide Finalization, ShareRedemption.FinalizeRedemptions;
      var request, mark := requests[r], MarkOf(reserveMarks, cycle, r);
      if PayableOf(payables, r).Some? || mark.None? {
        return None;
      }
      var balance := Balance(shareEvents, request.user);
      var redeemed := ShareRedemption.FinalizeRedemptionsAtEndPeriodPrice(
        cp.nav, cp.supply, [ShareRedemption.RedemptionRequest(request.user, request.shares, balance)]);
      if redeemed.Err? {
        return Some(Shares(redeemed.error));
      }
      if redeemed.value.allocations == []
         || redeemed.value.allocations[0].amount != reserveMarks[mark.value].amount {
        return Some(BindingMarkMismatch);
      }
      var plan := PlanLots(request.user, request.shares);
      if plan.Err? {
        return Some(Shares(plan.error));
      }
      if plan.value.remaining != 0 {
        return Some(CostBasisMissing);
      }
      InsertFinalization(r, mark.value, redeemed.value.allocations[0].amount, plan.value, checkpoint, now);
      return None;
    }

    method StartRedeemingAdmitted(rows: seq<nat>, now: int)
      requires Numbers(rows, |requests|)
      modifies this
      ensures View() == StartRedeeming(old(View()), rows, now)
    {
      for i := 0 to |rows|
        invariant |requests| == |old(requests)|
        invariant View() == StartRedeeming(old(View()), rows[..i], now)
      {
        assert rows[..i + 1][..i] == rows[..i];
        var _ := Append(|events| + 1, RedemptionRedeeming(rows[i], None));
        UpdateStatus(rows[i], Redeeming, now);
      }
      assert rows[..|rows|] == rows;
    }

    method FinalizeEligibleRedemptions(cycle: nat, checkpoint: nat, cp: Checkpoint, at: int, now: int)
      returns (fault: Option<Fault>)
      modifies this
      ensures Ends(FinalizeMatured(old(View()), cycle, checkpoint, cp, at, now), fault, View())
    {
      hide StartRedeeming, FinalizeOne, AdmittedBy, MaturedRequests;
      StartRedeemingAdmitted(AdmittedBy(requests, at), now);
      ghost var started := View();
      var rows := MaturedRequests(requests, reserveMarks, cycle, checkpoint, at);
      for i := 0 to |rows|
        invariant |requests| == |started.requests|
        invariant FinalizeEach(started, cycle, checkpoint, cp, rows[..i], now) == Ok(View())
      {
        assert rows[..i + 1][..i] == rows[..i];
        fault := FinalizeRedemption(cycle, checkpoint, cp, rows[i], now);
        if fault.Some? {
          PayFaultPersists(started, cycle, checkpoint, cp, rows, now, i + 1);
          return;
        }
        assert FinalizeEach(started, cycle, checkpoint, cp, rows[..i + 1], now) == Ok(View());
      }
      assert rows[..|rows|] == rows;
      return None;
    }

    // -------------------------------------------------------------- activating deposits

    method InsertMint(deposit: nat, shares: int, checkpoint: nat)
      requires deposit < |deposits|
      modifies this
      ensures View() == AddMint(old(View()), deposit, shares, checkpoint)
    {
      var d, mint := deposits[deposit], |shareEvents|;
      var event := Append(mint, DepositActivated(deposit, d.user, checkpoint, |lots|, d.amount, shares));
      positions := positions + {d.user};
      shareEvents := shareEvents + [ShareEvent(MintOf(deposit), d.user, shares, d.amount, checkpoint, event)];
      lots := lots + [Lot(d.user, mint, shares, d.amount)];
      deposits := deposits[deposit := d.(status := Active(checkpoint))];
    }

    /** Each owner's mint, divided over that owner's deposits. */
    method SplitMint(rows: seq<nat>, owners: seq<OwnerClaims.Allocation>) returns (r: Result<map<nat, nat>, Fault>)
      requires Numbers(rows, |deposits|)
      ensures r == SharesByDeposit(deposits, rows, owners)
    {
      hide DepositSplit.Split, DepositSplit.Splittable, PartsOf;
      var shares: map<nat, nat> := map[];
      for i := 0 to |owners|
        invariant SharesByDeposit(deposits, rows, owners[..i]) == Ok(shares)
      {
        assert owners[..i + 1][..i] == owners[..i];
        var split := DepositSplit.AllocateOwnerMintAcrossDeposits(owners[i].amount,
                                                                  PartsOf(deposits, rows, owners[i].owner));
        if split.Err? {
          SplitFaultPersists(deposits, rows, owners, i + 1);
          return Err(SplitFailed(split.error));
        }
        shares := shares + split.value;
      }
      assert owners[..|owners|] == owners;
      return Ok(shares);
    }

    method MintEligible(rows: seq<nat>, shares: map<nat, nat>, checkpoint: nat) returns (fault: Option<Fault>)
      requires Numbers(rows, |deposits|)
      modifies this
      ensures Ends(MintEach(old(View()), rows, shares, checkpoint), fault, View())
    {
      hide AddMint;
      ghost var start := View();
      for i := 0 to |rows|
        invariant MintEach(start, rows[..i], shares, checkpoint) == Ok(View())
        invariant |deposits| == |start.deposits|
      {
        assert rows[..i + 1][..i] == rows[..i];
        if rows[i] !in shares || shares[rows[i]] == 0 {
          MintFaultPersists(start, rows, shares, checkpoint, i + 1);
          return Some(DepositMintsZeroShares);
        }
        InsertMint(rows[i], shares[rows[i]], checkpoint);
        assert MintEach(start, rows[..i + 1], shares, checkpoint) == Ok(View());
      }
      assert rows[..|rows|] == rows;
      return None;
    }

    method ActivateEligibleDeposits(cutoff: int, checkpoint: nat, cp: Checkpoint) returns (fault: Option<Fault>)
      modifies this
      ensures Ends(ActivateDeposits(old(View()), cutoff, checkpoint, cp), fault, View())
    {
      hide ShareMint.MintShares, SharesByDeposit, MintEach;
      var rows := EligibleDeposits(deposits, cutoff);
      if rows == [] {
        return None;
      }
      var mint := ShareMint.MintSharesAtCommonPreDepositPrice(cp.nav, cp.supply, DepositEntries(deposits, rows));
      if mint.Err? {
        return Some(Shares(mint.error));
      }
      var shares := SplitMint(rows, mint.value.allocations);
      if shares.Err? {
        return Some(shares.error);
      }
      fault := MintEligible(rows, shares.value, checkpoint);
    }

    // -------------------------------------------------------------- the close

    method CloseTheBooks(cycle: nat, checkpoint: nat, cp: Checkpoint, now: int) returns (fault: Option<Fault>)
      modifies this
      ensures Ends(CloseBooks(old(View()), cycle, checkpoint, cp, now), fault, View())
    {
      hide ClosingNow;
      var closing := ClosingNow(View(), cycle, checkpoint, cp, now);
      if closing.nav < 0 || (closing.supply == 0 && 0 < closing.nav) {
        return Some(InvalidClosingState);
      }
      InsertClosing(closing);
      cycles := CycleClosedIn(cycles, cycle);
      return None;
    }

    method ReachCheckpoint(cycle: nat, from: int, input: CloseInput, marks: seq<MarkWrite>)
      returns (fault: Option<Fault>)
      modifies this
      ensures Ends(CheckpointCycle(old(View()), cycle, from, input, marks), fault, View())
    {
      hide Recognize, MarkTickets, ValueCycle, OpenTickets, MarksCover;
      var at := input.snapshot.created;
      var open := OpenTickets(input.tickets, at);
      if !MarksCover(open, marks) {
        return Some(TicketMarkCoverage);
      }
      RecognizeFeesAndSettlements(cycle, input.tickets, from, at);
      fault := MarkOpenTickets(cycle, open, marks, at);
      if fault == None {
        fault := ValueOpenCycle(cycle, input, open);
      }
    }

    method SettleFromCheckpoint(cycle: nat, checkpoint: nat, cp: Checkpoint, l: Liability, at: int, now: int)
      returns (fault: Option<Fault>)
      modifies this
      ensures Ends(SettleCycle(old(View()), cycle, checkpoint, cp, l, at, now), fault, View())
    {
      hide MarkActiveReserves, MarkLiquidity, FinalizeMatured;
      fault := MarkActiveRedemptionReserves(cycle, checkpoint, cp, at);
      if fault == None {
        fault := MarkFreeLiquidity(cycle, checkpoint, cp, l);
      }
      if fault == None {
        fault := FinalizeEligibleRedemptions(cycle, checkpoint, cp, at, now);
      }
    }

    method CloseOpenAccountingCycle(cycle: nat, cutoff: int, from: int, input: CloseInput, marks: seq<MarkWrite>,
                                    now: int)
      returns (fault: Option<Fault>)
      modifies this
      ensures Ends(CloseOpenCycle(old(View()), cycle, cutoff, from, input, marks, now), fault, View())
    {
      hide SourceAccepted, RecoveryAccepted, CheckpointCycle, SettleCycle, ActivateDeposits, CloseBooks;
      if !SourceAccepted(input, cutoff) {
        return Some(ReconciliationUntrusted);
      }
      if input.financialVersion != input.snapshot.bookVersion {
        return Some(BookVersionStale);
      }
      if !RecoveryAccepted(input, cutoff) {
        return Some(RecoveryUnsafe);
      }
      fault := ReachCheckpoint(cycle, from, input, marks);
      if fault.Some? {
        return;
      }
      var checkpoint := |checkpoints| - 1;
      var cp, l := checkpoints[checkpoint], liabilities[|liabilities| - 1];
      fault := SettleFromCheckpoint(cycle, checkpoint, cp, l, input.snapshot.created, now);
      if fault == None {
        fault := ActivateEligibleDeposits(cutoff, checkpoint, cp);
      }
      if fault == None {
        fault := CloseTheBooks(cycle, checkpoint, cp, now);
      }
    }

    method CloseAccountingCycle(cycle: nat, cutoff: int, from: int, input: CloseInput, marks: seq<MarkWrite>, now: int)
      returns (fault: Option<Fault>)
      modifies this
      ensures Ends(CloseCycle(old(View()), cycle, cutoff, from, input, marks, now), fault, View())
    {
      hide CloseOpenCycle, LatestClosed;
      if |cycles| <= cycle {
        return Some(CycleMissing);
      }
      if cycles[cycle].status == Closed {
        return if LatestClosed(cycles, cycle) then None else Some(ClosedCycleNotLatest);
      }
      if cycles[cycle].status != Open {
        return Some(CyclePartialState);
      }
      fault := CloseOpenAccountingCycle(cycle, cutoff, from, input, marks, now);
      if fault == None && now < input.snapshot.observed {
        fault := Some(SourceTimeInvalid);
      }
    }

    method Incept(snapshot: Snapshot) returns (fault: Option<Fault>)
      modifies this
      ensures Ends(Incepted(old(View()), snapshot), fault, View())
    {
      hide AddInception, AddDeposit;
      if inception.Some? {
        return None;
      }
      var seed := Seed(snapshot);
      if seed < 0 {
        return Some(InceptionSeedNegative);
      }
      if SOURCE_MAX_AGE_MS < snapshot.created - snapshot.observed {
        return Some(InceptionMismatch);
      }
      InsertInception(Inception(snapshot.id, seed, snapshot.created, 0));
      if 0 < seed {
        InsertDeposit(Deposit(FOUNDER_USER, seed, DayOf(snapshot.created), FOUNDER_SOURCE, Pending, 0));
      }
      return None;
    }

    method OpenAndClose(now: int, cutoff: int, input: CloseInput) returns (fault: Option<Fault>)
      modifies this
      ensures Ends(CloseFrom(old(View()), now, cutoff, input), fault, View())
    {
      hide CloseCycle, Incepted, AddCycle;
      fault := Incept(input.snapshot);
      if fault.Some? {
        return;
      }
      var recovery := if OnTime(input.snapshot, cutoff) then None else UsableRecovery(input, cutoff);
      var from := if inception.Some? then inception.value.at else input.snapshot.created;
      var cycle, at := |cycles|, input.snapshot.created;
      InsertCycle(Cycle(cutoff, Open, 0));
      fault := CloseAccountingCycle(cycle, cutoff, from, input.(recovery := recovery),
                                    GrossMarks(OpenTickets(input.tickets, at), at), now);
      if fault == None {
        clock := now;
      }
    }

    /** The close that is due, as one transaction: all of it, or nothing. */
    method CloseDueForReconciliation(tick: Positive, input: CloseInput) returns (fault: Option<Fault>)
      modifies this
      ensures Ends(CloseDue(old(View()), tick, input), fault, View())
      ensures fault.Some? ==> View() == old(View())
    {
      hide CloseFrom, Due;
      var now, saved := clock + tick, View();
      var cutoff := DueCutoff(saved, now);
      if !Due(saved, input, cutoff, now) {
        return Some(NotDue);
      }
      fault := OpenAndClose(now, cutoff, input);
      if fault.Some? {
        Restore(saved);
      }
    }
  }

  lemma {:induction false} BurnKeepsRequests(b: Book, r: nat, mark: nat, amount: int, plan: VaultLots.Plan,
                                             checkpoint: nat)
    requires r < |b.requests|
    ensures AddBurn(b, r, mark, amount, plan, checkpoint).requests == b.requests
  {
  }

  lemma {:induction false} AccrualKeepsRecognitions(b: Book, due: seq<Ticket>)
    ensures AccrueFees(b, due).recognitions == b.recognitions
  {
    if due != [] {
      AccrualKeepsRecognitions(b, due[..|due| - 1]);
    }
  }
}
