/** Every write keeps the log and the tables telling the same story. */
module VaultLinks {
  import opened Common
  import opened VaultTables
  import opened VaultLots
  import opened VaultRows
  import opened VaultReplay

  // ---------------------------------------------------------------- one more event

  lemma {:induction false} OneMoreFolded(vault: nat, events: seq<Event>, entity: nat, payload: Payload)
    requires FoldAll(vault, events).Ok?
    ensures var e := Seal(vault, events, entity, payload);
            FoldAll(vault, events + [e]) == Fold(FoldAll(vault, events).value, e)
  {
    Snoc(events, Seal(vault, events, entity, payload));
  }

  lemma {:induction false} OneMoreOfKind(events: seq<Event>, e: Event, k: Kind)
    ensures OfKind(events + [e], k)
         == OfKind(events, k) + (if KindOf(e.payload) == k then [Projected(e)] else [])
  {
    Snoc(events, e);
  }

  lemma {:induction false} OneMoreStatus(events: seq<Event>, e: Event, request: nat)
    ensures StatusesOf(events + [e], request)
         == StatusesOf(events, request)
            + (if StatusEvent(e).Some? && StatusEvent(e).value.request == request
               then [StatusEvent(e).value.status] else [])
  {
    Snoc(events, e);
  }

  lemma {:induction false} OneMoreTransitionOf(history: seq<Move>, move: Move, request: nat)
    ensures TransitionsOf(history + [move], request)
         == TransitionsOf(history, request)
            + (if move.request == request then [Transition(move.source, move.target)] else [])
  {
    Snoc(history, move);
  }

  lemma {:induction false} OneMoreRow<T>(rows: seq<T>, r: T, projection: (T, nat) -> Projection)
    ensures Rows(rows + [r], projection) == Rows(rows, projection) + [projection(r, |rows|)]
  {
  }

  lemma {:induction false} RowAt<T>(rows: seq<T>, i: nat, projection: (T, nat) -> Projection)
    requires i < |rows|
    ensures |Rows(rows, projection)| == |rows| && Rows(rows, projection)[i] == projection(rows[i], i)
  {
  }

  lemma {:induction false} SameRow<T>(rows: seq<T>, i: nat, r: T, projection: (T, nat) -> Projection)
    requires i < |rows| && projection(r, i) == projection(rows[i], i)
    ensures Rows(rows[i := r], projection) == Rows(rows, projection)
  {
  }

  // ---------------------------------------------------------------- part by part

  /** The tables gained exactly the row that the new event claims. */
  ghost predicate RowsFollow(b: Book, after: Book, e: Event) {
    && after.events == b.events + [e]
    && (forall k :: Direct(k) ==>
          RowsOf(after, k) == RowsOf(b, k) + (if KindOf(e.payload) == k then [Projected(e)] else []))
  }

  lemma {:induction false} DirectKept(b: Book, after: Book, e: Event)
    requires DirectMatched(b) && RowsFollow(b, after, e)
    ensures DirectMatched(after)
  {
    forall k | Direct(k)
      ensures OfKind(after.events, k) == RowsOf(after, k)
    {
      OneMoreOfKind(b.events, e, k);
    }
  }

  lemma {:induction false} SharesKept(b: Book, e: Event)
    requires SharesMatched(b.events, b.shareEvents, b.lots, b.allocations, b.payables)
    requires KindOf(e.payload) != ShareKind
    ensures SharesMatched(b.events + [e], b.shareEvents, b.lots, b.allocations, b.payables)
  {
    OneMoreOfKind(b.events, e, ShareKind);
  }

  lemma {:induction false} LifecycleKept(events: seq<Event>, e: Event, requests: nat, reserves: seq<Reserve>,
                                         payables: seq<Payable>)
    requires LifecycleMatched(events, requests, reserves, payables)
    requires LifecycleAt(e, requests, reserves, payables)
    ensures LifecycleMatched(events + [e], requests, reserves, payables)
  {
  }

  lemma {:induction false} HistoryKept(events: seq<Event>, e: Event, history: seq<Move>, requests: seq<Request>)
    requires HistoryMatched(events, history, requests) && StatusEvent(e).None?
    ensures HistoryMatched(events + [e], history, requests)
  {
    forall r: nat
      ensures RequestHistory(events + [e], history, requests, r)
    {
      assert RequestHistory(events, history, requests, r);
      OneMoreStatus(events, e, r);
    }
  }

  lemma {:induction false} OneMoreTransition(statuses: seq<Status>, status: Status)
    ensures Transitions(statuses + [status])
         == Transitions(statuses)
            + [Transition(if statuses == [] then None else Some(statuses[|statuses| - 1]), status)]
  {
  }

  /** A status event and the history row that the status change brings. */
  lemma {:induction false} ChangeKept(events: seq<Event>, e: Event, history: seq<Move>, requests: seq<Request>,
                                      after: seq<Request>,
                   r: nat, status: Status, now: int)
    requires HistoryMatched(events, history, requests) && StatusEvent(e) == Some(StatusChange(r, status))
    requires r < |requests| == |after| && after[r].status == status
    requires forall i :: 0 <= i < |requests| && i != r ==> after[i] == requests[i]
    ensures HistoryMatched(events + [e], history + [Move(r, Some(requests[r].status), status, now)], after)
  {
    var move := Move(r, Some(requests[r].status), status, now);
    forall i: nat
      ensures RequestHistory(events + [e], history + [move], after, i)
    {
      assert RequestHistory(events, history, requests, i);
      OneMoreStatus(events, e, i);
      OneMoreTransitionOf(history, move, i);
      OneMoreTransition(StatusesOf(events, i), status);
    }
  }

  lemma {:induction false} RequestKept(events: seq<Event>, e: Event, history: seq<Move>, requests: seq<Request>,
                                       request: Request, now: int)
    requires HistoryMatched(events, history, requests)
    requires StatusEvent(e) == Some(StatusChange(|requests|, request.status))
    ensures HistoryMatched(events + [e], history + [Move(|requests|, None, request.status, now)], requests + [request])
  {
    var move := Move(|requests|, None, request.status, now);
    forall i: nat
      ensures RequestHistory(events + [e], history + [move], requests + [request], i)
    {
      assert RequestHistory(events, history, requests, i);
      OneMoreStatus(events, e, i);
      OneMoreTransitionOf(history, move, i);
      OneMoreTransition(StatusesOf(events, i), request.status);
    }
  }

  // ---------------------------------------------------------------- events that value nothing

  predicate Quiet(p: Payload) {
    p.AccountingIncepted? || p.CycleOpened? || p.DepositPending? || p.ProtocolFeeAccrued? || p.SettlementRecognized?
    || p.TicketLiabilityMarked? || p.RedemptionReserveMarked? || p.LiquidityMarked?
  }

  ghost predicate ValuesAlike(b: Book, after: Book) {
    && after.vault == b.vault && after.liabilities == b.liabilities && after.checkpoints == b.checkpoints
    && after.shareEvents == b.shareEvents && after.closings == b.closings
  }

  ghost predicate SharesAlike(b: Book, after: Book) {
    after.lots == b.lots && after.allocations == b.allocations && after.payables == b.payables
  }

  lemma {:induction false} QuietKept(b: Book, after: Book, entity: nat, payload: Payload)
    requires Linked(b) && Quiet(payload) && ValuesAlike(b, after) && SharesAlike(b, after)
    requires after.requests == b.requests && after.reserves == b.reserves && after.history == b.history
    requires RowsFollow(b, after, Seal(b.vault, b.events, entity, payload))
    ensures Linked(after)
  {
    hide FoldAll, OfKind, DirectMatched, SharesMatched, LifecycleMatched, HistoryMatched;
    var e := Seal(b.vault, b.events, entity, payload);
    OneMoreFolded(b.vault, b.events, entity, payload);
    DirectKept(b, after, e);
    SharesKept(b, e);
    LifecycleKept(b.events, e, |b.requests|, b.reserves, b.payables);
    HistoryKept(b.events, e, b.history, b.requests);
  }

  lemma {:induction false} InceptionLinked(b: Book, r: Inception)
    requires Linked(b) && b.inception.None?
    ensures Linked(AddInception(b, r))
  {
    hide Linked, Rows;
    QuietKept(b, AddInception(b, r), b.vault, InceptionPayload(r));
  }

  lemma {:induction false} CycleLinked(b: Book, r: Cycle)
    requires Linked(b)
    ensures Linked(AddCycle(b, r))
  {
    hide Linked, Rows;
    OneMoreRow(b.cycles, r.(event := Next(b)), OfCycle);
    QuietKept(b, AddCycle(b, r), |b.cycles|, CyclePayload(r));
  }

  lemma {:induction false} DepositLinked(b: Book, r: Deposit)
    requires Linked(b)
    ensures Linked(AddDeposit(b, r))
  {
    hide Linked, Rows;
    OneMoreRow(b.deposits, r.(event := Next(b)), OfDeposit);
    QuietKept(b, AddDeposit(b, r), |b.deposits|, DepositPayload(r));
  }

  lemma {:induction false} FeeLinked(b: Book, r: FeeAccrual)
    requires Linked(b)
    ensures Linked(AddFee(b, r))
  {
    hide Linked, Rows;
    OneMoreRow(b.fees, r.(event := Next(b)), OfFee);
    QuietKept(b, AddFee(b, r), |b.fees|, FeePayload(r));
  }

  lemma {:induction false} RecognitionLinked(b: Book, r: Recognition)
    requires Linked(b)
    ensures Linked(AddRecognition(b, r))
  {
    hide Linked, Rows;
    OneMoreRow(b.recognitions, r.(event := Next(b)), OfRecognition);
    QuietKept(b, AddRecognition(b, r), |b.recognitions|, RecognitionPayload(r));
  }

  lemma {:induction false} TicketMarkLinked(b: Book, r: TicketMark)
    requires Linked(b)
    ensures Linked(AddTicketMark(b, r))
  {
    hide Linked, Rows;
    OneMoreRow(b.ticketMarks, r.(event := Next(b)), OfTicketMark);
    QuietKept(b, AddTicketMark(b, r), |b.ticketMarks|, TicketMarkPayload(r));
  }

  lemma {:induction false} ReserveMarkLinked(b: Book, r: ReserveMark)
    requires Linked(b)
    ensures Linked(AddReserveMark(b, r))
  {
    hide Linked, Rows;
    OneMoreRow(b.reserveMarks, r.(event := Next(b)), OfReserveMark);
    QuietKept(b, AddReserveMark(b, r), |b.reserveMarks|, ReserveMarkPayload(r));
  }

  lemma {:induction false} LiquidityLinked(b: Book, r: Liquidity)
    requires Linked(b)
    ensures Linked(AddLiquidity(b, r))
  {
    hide Linked, Rows;
    OneMoreRow(b.liquidity, r.(event := Next(b)), OfLiquidity);
    QuietKept(b, AddLiquidity(b, r), |b.liquidity|, LiquidityPayload(r));
  }

  // ---------------------------------------------------------------- events that value the vault

  /** Valuing events that change neither shares nor redemptions. */
  lemma {:induction false} ValuingKept(b: Book, after: Book, entity: nat, payload: Payload)
    requires Linked(b) && (payload.LiabilityMarked? || payload.NavCheckpointed? || payload.CycleClosed?)
    requires after.vault == b.vault && after.shareEvents == b.shareEvents && SharesAlike(b, after)
    requires after.requests == b.requests && after.reserves == b.reserves && after.history == b.history
    requires RowsFollow(b, after, Seal(b.vault, b.events, entity, payload))
    requires Fold(FromTables(b), Seal(b.vault, b.events, entity, payload)) == Ok(FromTables(after))
    ensures Linked(after)
  {
    hide FoldAll, OfKind, DirectMatched, SharesMatched, LifecycleMatched, HistoryMatched;
    var e := Seal(b.vault, b.events, entity, payload);
    OneMoreFolded(b.vault, b.events, entity, payload);
    DirectKept(b, after, e);
    SharesKept(b, e);
    LifecycleKept(b.events, e, |b.requests|, b.reserves, b.payables);
    HistoryKept(b.events, e, b.history, b.requests);
  }

  lemma {:induction false} LiabilityFigures(b: Book, r: Liability, e: Event)
    requires 0 <= r.grossAssets && 0 <= r.deductions && e.payload == LiabilityPayload(r)
    ensures Fold(FromTables(b), e) == Ok(Figures(b.liabilities + [r], b.checkpoints, b.shareEvents, b.closings))
  {
  }

  lemma {:induction false} LiabilityLinked(b: Book, r: Liability)
    requires Linked(b) && 0 <= r.grossAssets && 0 <= r.deductions
    ensures Linked(AddLiability(b, r))
  {
    hide Linked, Rows, Fold, Figures;
    var row, e := r.(event := Next(b)), Seal(b.vault, b.events, |b.liabilities|, LiabilityPayload(r));
    OneMoreRow(b.liabilities, row, OfLiability);
    LiabilityFigures(b, row, e);
    ValuingKept(b, AddLiability(b, r), |b.liabilities|, LiabilityPayload(r));
  }

  ghost predicate ClosingsWithin(closings: seq<Closing>, checkpoints: nat) {
    forall i :: 0 <= i < |closings| ==> closings[i].checkpoint < checkpoints
  }

  lemma {:induction false} CheckpointFigures(b: Book, r: Checkpoint, e: Event)
    requires 0 <= r.nav <= r.gross && 0 <= r.supply == Supply(b.shareEvents)
    requires LastLiability(b.liabilities) == Some(MarkedLiability(r.gross, r.gross - r.nav))
    requires ClosingsWithin(b.closings, |b.checkpoints|)
    requires e.payload == CheckpointPayload(r) && e.entity == |b.checkpoints|
    ensures Fold(FromTables(b), e) == Ok(Figures(b.liabilities, b.checkpoints + [r], b.shareEvents, b.closings))
  {
    assert CheckpointRows(b.checkpoints + [r]) == CheckpointRows(b.checkpoints)[|b.checkpoints| := CheckpointRow(r)];
    assert CloseRows(b.closings, b.checkpoints + [r]) == CloseRows(b.closings, b.checkpoints);
  }

  lemma {:induction false} CheckpointLinked(b: Book, r: Checkpoint)
    requires Linked(b) && 0 <= r.nav <= r.gross && 0 <= r.supply == Supply(b.shareEvents)
    requires LastLiability(b.liabilities) == Some(MarkedLiability(r.gross, r.gross - r.nav))
    requires ClosingsWithin(b.closings, |b.checkpoints|)
    ensures Linked(AddCheckpoint(b, r))
  {
    hide Linked, Rows, Fold, Figures;
    var row, e := r.(event := Next(b)), Seal(b.vault, b.events, |b.checkpoints|, CheckpointPayload(r));
    OneMoreRow(b.checkpoints, row, OfCheckpoint);
    CheckpointFigures(b, row, e);
    ValuingKept(b, AddCheckpoint(b, r), |b.checkpoints|, CheckpointPayload(r));
  }

  ghost predicate ClosingAdds(b: Book, r: Closing) {
    && r.checkpoint < |b.checkpoints|
    && 0 <= r.activated && 0 <= r.matured && 0 <= r.dust && 0 <= r.nav && 0 <= r.supply == Supply(b.shareEvents)
    && var cp := b.checkpoints[r.checkpoint];
       r.nav == cp.nav + r.activated - r.matured - r.dust && r.nav <= cp.gross
  }

  lemma {:induction false} ClosingFigures(b: Book, r: Closing, e: Event)
    requires ClosingAdds(b, r) && r.event == e.version
    requires e.payload == ClosingPayload(r) && e.entity == |b.closings|
    ensures Fold(FromTables(b), e) == Ok(Figures(b.liabilities, b.checkpoints, b.shareEvents, b.closings + [r]))
  {
    assert r.checkpoint in CheckpointRows(b.checkpoints);
    assert CloseRows(b.closings + [r], b.checkpoints)
        == CloseRows(b.closings, b.checkpoints) + [CloseRow(r, |b.closings|, b.checkpoints)];
  }

  lemma {:induction false} ClosingLinked(b: Book, r: Closing)
    requires Linked(b) && ClosingAdds(b, r)
    ensures Linked(AddClosing(b, r))
  {
    hide Linked, Rows, Fold, Figures;
    var row, e := r.(event := Next(b)), Seal(b.vault, b.events, |b.closings|, ClosingPayload(r));
    OneMoreRow(b.closings, row, OfClosing);
    ClosingFigures(b, row, e);
    ValuingKept(b, AddClosing(b, r), |b.closings|, ClosingPayload(r));
  }

  /** A row's status is no part of what the log says about it. */
  lemma {:induction false} CyclesLinked(b: Book, cycles: seq<Cycle>)
    requires Linked(b) && Rows(cycles, OfCycle) == Rows(b.cycles, OfCycle)
    ensures Linked(b.(cycles := cycles))
  {
    assert forall k :: RowsOf(b.(cycles := cycles), k) == RowsOf(b, k);
  }

  // ---------------------------------------------------------------- mints and burns

  lemma {:induction false} NewestLot(lots: seq<Lot>, lot: Lot, mint: nat)
    ensures LotOf(lots + [lot], mint) == if lot.mint == mint then Some(|lots|) else LotOf(lots, mint)
  {
    Snoc(lots, lot);
  }

  lemma {:induction false} NewestPayable(payables: seq<Payable>, p: Payable, event: nat, request: nat)
    ensures PayableAt(payables + [p], event)
            == if p.event == event then Some(|payables|) else PayableAt(payables, event)
    ensures PayablesFor(payables + [p], request)
            == PayablesFor(payables, request) + (if p.request == request then 1 else 0)
  {
    Snoc(payables, p);
  }

  lemma {:induction false} OneMorePart(allocations: seq<BurnAllocation>, a: BurnAllocation, burn: nat)
    ensures PartsOfBurn(allocations + [a], burn)
         == if a.burn == burn then PartsOfBurn(allocations, burn) + [a.part] else PartsOfBurn(allocations, burn)
  {
    Snoc(allocations, a);
  }

  lemma {:induction false} NewestParts(allocations: seq<BurnAllocation>, burn: nat, parts: seq<LotBurn>, other: nat)
    ensures PartsOfBurn(Recorded(allocations, burn, parts), other)
         == if burn == other then PartsOfBurn(allocations, other) + parts else PartsOfBurn(allocations, other)
  {
    hide PartsOfBurn;
    if parts == [] {
      assert PartsOfBurn(allocations, other) + parts == PartsOfBurn(allocations, other);
    } else {
      var init, part := parts[..|parts| - 1], parts[|parts| - 1];
      NewestParts(allocations, burn, init, other);
      OneMorePart(Recorded(allocations, burn, init), BurnAllocation(burn, part), other);
      assert PartsOfBurn(allocations, other) + parts == PartsOfBurn(allocations, other) + init + [part];
    }
  }

  lemma {:induction false} NoPartsYet(allocations: seq<BurnAllocation>, burn: nat)
    requires forall k :: 0 <= k < |allocations| ==> allocations[k].burn < burn
    ensures PartsOfBurn(allocations, burn) == []
  {
    if allocations != [] {
      NoPartsYet(allocations[..|allocations| - 1], burn);
    }
  }

  /** No event of the log is numbered beyond its length. */
  lemma {:induction false} VersionsBelow(vault: nat, events: seq<Event>, k: Kind, i: nat)
    requires FoldAll(vault, events).Ok? && i < |OfKind(events, k)|
    ensures OfKind(events, k)[i].event <= |events|
  {
    var init := events[..|events| - 1];
    if i < |OfKind(init, k)| {
      VersionsBelow(vault, init, k, i);
    }
  }

  lemma {:induction false} MintShares(b: Book, deposit: nat, shares: int, checkpoint: nat)
    requires Linked(b) && deposit < |b.deposits|
    ensures var after := AddMint(b, deposit, shares, checkpoint);
            SharesMatched(after.events, after.shareEvents, after.lots, after.allocations, after.payables)
  {
    hide FoldAll, PartsOfBurn, PayableAt, LotOf, DirectMatched, LifecycleMatched, HistoryMatched;
    var after := AddMint(b, deposit, shares, checkpoint);
    OneMoreOfKind(b.events, after.events[|b.events|], ShareKind);
    var mint := after.shareEvents[|b.shareEvents|];
    forall i | 0 <= i < |after.shareEvents|
      ensures ShareProjection(after.shareEvents[i], i, after.lots, after.allocations, after.payables)
           == Some(OfKind(after.events, ShareKind)[i])
    {
      NewestLot(b.lots, after.lots[|b.lots|], i);
      if i < |b.shareEvents| {
        assert ShareProjection(b.shareEvents[i], i, b.lots, b.allocations, b.payables)
            == Some(OfKind(b.events, ShareKind)[i]);
      }
    }
  }

  lemma {:induction false} SharesFigures(b: Book, e: Event, s: ShareEvent)
    requires 0 < s.shares
    requires match e.payload
             case DepositActivated(_, _, _, _, _, shares) => s.cause.MintOf? && s.shares == shares
             case RedemptionPayableMatured(_, _, _, _, shares, _, _, _) =>
               s.cause.BurnOf? && s.shares == shares <= Supply(b.shareEvents)
             case _ => false
    ensures Fold(FromTables(b), e) == Ok(Figures(b.liabilities, b.checkpoints, b.shareEvents + [s], b.closings))
  {
    Snoc(b.shareEvents, s);
  }

  lemma {:induction false} MintLinked(b: Book, deposit: nat, shares: int, checkpoint: nat)
    requires Linked(b) && deposit < |b.deposits| && 0 < shares
    ensures Linked(AddMint(b, deposit, shares, checkpoint))
  {
    hide FoldAll, Fold, OfKind, DirectMatched, SharesMatched, LifecycleMatched, HistoryMatched;
    var after := AddMint(b, deposit, shares, checkpoint);
    var e := after.events[|b.events|];
    OneMoreFolded(b.vault, b.events, |b.shareEvents|, e.payload);
    SharesFigures(b, e, after.shareEvents[|b.shareEvents|]);
    SameRow(b.deposits, deposit, after.deposits[deposit], OfDeposit);
    DirectKept(b, after, e);
    MintShares(b, deposit, shares, checkpoint);
    LifecycleKept(b.events, e, |b.requests|, b.reserves, b.payables);
    HistoryKept(b.events, e, b.history, b.requests);
  }

  lemma {:induction false} RecordedBurns(allocations: seq<BurnAllocation>, burn: nat, parts: seq<LotBurn>)
    requires forall k :: 0 <= k < |allocations| ==> allocations[k].burn < burn
    ensures forall k :: 0 <= k < |Recorded(allocations, burn, parts)| ==>
      Recorded(allocations, burn, parts)[k].burn < burn + 1
  {
    if parts != [] {
      RecordedBurns(allocations, burn, parts[..|parts| - 1]);
    }
  }

  lemma {:induction false} OlderShareRow(s: ShareEvent, i: nat, b: Book, p: Payable, burn: nat, parts: seq<LotBurn>)
    requires s.event != p.event && i != burn
    ensures ShareProjection(s, i, b.lots, Recorded(b.allocations, burn, parts), b.payables + [p])
         == ShareProjection(s, i, b.lots, b.allocations, b.payables)
  {
    NewestParts(b.allocations, burn, parts, i);
    NewestPayable(b.payables, p, s.event, 0);
  }

  lemma {:induction false} BurnShareRow(s: ShareEvent, b: Book, p: Payable, parts: seq<LotBurn>)
    requires s.cause.BurnOf? && s.event == p.event
    requires forall k :: 0 <= k < |b.allocations| ==> b.allocations[k].burn < |b.shareEvents|
    ensures ShareProjection(s, |b.shareEvents|, b.lots, Recorded(b.allocations, |b.shareEvents|, parts),
                            b.payables + [p])
         == Some(Projection(s.event, |b.shareEvents|, RedemptionPayableMatured(
              s.cause.request, s.user, s.checkpoint, |b.payables|, s.shares, p.amount, s.basis, parts)))
  {
    NoPartsYet(b.allocations, |b.shareEvents|);
    NewestParts(b.allocations, |b.shareEvents|, parts, |b.shareEvents|);
    assert PartsOfBurn(Recorded(b.allocations, |b.shareEvents|, parts), |b.shareEvents|) == parts;
    NewestPayable(b.payables, p, s.event, 0);
  }

  lemma {:induction false} BurnShares(b: Book, request: nat, mark: nat, amount: int, plan: Plan, checkpoint: nat)
    requires Linked(b) && request < |b.requests|
    ensures var after := AddBurn(b, request, mark, amount, plan, checkpoint);
            SharesMatched(after.events, after.shareEvents, after.lots, after.allocations, after.payables)
  {
    hide FoldAll, Fold, PartsOfBurn, PayableAt, Recorded, DirectMatched, LifecycleMatched, HistoryMatched;
    var after := AddBurn(b, request, mark, amount, plan, checkpoint);
    var burn, p := |b.shareEvents|, after.payables[|b.payables|];
    var e := after.events[|b.events|];
    OneMoreOfKind(b.events, e, ShareKind);
    var log := OfKind(b.events, ShareKind);
    RecordedBurns(b.allocations, burn, plan.parts);
    BurnShareRow(after.shareEvents[burn], b, p, plan.parts);
    forall i | 0 <= i < burn
      ensures ShareProjection(b.shareEvents[i], i, b.lots, after.allocations, after.payables) == Some(log[i])
    {
      VersionsBelow(b.vault, b.events, ShareKind, i);
      assert ShareProjection(b.shareEvents[i], i, b.lots, b.allocations, b.payables) == Some(log[i]);
      OlderShareRow(b.shareEvents[i], i, b, p, burn, plan.parts);
    }
  }

  /** A first payable for a request disturbs no event about another's. */
  lemma {:induction false} PayableKept(events: seq<Event>, requests: nat, reserves: seq<Reserve>,
                                       payables: seq<Payable>, p: Payable)
    requires LifecycleMatched(events, requests, reserves, payables) && PayablesFor(payables, p.request) == 0
    ensures LifecycleMatched(events, requests, reserves, payables + [p])
  {
    forall i | 0 <= i < |events|
      ensures LifecycleAt(events[i], requests, reserves, payables + [p])
    {
      assert LifecycleAt(events[i], requests, reserves, payables);
      var payload := events[i].payload;
      if payload.RedemptionFinalized? || payload.RedemptionClaimable? {
        NewestPayable(payables, p, 0, payload.request);
      }
    }
  }

  lemma {:induction false} BurnLinked(b: Book, request: nat, mark: nat, amount: int, plan: Plan, checkpoint: nat)
    requires Linked(b) && request < |b.requests| && 0 < b.requests[request].shares <= Supply(b.shareEvents)
    requires PayablesFor(b.payables, request) == 0
    ensures Linked(AddBurn(b, request, mark, amount, plan, checkpoint))
  {
    hide FoldAll, Fold, OfKind, DirectMatched, SharesMatched, LifecycleMatched, HistoryMatched;
    var after := AddBurn(b, request, mark, amount, plan, checkpoint);
    var e := after.events[|b.events|];
    OneMoreFolded(b.vault, b.events, |b.shareEvents|, e.payload);
    SharesFigures(b, e, after.shareEvents[|b.shareEvents|]);
    DirectKept(b, after, e);
    BurnShares(b, request, mark, amount, plan, checkpoint);
    PayableKept(b.events, |b.requests|, b.reserves, b.payables, after.payables[|b.payables|]);
    LifecycleKept(b.events, e, |b.requests|, b.reserves, after.payables);
    HistoryKept(b.events, e, b.history, b.requests);
  }

  // ---------------------------------------------------------------- requests and their status changes

  lemma {:induction false} MoreRequests(events: seq<Event>, fewer: nat, requests: nat, reserves: seq<Reserve>,
                                        more: seq<Reserve>,
                     payables: seq<Payable>)
    requires LifecycleMatched(events, fewer, reserves, payables) && fewer <= requests
    requires |reserves| <= |more| && more[..|reserves|] == reserves
    ensures LifecycleMatched(events, requests, more, payables)
  {
    forall i | 0 <= i < |events|
      ensures LifecycleAt(events[i], requests, more, payables)
    {
      assert LifecycleAt(events[i], fewer, reserves, payables);
      assert forall k :: 0 <= k < |reserves| ==> more[k] == more[..|reserves|][k];
    }
  }

  lemma {:induction false} RequestLinked(b: Book, r: Request, now: int)
    requires Linked(b) && r.status == Queued
    ensures Linked(AddRequest(b, r, now))
  {
    hide FoldAll, OfKind, DirectMatched, SharesMatched, LifecycleMatched, HistoryMatched;
    var after := AddRequest(b, r, now);
    var e := after.events[|b.events|];
    OneMoreFolded(b.vault, b.events, |b.requests|, e.payload);
    OneMoreRow(b.requests, r.(event := Next(b)), OfRequest);
    DirectKept(b, after, e);
    SharesKept(b, e);
    MoreRequests(b.events, |b.requests|, |b.requests| + 1, b.reserves, b.reserves, b.payables);
    LifecycleKept(b.events, e, |b.requests| + 1, b.reserves, b.payables);
    RequestKept(b.events, e, b.history, b.requests, after.requests[|b.requests|], now);
  }

  lemma {:induction false} StatusRows(b: Book, logged: Book, e: Event, r: nat, status: Status, now: int)
    requires RowsFollow(b, logged, e) && r < |logged.requests|
    ensures RowsFollow(b, SetStatus(logged, r, status, now), e)
  {
    hide Rows, OfKind;
    var after := SetStatus(logged, r, status, now);
    SameRow(logged.requests, r, after.requests[r], OfRequest);
  }

  /** A status event, with the row it may bring, followed by the status change itself. */
  lemma {:induction false} StatusLinked(b: Book, logged: Book, entity: nat, payload: Payload, r: nat, status: Status,
                                        now: int)
    requires Linked(b) && r < |b.requests| && logged.requests == b.requests && logged.history == b.history
    requires ValuesAlike(b, logged) && SharesAlike(b, logged)
    requires |b.reserves| <= |logged.reserves| && logged.reserves[..|b.reserves|] == b.reserves
    requires KindOf(payload) in {WaitingKind, ReserveKind, LifecycleKind}
    requires var e := Seal(b.vault, b.events, entity, payload);
             && RowsFollow(b, logged, e) && StatusEvent(e) == Some(StatusChange(r, status))
             && LifecycleAt(e, |b.requests|, logged.reserves, b.payables)
    ensures Linked(SetStatus(logged, r, status, now))
  {
    var e, after := Seal(b.vault, b.events, entity, payload), SetStatus(logged, r, status, now);
    assert after.events == b.events + [e];
    hide FoldAll, OfKind, RowsFollow, DirectMatched, SharesMatched, LifecycleMatched, HistoryMatched;
    OneMoreFolded(b.vault, b.events, entity, payload);
    StatusRows(b, logged, e, r, status, now);
    DirectKept(b, after, e);
    SharesKept(b, e);
    MoreRequests(b.events, |b.requests|, |b.requests|, b.reserves, logged.reserves, b.payables);
    LifecycleKept(b.events, e, |b.requests|, logged.reserves, b.payables);
    ChangeKept(b.events, e, b.history, b.requests, after.requests, r, status, now);
  }
}
