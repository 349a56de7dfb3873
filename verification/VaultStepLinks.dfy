/** The operations of the vault keep the log and the tables linked. */
module VaultStepLinks {
  import opened Common
  import opened VaultTables
  import opened VaultLots
  import opened VaultRows
  import opened VaultReplay
  import opened VaultLinks
  import opened VaultSteps

  // ---------------------------------------------------------------- admission and redemption

  lemma {:induction false} PostponedLinked(b: Book, r: nat, reconciliation: nat, capacity: Capacity, now: int)
    requires Linked(b) && r < |b.requests|
    ensures Linked(Postponed(b, r, reconciliation, capacity, now))
  {
    hide Linked, Rows;
    var row := WaitingEvidence(r, reconciliation, capacity.required, capacity.available, 0);
    OneMoreRow(b.waiting, row.(event := Next(b)), OfWaiting);
    StatusLinked(b, AddWaiting(b, row), |b.waiting|, WaitingPayload(row), r, WaitingLiquidity, now);
  }

  lemma {:induction false} HeldLinked(b: Book, row: Reserve, now: int)
    requires Linked(b) && row.request < |b.requests|
    ensures Linked(SetStatus(AddReserve(b, row), row.request, Admitted, now))
  {
    hide Linked, Rows;
    OneMoreRow(b.reserves, row.(event := Next(b)), OfReserve);
    StatusLinked(b, AddReserve(b, row), |b.reserves|, ReservePayload(row), row.request, Admitted, now);
  }

  /** An event with no row of its own, and the status change that goes with it. */
  lemma {:induction false} LoggedLinked(b: Book, entity: nat, payload: Payload, r: nat, status: Status, now: int)
    requires Linked(b) && r < |b.requests| && KindOf(payload) == LifecycleKind
    requires var e := Seal(b.vault, b.events, entity, payload);
             StatusEvent(e) == Some(StatusChange(r, status)) && LifecycleAt(e, |b.requests|, b.reserves, b.payables)
    ensures Linked(SetStatus(Logged(b, entity, payload), r, status, now))
    ensures SetStatus(Logged(b, entity, payload), r, status, now)
         == Logged(SetStatus(b, r, status, now), entity, payload)
  {
    hide Linked, Rows;
    StatusLinked(b, Logged(b, entity, payload), entity, payload, r, status, now);
  }

  lemma {:induction false} AdmissionLinked(b: Book, r: nat, reconciliation: nat, capacity: Capacity, now: int)
    requires Linked(b) && r < |b.requests| && b.closings != []
    ensures Linked(Admission(b, r, reconciliation, capacity, now))
  {
    hide Linked;
    var last := b.closings[|b.closings| - 1];
    var row := Reserve(r, b.requests[r].shares, reconciliation, last.cycle, last.checkpoint, capacity.required,
                       capacity.available, 0);
    var admitted := SetStatus(AddReserve(b, row), r, Admitted, now);
    HeldLinked(b, row, now);
    LoggedLinked(admitted, Next(admitted), RedemptionRedeeming(r, Some(|b.reserves|)), r, Redeeming, now);
  }

  function Burnt(b: Book, r: nat, mark: nat, amount: int, plan: Plan, checkpoint: nat, now: int): (after: Book)
    requires r < |b.requests|
    ensures |after.requests| == |b.requests|
  {
    Logged(SetStatus(AddBurn(b, r, mark, amount, plan, checkpoint), r, Finalized, now), r,
           RedemptionFinalized(r, |b.payables|, amount))
  }

  lemma {:induction false} BurntLinked(b: Book, r: nat, mark: nat, amount: int, plan: Plan, checkpoint: nat, now: int)
    requires Linked(b) && r < |b.requests| && 0 < b.requests[r].shares <= Supply(b.shareEvents)
    requires PayablesFor(b.payables, r) == 0
    ensures var after := Burnt(b, r, mark, amount, plan, checkpoint, now);
            && Linked(after) && PayablesFor(after.payables, r) == 1
            && |after.payables| == |b.payables| + 1 && after.payables[|b.payables|].request == r
  {
    hide Linked, PayablesFor;
    var burned := AddBurn(b, r, mark, amount, plan, checkpoint);
    BurnLinked(b, r, mark, amount, plan, checkpoint);
    NewestPayable(b.payables, burned.payables[|b.payables|], 0, r);
    LoggedLinked(burned, r, RedemptionFinalized(r, |b.payables|, amount), r, Finalized, now);
  }

  lemma {:induction false} FinalizationLinked(b: Book, r: nat, mark: nat, amount: int, plan: Plan, checkpoint: nat,
                                              now: int)
    requires Linked(b) && r < |b.requests| && 0 < b.requests[r].shares <= Supply(b.shareEvents)
    requires PayablesFor(b.payables, r) == 0
    ensures Linked(Finalization(b, r, mark, amount, plan, checkpoint, now))
  {
    hide Linked, PayablesFor;
    BurntLinked(b, r, mark, amount, plan, checkpoint, now);
    LoggedLinked(Burnt(b, r, mark, amount, plan, checkpoint, now), r, RedemptionClaimable(r, |b.payables|), r,
                 Claimable, now);
  }

  // ---------------------------------------------------------------- recognition and marks

  lemma {:induction false} FeesLinked(b: Book, due: seq<Ticket>)
    requires Linked(b)
    ensures Linked(AccrueFees(b, due))
    ensures AccrueFees(b, due) == b.(events := AccrueFees(b, due).events, fees := AccrueFees(b, due).fees)
  {
    if due != [] {
      var init, t := due[..|due| - 1], due[|due| - 1];
      FeesLinked(b, init);
      FeeLinked(AccrueFees(b, init), FeeAccrual(t.id, t.reserve, t.fee, t.created, 0));
    }
  }

  lemma {:induction false} RecognitionsLinked(b: Book, cycle: nat, due: seq<Ticket>)
    requires Linked(b) && Settled(due)
    ensures var after := RecognizeSettlements(b, cycle, due);
            Linked(after) && after == b.(events := after.events, recognitions := after.recognitions)
  {
    if due != [] {
      var init, t := due[..|due| - 1], due[|due| - 1];
      RecognitionsLinked(b, cycle, init);
      RecognitionLinked(RecognizeSettlements(b, cycle, init), RecognitionOf(cycle, t, t.settlement.value));
    }
  }

  lemma {:induction false} TicketsLinked(b: Book, cycle: nat, open: seq<Ticket>, marks: seq<MarkWrite>, at: int)
    requires Linked(b) && MarkTickets(b, cycle, open, marks, at).Ok?
    ensures var after := MarkTickets(b, cycle, open, marks, at).value;
            Linked(after) && after == b.(events := after.events, ticketMarks := after.ticketMarks)
  {
    if open != [] {
      var init, t := open[..|open| - 1], open[|open| - 1];
      TicketsLinked(b, cycle, init, marks, at);
      TicketMarkLinked(MarkTickets(b, cycle, init, marks, at).value,
                       TicketMark(cycle, t.id, t.stake, t.payout, t.payout, 0));
    }
  }

  lemma {:induction false} ReservesLinked(b: Book, cycle: nat, checkpoint: nat, cp: Checkpoint, requests: seq<nat>)
    requires Linked(b) && 0 < cp.supply
    ensures var after := MarkReserves(b, cycle, checkpoint, cp, requests);
            Linked(after) && after == b.(events := after.events, reserveMarks := after.reserveMarks)
  {
    if requests != [] {
      var init, r := requests[..|requests| - 1], requests[|requests| - 1];
      ReservesLinked(b, cycle, checkpoint, cp, init);
      var before := MarkReserves(b, cycle, checkpoint, cp, init);
      var held := ReserveOf(before.reserves, r);
      if MarkOf(before.reserveMarks, cycle, r).None? && held.Some? {
        var shares := before.reserves[held.value].shares;
        ReserveMarkLinked(before, ReserveMark(cycle, checkpoint, r, shares, shares * cp.nav / cp.supply, 0));
      }
    }
  }
}
