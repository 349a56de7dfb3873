/** What a close records, figure by figure, in terms of its snapshot, the tickets and the tables before it. */
module VaultStatement {
  import opened Common
  import opened VaultTables
  import opened VaultRows
  import opened VaultReplay
  import opened VaultInvariant
  import opened VaultSteps
  import opened VaultConsistency
  import opened VaultClosing
  import opened VaultClose
  import opened VaultCycle
  import opened VaultPaying
  import opened VaultPayments
  import opened VaultMints
  import opened VaultReserving
  import opened VaultTickets

  // ---------------------------------------------------------------- sums

  function FeeBy(f: FeeAccrual, at: int): int {
    if f.effectiveAt <= at then f.amount else 0
  }

  function PendingAmount(d: Deposit): int {
    if d.status == Pending then d.amount else 0
  }

  function SharesOf(e: ShareEvent): int {
    if e.cause.MintOf? then e.shares else -e.shares
  }

  lemma {:induction false} FeeSum(fees: seq<FeeAccrual>, at: int)
    ensures FeesAt(fees, at) == Sum(fees, f => FeeBy(f, at))
  {
    if fees != [] {
      FeeSum(fees[..|fees| - 1], at);
    }
  }

  lemma {:induction false} PendingSum(deposits: seq<Deposit>)
    ensures PendingTotal(deposits) == Sum(deposits, PendingAmount)
  {
    if deposits != [] {
      PendingSum(deposits[..|deposits| - 1]);
    }
  }

  lemma {:induction false} MaturedSum(payables: seq<Payable>)
    ensures MaturedTotal(payables) == Sum(payables, (p: Payable) => p.amount)
  {
    if payables != [] {
      MaturedSum(payables[..|payables| - 1]);
    }
  }

  lemma {:induction false} SupplySum(shareEvents: seq<ShareEvent>)
    ensures Supply(shareEvents) == Sum(shareEvents, SharesOf)
  {
    if shareEvents != [] {
      SupplySum(shareEvents[..|shareEvents| - 1]);
    }
  }

  lemma {:induction false} PnlSum(recognitions: seq<Recognition>)
    ensures FinalizedPnl(recognitions) == Sum(recognitions, (r: Recognition) => r.pnl)
  {
    if recognitions != [] {
      PnlSum(recognitions[..|recognitions| - 1]);
    }
  }

  // ---------------------------------------------------------------- what is recorded

  /** What the vault starts with, if it has not started before: what the treasury holds beyond every obligation. */
  ghost predicate Begins(b: Book, inception: Option<Inception>, s: Snapshot) {
    if b.inception.Some? then inception == b.inception
    else
      && inception.Some?
      && var i := inception.value;
         && i.reconciliation == s.id && i.at == s.created && i.event == |b.events| + 1 && 0 <= i.seed
         && i.seed + s.userAvailable + s.userClaimable + s.userCheckout + s.pendingWithdrawal + s.openStake
            + s.openReserve == s.treasury
  }

  /** The founder's deposit of that, on the day of the inception. */
  function FounderDeposits(b: Book, inception: Option<Inception>): seq<Deposit> {
    if b.inception.None? && inception.Some? && 0 < inception.value.seed then
      [Deposit(0, inception.value.seed, inception.value.at / 86400000, "internal:founder-seed:v1", Pending,
               |b.events| + 2)]
    else []
  }

  /** Every figure of the liability. */
  ghost predicate LiabilityStated(b: Book, l: Liability, c: nat, input: CloseInput, open: seq<Ticket>,
                                  fees: seq<FeeAccrual>, founders: seq<Deposit>)
  {
    var s := input.snapshot;
    && l.cycle == c && l.reconciliation == s.id && l.grossAssets == s.treasury
    && l.senior == s.userAvailable + s.userClaimable + s.userCheckout + s.pendingWithdrawal
    && l.gross == l.marked == Sum(open, (t: Ticket) => t.payout as int)
    && l.fees == Sum(fees, f => FeeBy(f, s.created)) && l.expenses == input.expenses
    && l.pending == Sum(b.deposits + founders, PendingAmount)
    && l.matured == Sum(b.payables, (p: Payable) => p.amount)
    && l.deductions == l.senior + l.marked + l.fees + l.expenses + l.pending + l.matured
  }

  /** Every figure of the checkpoint: the value is what the treasury holds beyond all of the liability. */
  ghost predicate CheckpointStated(b: Book, cp: Checkpoint, l: Liability, c: nat, input: CloseInput, open: seq<Ticket>,
                                   recognitions: seq<Recognition>)
  {
    && cp.cycle == c && cp.liability == c && cp.reconciliation == input.snapshot.id
    && cp.gross == input.snapshot.treasury && cp.nav == input.snapshot.treasury - l.deductions && 0 <= cp.nav
    && cp.supply == Sum(b.shareEvents, SharesOf) && (cp.supply == 0 ==> cp.nav == 0)
    && cp.estimatedPnl == Sum(open, (t: Ticket) => t.stake as int) - Sum(open, (t: Ticket) => t.payout as int)
    && cp.finalizedPnl == Sum(recognitions, (r: Recognition) => r.pnl)
  }

  /** What is known of the tickets of a close. */
  datatype Picked = Picked(due: seq<Ticket>, settled: seq<Ticket>, open: seq<Ticket>)

  ghost predicate AllPicked(b: Book, p: Picked, tickets: seq<Ticket>, from: int, at: int) {
    && Picks(p.due, tickets, t => FeeIsDue(t, b.fees, from, at))
    && Picks(p.settled, tickets, t => SettlementIsDue(t, b.recognitions, from, at))
    && Picks(p.open, tickets, t => StillOpen(t, at))
  }

  /** The tables that a close has written when it reaches its checkpoint, from event `first` on. */
  ghost predicate Recorded(b: Book, v: Book, c: nat, input: CloseInput, p: Picked, first: nat) {
    && v.inception.Some? && Begins(b, v.inception, input.snapshot)
    && AllPicked(b, p, input.tickets, v.inception.value.at, input.snapshot.created)
    && (b.inception.Some? ==> first == |b.events| + 2)
    && FeeRows(b.fees, v.fees, p.due, first)
    && RecognitionRows(b.recognitions, v.recognitions, c, p.settled, first + |p.due|)
    && MarkRows(b.ticketMarks, v.ticketMarks, c, p.open, first + |p.due| + |p.settled|)
    && |v.liabilities| == |b.liabilities| + 1 && b.liabilities <= v.liabilities
    && |v.checkpoints| == |b.checkpoints| + 1 && b.checkpoints <= v.checkpoints
    && var l, cp := v.liabilities[|b.liabilities|], v.checkpoints[|b.checkpoints|];
       && LiabilityStated(b, l, c, input, p.open, v.fees, FounderDeposits(b, v.inception))
       && CheckpointStated(b, cp, l, c, input, p.open, v.recognitions)
       && l.event == first + |p.due| + |p.settled| + |p.open| && cp.event == l.event + 1
  }

  // ---------------------------------------------------------------- up to the checkpoint

  lemma {:induction false} InceptionStated(b: Book, s: Snapshot)
    requires Incepted(b, s).Ok?
    ensures var i := Incepted(b, s).value;
            && Begins(b, i.inception, s) && i.inception.Some?
            && i == b.(events := i.events, inception := i.inception, deposits := i.deposits)
            && i.deposits == b.deposits + FounderDeposits(b, i.inception)
            && (b.inception.Some? ==> i == b)
  {
    hide Seal;
  }

  lemma {:induction false} ValuationStated(b: Book, m: Book, c: nat, input: CloseInput, open: seq<Ticket>,
                                           founders: seq<Deposit>)
    requires ValueCycle(m, c, input, open).Ok? && |m.liabilities| == c
    requires m.deposits == b.deposits + founders && m.payables == b.payables && m.shareEvents == b.shareEvents
    ensures var v := ValueCycle(m, c, input, open).value;
            && v == m.(events := v.events, liabilities := v.liabilities, checkpoints := v.checkpoints)
            && |v.liabilities| == |m.liabilities| + 1 && m.liabilities <= v.liabilities
            && |v.checkpoints| == |m.checkpoints| + 1 && m.checkpoints <= v.checkpoints
            && var l, cp := v.liabilities[|m.liabilities|], v.checkpoints[|m.checkpoints|];
               && LiabilityStated(b, l, c, input, open, m.fees, founders)
               && CheckpointStated(b, cp, l, c, input, open, m.recognitions)
               && l.event == |m.events| + 1 && cp.event == |m.events| + 2
  {
    SumsOfTickets(open);
    FeeSum(m.fees, input.snapshot.created);
    PendingSum(m.deposits);
    MaturedSum(m.payables);
    SupplySum(m.shareEvents);
    PnlSum(m.recognitions);
    hide Sum, GrossPayout, OpenStake, FeesAt, PendingTotal, MaturedTotal, Supply, FinalizedPnl, DustBy, Seal;
  }

  /** Recognition and ticket marks. */
  lemma {:induction false} TicketsStated(begun: Book, c: nat, from: int, input: CloseInput, marks: seq<MarkWrite>)
      returns (p: Picked)
    requires var at := input.snapshot.created;
             MarkTickets(Recognize(begun, c, input.tickets, from, at), c, OpenTickets(input.tickets, at), marks, at).Ok?
    ensures p.open == OpenTickets(input.tickets, input.snapshot.created)
    ensures AllPicked(begun, p, input.tickets, from, input.snapshot.created)
    ensures var at := input.snapshot.created;
            var m := MarkTickets(Recognize(begun, c, input.tickets, from, at), c, p.open, marks, at).value;
            var first := |begun.events| + 1;
            && m == begun.(events := m.events, fees := m.fees, recognitions := m.recognitions,
                           ticketMarks := m.ticketMarks)
            && |m.events| == |begun.events| + |p.due| + |p.settled| + |p.open|
            && FeeRows(begun.fees, m.fees, p.due, first)
            && RecognitionRows(begun.recognitions, m.recognitions, c, p.settled, first + |p.due|)
            && MarkRows(begun.ticketMarks, m.ticketMarks, c, p.open, first + |p.due| + |p.settled|)
  {
    hide Picks, FeeIsDue, SettlementIsDue, StillOpen, FeesDue, SettlementsDue, OpenTickets, AccrueFees,
         RecognizeSettlements, MarkTickets, FeeRows, RecognitionRows, MarkRows;
    var at := input.snapshot.created;
    var due, settled := FeesDue(begun.fees, input.tickets, from, at),
                        SettlementsDue(begun.recognitions, input.tickets, from, at);
    p := Picked(due, settled, OpenTickets(input.tickets, at));
    FeesPicked(begun.fees, input.tickets, from, at);
    SettlementsPicked(begun.recognitions, input.tickets, from, at);
    OpenPicked(input.tickets, at);
    FeesWritten(begun, due);
    RecognitionsWritten(AccrueFees(begun, due), c, settled);
    MarksWritten(Recognize(begun, c, input.tickets, from, at), c, p.open, marks, at);
  }

  lemma {:induction false} CheckpointStates(b: Book, incepted: Book, cutoff: int, from: int, input: CloseInput,
                                            marks: seq<MarkWrite>) returns (p: Picked, first: nat)
    requires Incepted(b, input.snapshot) == Ok(incepted) && |b.liabilities| == |b.cycles|
    requires from == incepted.inception.value.at
    requires CheckpointCycle(AddCycle(incepted, Cycle(cutoff, Open, 0)), |b.cycles|, from, input, marks).Ok?
    ensures var v := CheckpointCycle(AddCycle(incepted, Cycle(cutoff, Open, 0)), |b.cycles|, from, input, marks).value;
            && Recorded(b, v, |b.cycles|, input, p, first)
            && 0 < first && v.cycles == b.cycles + [Cycle(cutoff, Open, first - 1)]
            && v.deposits == b.deposits + FounderDeposits(b, v.inception)
            && v == b.(events := v.events, inception := v.inception, deposits := v.deposits, cycles := v.cycles,
                       fees := v.fees, recognitions := v.recognitions, ticketMarks := v.ticketMarks,
                       liabilities := v.liabilities, checkpoints := v.checkpoints)
  {
    hide Recognize, MarkTickets, OpenTickets, ValueCycle, MarksCover, Incepted, FeeRows, RecognitionRows, MarkRows,
         Picks, FeeIsDue, SettlementIsDue, StillOpen, LiabilityStated, CheckpointStated;
    InceptionStated(b, input.snapshot);
    var begun, at := AddCycle(incepted, Cycle(cutoff, Open, 0)), input.snapshot.created;
    first := |begun.events| + 1;
    p := TicketsStated(begun, |b.cycles|, from, input, marks);
    var m := MarkTickets(Recognize(begun, |b.cycles|, input.tickets, from, at), |b.cycles|, p.open, marks, at).value;
    ValuationStated(b, m, |b.cycles|, input, p.open, FounderDeposits(b, incepted.inception));
    hide Begins, FounderDeposits;
  }

  // ---------------------------------------------------------------- from the checkpoint to the payables

  /** The requests that are paid: those marked whose window was over. */
  ghost predicate ListsPaid(requests: seq<Request>, marked: seq<nat>, paid: seq<nat>, at: int) {
    && (forall i, j :: 0 <= i < j < |paid| ==> paid[i] < paid[j])
    && (forall r: nat :: r in paid <==>
          r in marked && r < |requests| && requests[r].status == Redeeming && requests[r].endsAt <= at)
  }

  lemma {:induction false} ReservedHold(v: Book, rows: seq<nat>, at: int, now: int)
    requires Sound(v, now) && ListsReserved(v, rows, at)
    ensures Holds(v, rows) && Distinct(rows)
  {
    RequestsOf(v, now);
    hide Sound, UnderWay, Balance;
    forall i | 0 <= i < |rows|
      ensures rows[i] < |v.requests| && Held(v.reserves, rows[i], v.requests[rows[i]].shares)
    {
      assert rows[i] in rows;
      ReserveIsFound(v.reserves, rows[i]);
      assert RequestSound(v.requests[rows[i]], rows[i], v.reserves, v.shareEvents);
    }
  }

  /** The reserve marks of a close. */
  lemma {:induction false} MarksStated(v: Book, c: nat, at: int, now: int) returns (marked: seq<nat>)
    requires Sound(v, now) && Unused(v, c) && MarkActiveReserves(v, c, c, v.checkpoints[c], at).Ok?
    ensures ListsReserved(v, marked, at)
    ensures var w, cp := MarkActiveReserves(v, c, c, v.checkpoints[c], at).value, v.checkpoints[c];
            && w == v.(events := w.events, reserveMarks := w.reserveMarks)
            && MarksAdded(v.reserveMarks, w.reserveMarks, v.requests, c, cp.nav, cp.supply, marked)
            && (marked != [] ==> 0 < cp.supply)
  {
    hide Sound, ReservedRequests, ListsReserved, Holds, MarkReserves;
    marked := ReservedRequests(v.history, v.reserves, |v.requests|, at);
    ReservedAreListed(v, at);
    ReservedHold(v, marked, at, now);
    if marked != [] {
      MarksAreAdded(v, c, v.checkpoints[c], marked);
    }
  }

  /** A request has a mark of the cycle exactly when it is listed. */
  lemma {:induction false} MarkedIsListed(before: seq<ReserveMark>, after: seq<ReserveMark>, requests: seq<Request>,
                                          c: nat, nav: int, supply: int, marked: seq<nat>, r: nat)
    requires MarksAdded(before, after, requests, c, nav, supply, marked)
    requires forall k :: 0 <= k < |before| ==> before[k].cycle != c
    ensures MarkOf(after, c, r).Some? <==> r in marked
    ensures MarkOf(after, c, r).Some? ==> after[MarkOf(after, c, r).value].checkpoint == c
  {
    MarkMissing(after, c, r);
    hide MarkOf;
    if r !in marked {
      NotYetMarked(before, after, requests, c, nav, supply, marked, r);
    } else {
      var i :| 0 <= i < |marked| && marked[i] == r;
      assert MarkAdded(after[|before| + i], requests, c, nav, supply, marked[i]);
    }
    var found := MarkOf(after, c, r);
    if found.Some? {
      assert |before| <= found.value;
      assert MarkAdded(after[|before| + (found.value - |before|)], requests, c, nav, supply,
                       marked[found.value - |before|]);
    }
  }

  lemma {:induction false} PaidAreListed(before: seq<ReserveMark>, after: seq<ReserveMark>, requests: seq<Request>,
                                         c: nat, nav: int, supply: int, marked: seq<nat>, at: int)
    requires MarksAdded(before, after, requests, c, nav, supply, marked)
    requires forall k :: 0 <= k < |before| ==> before[k].cycle != c
    ensures ListsPaid(requests, marked, MaturedRequests(requests, after, c, c, at), at)
  {
    var p := (r: nat) => Matured(requests, after, c, c, at, r);
    var paid := MaturedRequests(requests, after, c, c, at);
    SelectOrdered(|requests|, p);
    hide MarksAdded, MarkOf;
    forall r: nat
      ensures r in paid <==>
        r in marked && r < |requests| && requests[r].status == Redeeming && requests[r].endsAt <= at
    {
      MarkedIsListed(before, after, requests, c, nav, supply, marked, r);
      if r < |requests| && p(r) {
        SelectComplete(|requests|, p, r);
      }
    }
  }

  /** What the vault's liquidity is at the checkpoint: what is not owed, marked or reserved. */
  ghost predicate LiquidityStated(q: Liquidity, c: nat, cp: Checkpoint, l: Liability, marks: seq<ReserveMark>) {
    && q.cycle == c && q.checkpoint == c && q.deductions == l.deductions
    && q.activeReserve == Sum(marks, m => MarkedBy(m, c))
    && q.collateral == l.deductions + q.activeReserve && q.free == cp.gross - q.collateral && 0 <= q.free
  }

  function MarkedBy(m: ReserveMark, c: nat): int {
    if m.cycle == c then m.amount else 0
  }

  lemma {:induction false} ReserveSum(marks: seq<ReserveMark>, c: nat)
    ensures MarkedReserve(marks, c) == Sum(marks, m => MarkedBy(m, c))
  {
    if marks != [] {
      ReserveSum(marks[..|marks| - 1], c);
    }
  }

  /** What a close writes from its checkpoint to its payables. */
  ghost predicate SettlementStated(v: Book, w: Book, c: nat, at: int, now: int, marked: seq<nat>, paid: seq<nat>)
    requires c < |v.checkpoints| && c < |v.liabilities|
  {
    var cp, l := v.checkpoints[c], v.liabilities[c];
    && ListsReserved(v, marked, at) && (marked != [] ==> 0 < cp.supply)
    && MarksAdded(v.reserveMarks, w.reserveMarks, v.requests, c, cp.nav, cp.supply, marked)
    && |w.liquidity| == |v.liquidity| + 1 && v.liquidity <= w.liquidity
    && LiquidityStated(w.liquidity[|v.liquidity|], c, cp, l, w.reserveMarks)
    && ListsPaid(v.requests, marked, paid, at)
    && PayablesAdded(v, w, c, cp.nav, cp.supply, paid) && LotsTaken(v, w)
    && PaymentMoves(v.history, w.history, paid, now)
    && |w.requests| == |v.requests|
    && (forall r :: 0 <= r < |v.requests| ==>
          w.requests[r] == if r in paid then v.requests[r].(status := Claimable) else v.requests[r])
  }

  /** The book before the first payment has the rows that payments add to as they were. */
  lemma {:induction false} SameBeforePayments(v: Book, liquid: Book, w: Book, c: nat, nav: int, supply: int,
                                              paid: seq<nat>)
    requires liquid == v.(events := liquid.events, reserveMarks := liquid.reserveMarks, liquidity := liquid.liquidity)
    requires PayablesAdded(liquid, w, c, nav, supply, paid) && LotsTaken(liquid, w)
    ensures PayablesAdded(v, w, c, nav, supply, paid) && LotsTaken(v, w)
  {
    hide Fresh, BurnTaken, PaymentAdded;
  }

  lemma {:induction false} PaymentsStated(liquid: Book, c: nat, at: int, before: int, now: int)
    requires Linked(liquid) && Sound(liquid, now) && PaidUp(liquid, c, before)
    requires c < |liquid.checkpoints| && 0 <= liquid.checkpoints[c].nav
    ensures FinalizeMatured(liquid, c, c, liquid.checkpoints[c], at, now).Ok?
    ensures var w, cp := FinalizeMatured(liquid, c, c, liquid.checkpoints[c], at, now).value, liquid.checkpoints[c];
            var paid := MaturedRequests(liquid.requests, liquid.reserveMarks, c, c, at);
            && PayablesAdded(liquid, w, c, cp.nav, cp.supply, paid) && LotsTaken(liquid, w)
            && PaymentMoves(liquid.history, w.history, paid, now)
            && PaidExactly(liquid.requests, w.requests, paid) && Paying(liquid, w)
  {
    SupplyFallen(liquid, c, before);
    RequestsOf(liquid, now);
    hide Linked, Sound, PaidUp, MaturedRequests, AdmittedBy, FinalizeEach, AllRipe, PaidExactly, PaidInOrder,
         PayablesAdded, LotsTaken, PaymentMoves;
    NoneAdmitted(liquid, at);
    MaturedAreRipe(liquid, c, at);
    var paid := MaturedRequests(liquid.requests, liquid.reserveMarks, c, c, at);
    PaymentsWritten(liquid, c, paid, before, now);
    var w := PayAll(liquid, c, paid, before, now);
  }

  lemma {:induction false} LiquidityOf(reserved: Book, c: nat, cp: Checkpoint, l: Liability)
    requires MarkLiquidity(reserved, c, c, cp, l).Ok? && l.marked == l.gross
    ensures var liquid := MarkLiquidity(reserved, c, c, cp, l).value;
            && liquid == reserved.(events := liquid.events, liquidity := liquid.liquidity)
            && |liquid.liquidity| == |reserved.liquidity| + 1 && reserved.liquidity <= liquid.liquidity
            && LiquidityStated(liquid.liquidity[|reserved.liquidity|], c, cp, l, reserved.reserveMarks)
  {
    ReserveSum(reserved.reserveMarks, c);
    hide Sum, MarkedReserve;
  }

  lemma {:induction false} SettlementStates(b: Book, v: Book, cutoff: int, at: int, now: int, w: Book)
      returns (marked: seq<nat>, paid: seq<nat>)
    requires Linked(v) && Sound(v, now) && AtCheckpoint(b, v, cutoff) && 0 <= v.checkpoints[|b.closings|].nav
    requires var c := |b.closings|;
             SettleCycle(v, c, c, v.checkpoints[c], v.liabilities[c], at, now) == Ok(w)
    ensures SettlementStated(v, w, |b.closings|, at, now, marked, paid)
  {
    hide Linked, Sound, PaidUp, MarkActiveReserves, MarkLiquidity, FinalizeMatured, Unused, PaidExactly, ListsReserved,
         MarksAdded, LiquidityStated, ListsPaid, PayablesAdded, LotsTaken, PaymentMoves, MaturedRequests;
    var c := |b.closings|;
    var cp, l := v.checkpoints[c], v.liabilities[c];
    SettledThrough(v, c, at, now);
    marked := MarksStated(v, c, at, now);
    ReserveStage(v, c, at, now);
    var reserved := MarkActiveReserves(v, c, c, cp, at).value;
    NothingPaidUp(v, reserved, c);
    LiquidityStage(reserved, c, cp, l, now);
    CheckpointOf(v, c, now);
    LiquidityOf(reserved, c, cp, l);
    var liquid := MarkLiquidity(reserved, c, c, cp, l).value;
    PaidUpFrame(reserved, liquid, c, MaturedTotal(v.payables));
    PaymentsStated(liquid, c, at, MaturedTotal(v.payables), now);
    paid := MaturedRequests(liquid.requests, liquid.reserveMarks, c, c, at);
    UnmarkedCycle(v, c);
    PaidAreListed(v.reserveMarks, reserved.reserveMarks, v.requests, c, cp.nav, cp.supply, marked, at);
    SameBeforePayments(v, liquid, w, c, cp.nav, cp.supply, paid);
    PaidRequests(v.requests, w.requests, paid);
  }

  lemma {:induction false} UnmarkedCycle(v: Book, c: nat)
    requires Unused(v, c)
    ensures forall k :: 0 <= k < |v.reserveMarks| ==> v.reserveMarks[k].cycle != c
  {
  }

  lemma {:induction false} PaidRequests(before: seq<Request>, after: seq<Request>, paid: seq<nat>)
    requires PaidExactly(before, after, paid)
    ensures |after| == |before|
    ensures forall r :: 0 <= r < |before| ==>
                          after[r] == if r in paid then before[r].(status := Claimable) else before[r]
  {
  }

  // ---------------------------------------------------------------- the closing state

  function ActivatedBy(d: Deposit, c: nat): int {
    if d.status == Active(c) then d.amount else 0
  }

  lemma {:induction false} ActivatedSum(deposits: seq<Deposit>, c: nat)
    ensures ActivatedAt(deposits, c) == Sum(deposits, d => ActivatedBy(d, c))
  {
    if deposits != [] {
      ActivatedSum(deposits[..|deposits| - 1], c);
    }
  }

  /** Every figure of the closing state; what a burn of all shares leaves of the value is withheld as dust. */
  ghost predicate ClosingStated(q: Closing, b: Book, w: Book, a: Book, c: nat, cp: Checkpoint, now: int) {
    && q.cycle == c && q.checkpoint == c && q.at == now
    && q.activated == Sum(a.deposits, d => ActivatedBy(d, c))
    && q.matured == Sum(a.payables, (p: Payable) => p.amount) - Sum(b.payables, (p: Payable) => p.amount)
    && q.dust == (if 0 < cp.supply && Sum(w.shareEvents, SharesOf) == 0 then cp.nav - q.matured else 0)
    && q.nav == cp.nav + q.activated - q.matured - q.dust && 0 <= q.nav
    && q.supply == Sum(a.shareEvents, SharesOf)
  }

  lemma {:induction false} ClosingIsStated(b: Book, w: Book, active: Book, c: nat, cp: Checkpoint, now: int)
    requires c < |w.checkpoints| && w.checkpoints[c] == cp && PaidUp(w, c, MaturedTotal(b.payables))
    requires active.payables == w.payables && active.reserveMarks == w.reserveMarks
    requires ClosingSound(ClosingNow(active, c, c, cp, now), cp, c)
    ensures var a := Shut(active, ClosingNow(active, c, c, cp, now), now);
            && |a.closings| == |active.closings| + 1 && active.closings <= a.closings
            && ClosingStated(a.closings[|active.closings|], b, w, a, c, cp, now)
  {
    ActivatedSum(active.deposits, c);
    MaturedSum(active.payables);
    MaturedSum(b.payables);
    SupplySum(active.shareEvents);
    SupplySum(w.shareEvents);
    hide Sum, ActivatedAt, MaturedTotal, MaturedAt, BurnedAt, Supply, Seal;
  }

  // ---------------------------------------------------------------- the whole close

  /** The tables that a close leaves as they were. */
  ghost predicate LeftAlone(b: Book, a: Book) {
    && a.vault == b.vault && a.depositKeys == b.depositKeys && a.waiting == b.waiting && a.reserves == b.reserves
  }

  /** What the close did after its payments left of them. */
  ghost predicate KeptSince(w: Book, a: Book) {
    && a.reserveMarks == w.reserveMarks && a.liquidity == w.liquidity && a.payables == w.payables
    && a.allocations == w.allocations && a.requests == w.requests && a.history == w.history
  }

  /** The day that is due: the day after the last one or, for the first close, today. */
  function DueDay(b: Book, now: int): int {
    if b.cycles == [] then now / 86400000 else b.cycles[|b.cycles| - 1].cutoff + 1
  }

  /** The book before the close, with the liability and the checkpoint that the close has recorded. */
  function Checkpointed(b: Book, a: Book): Book {
    b.(liabilities := a.liabilities, checkpoints := a.checkpoints)
  }

  /** Everything that a close has written, from event `first` on; `w` is the book after its payments. */
  ghost predicate CloseStated(b: Book, a: Book, input: CloseInput, now: int, p: Picked, first: nat, w: Book,
                              marked: seq<nat>, paid: seq<nat>, activated: seq<nat>)
  {
    var c, at := |b.closings|, input.snapshot.created;
    var waiting := b.deposits + FounderDeposits(b, a.inception);
    && c == |b.checkpoints| == |b.liabilities| == |b.liquidity| && a.clock == now && LeftAlone(b, a)
    && 0 < first && a.cycles == b.cycles + [Cycle(DueDay(b, now), Closed, first - 1)]
    && Recorded(b, a, c, input, p, first)
    && SettlementStated(Checkpointed(b, a), w, c, at, now, marked, paid) && KeptSince(w, a)
    && w.deposits == waiting && w.lots == b.lots && w.positions == b.positions
    && ListsEligible(waiting, activated, DueDay(b, now)) && MintsAdded(w, a, activated, c)
    && |w.shareEvents| <= |a.shareEvents|
    && FairlyShared(a.shareEvents[|w.shareEvents|..], a.checkpoints[c].nav, a.checkpoints[c].supply)
    && |a.closings| == c + 1 && b.closings <= a.closings
    && ClosingStated(a.closings[c], b, w, a, c, a.checkpoints[c], now)
  }

  /** The part of the close up to its checkpoint, in terms of the book before. */
  lemma {:induction false} ValuedStates(b: Book, cutoff: int, input: CloseInput, v: Book)
      returns (p: Picked, first: nat)
    requires ValuedFrom(b, cutoff, input) == Ok(v) && |b.liabilities| == |b.cycles|
    ensures Recorded(b, v, |b.cycles|, input, p, first)
    ensures 0 < first && v.cycles == b.cycles + [Cycle(cutoff, Open, first - 1)]
    ensures v.deposits == b.deposits + FounderDeposits(b, v.inception)
    ensures v == b.(events := v.events, inception := v.inception, deposits := v.deposits, cycles := v.cycles,
                    fees := v.fees, recognitions := v.recognitions, ticketMarks := v.ticketMarks,
                    liabilities := v.liabilities, checkpoints := v.checkpoints)
  {
    hide CheckpointCycle, Incepted, Recorded, OpenTickets, GrossMarks;
    var incepted := Incepted(b, input.snapshot).value;
    InceptionStated(b, input.snapshot);
    var recovery := if OnTime(input.snapshot, cutoff) then None else UsableRecovery(input, cutoff);
    var used := input.(recovery := recovery);
    var at := input.snapshot.created;
    p, first := CheckpointStates(b, incepted, cutoff, incepted.inception.value.at, used,
                                 GrossMarks(OpenTickets(input.tickets, at), at));
    RecordedWithout(b, v, |b.cycles|, input, recovery, p, first);
  }

  lemma {:induction false} RecordedWithout(b: Book, v: Book, c: nat, input: CloseInput, recovery: Option<Snapshot>,
                                           p: Picked, first: nat)
    requires Recorded(b, v, c, input.(recovery := recovery), p, first)
    ensures Recorded(b, v, c, input, p, first)
  {
    hide Picks, FeeRows, RecognitionRows, MarkRows, Sum;
  }

  lemma {:induction false} RecordedLater(b: Book, v: Book, a: Book, c: nat, input: CloseInput, p: Picked, first: nat)
    requires Recorded(b, v, c, input, p, first)
    requires a.inception == v.inception && a.fees == v.fees && a.recognitions == v.recognitions
    requires a.ticketMarks == v.ticketMarks && a.liabilities == v.liabilities && a.checkpoints == v.checkpoints
    ensures Recorded(b, a, c, input, p, first)
  {
    hide Picks, FeeRows, RecognitionRows, MarkRows, Sum, LiabilityStated, CheckpointStated, Begins, AllPicked;
  }

  lemma {:induction false} SettlementOfBook(b: Book, v: Book, a: Book, w: Book, c: nat, at: int, now: int,
                                            marked: seq<nat>, paid: seq<nat>)
    requires c < |v.checkpoints| && c < |v.liabilities| && SettlementStated(v, w, c, at, now, marked, paid)
    requires v == b.(events := v.events, inception := v.inception, deposits := v.deposits, cycles := v.cycles,
                     fees := v.fees, recognitions := v.recognitions, ticketMarks := v.ticketMarks,
                     liabilities := v.liabilities, checkpoints := v.checkpoints)
    requires a.liabilities == v.liabilities && a.checkpoints == v.checkpoints
    ensures SettlementStated(Checkpointed(b, a), w, c, at, now, marked, paid)
  {
    hide UnderWay, MarksAdded, LiquidityStated, ListsPaid, PaymentAdded, PaymentMoves, Fresh, BurnTaken;
  }

  lemma {:induction false} MintsLater(w: Book, active: Book, a: Book, rows: seq<nat>, c: nat)
    requires MintsAdded(w, active, rows, c)
    requires a.shareEvents == active.shareEvents && a.lots == active.lots && a.deposits == active.deposits
    requires a.positions == active.positions
    ensures MintsAdded(w, a, rows, c)
  {
    hide MintAdded;
  }

  lemma {:induction false} ClosedCycles(cycles: seq<Cycle>, cutoff: int, event: nat)
    requires forall i :: 0 <= i < |cycles| ==> cycles[i].status == Closed
    ensures CycleClosedIn(cycles + [Cycle(cutoff, Open, event)], |cycles|) == cycles + [Cycle(cutoff, Closed, event)]
  {
  }

  lemma {:induction false} BookSizes(b: Book)
    requires Consistent(b)
    ensures |b.cycles| == |b.checkpoints| == |b.liquidity| == |b.closings| == |b.liabilities|
    ensures forall i :: 0 <= i < |b.cycles| ==> b.cycles[i].status == Closed
  {
    hide Linked, SinceClose, LotBook, QueueSound, MarksSound, PayablesSound, DepositsSound, FeesSound, HistorySound,
         BurnsMatched, CheckpointSound, ClosingSound;
  }

  /** The closing book beside the stages that led to it. */
  lemma {:induction false} EndedTables(b: Book, s: Stages)
    requires |b.closings| < |s.valued.checkpoints|
    ensures var a := Ended(b, s);
            && a == s.active.(events := a.events, closings := a.closings, cycles := a.cycles, clock := s.now)
            && a.cycles == CycleClosedIn(s.active.cycles, |b.closings|)
  {
    hide Seal, CycleClosedIn;
  }

  /**
   What a close that goes through records: the inception, fees, settlements and ticket marks; every figure of liability,
   checkpoint and liquidity; the marks of the requests under way and the payments, burns and lots of those that are
   over; the activations with their shares; and every figure of the closing state.
   */
  lemma {:induction false} CloseStates(b: Book, tick: Positive, input: CloseInput)
      returns (p: Picked, first: nat, w: Book, marked: seq<nat>, paid: seq<nat>, activated: seq<nat>)
    requires Consistent(b) && CloseDue(b, tick, input).Ok?
    ensures CloseStated(b, CloseDue(b, tick, input).value, input, b.clock + tick, p, first, w, marked, paid, activated)
  {
    hide Consistent, CloseDue, ValuedFrom, Linked, Sound, PaidUp, PaidExactly, PaidInOrder, Collateralized, Ended,
         Recorded, SettlementStated, MintsAdded, FairlyShared, ListsEligible, ClosingStated, MarkActiveReserves,
         MaturedRequests, SettleCycle, ActivateDeposits, ClosingNow, Unused, ClosingSound;
    BookSizes(b);
    var s := CloseDueStages(b, tick, input);
    var c, at, v := |b.closings|, input.snapshot.created, s.valued;
    var a, cp := Ended(b, s), v.checkpoints[c];
    p, first := ValuedStates(b, s.cutoff, input, v);
    w := s.settled;
    marked, paid := SettlementStates(b, v, s.cutoff, at, s.now, w);
    activated := ActivationsWritten(w, s.cutoff, c, cp);
    EndedTables(b, s);
    RecordedLater(b, v, a, c, input, p, first);
    SettlementOfBook(b, v, a, w, c, at, s.now, marked, paid);
    MintsLater(w, s.active, a, activated, c);
    ClosedCycles(b.cycles, s.cutoff, first - 1);
    EndedClosing(b, s);
    ClosingIsStated(b, w, s.active, c, cp, s.now);
    EndedIsShut(b, s);
  }

  lemma {:induction false} EndedIsShut(b: Book, s: Stages)
    requires |b.closings| < |s.valued.checkpoints|
    ensures var c := |b.closings|;
            Ended(b, s) == Shut(s.active, ClosingNow(s.active, c, c, s.valued.checkpoints[c], s.now), s.now)
  {
    hide Shut, ClosingNow;
  }

  lemma {:induction false} EndedClosing(b: Book, s: Stages)
    requires Consistent(b) && |b.closings| < |s.valued.checkpoints| && Consistent(Ended(b, s))
    requires s.active.closings == b.closings && s.active.checkpoints == s.valued.checkpoints
    ensures var c := |b.closings|;
            ClosingSound(ClosingNow(s.active, c, c, s.valued.checkpoints[c], s.now), s.valued.checkpoints[c], c)
  {
    hide Linked, Sound, Aligned, SinceClose, ClosingNow, ClosingSound;
    var a, c := Ended(b, s), |b.closings|;
    assert ClosingSound(a.closings[c], a.checkpoints[c], c);
    ClosingEvent(ClosingNow(s.active, c, c, s.valued.checkpoints[c], s.now), a.closings[c], s.valued.checkpoints[c], c);
  }

  lemma {:induction false} ClosingEvent(q: Closing, row: Closing, cp: Checkpoint, c: nat)
    requires ClosingSound(row, cp, c) && row == q.(event := row.event)
    ensures ClosingSound(q, cp, c)
  {
  }

  // ---------------------------------------------------------------- when a close is due

  /** The state of the source that is offered as proof that nothing has changed since the cutoff. */
  predicate Recovers(before: Snapshot, s: Snapshot, day: int) {
    && before.trusted && before.bookVersion == s.bookVersion && before.stateHash == s.stateHash
    && before.observed <= before.created && before.created <= day * 86400000
  }

  /**
   A close is due on a trusted snapshot of the present financial version that was observed and stored since the day
   began, and within five minutes of that, unless a snapshot from before shows that nothing has changed.
   */
  lemma {:induction false} DueMeans(b: Book, tick: Positive, input: CloseInput)
    ensures var now, s := b.clock + tick, input.snapshot;
            var day := DueDay(b, now);
            var due := && s.trusted && s.bookVersion == input.financialVersion
                       && day * 86400000 <= s.observed && s.observed <= s.created && s.created <= now
                       && day * 86400000 <= now
                       && (s.created <= day * 86400000 + 300000
                           || (input.recovery.Some? && Recovers(input.recovery.value, s, day)));
            && (!due ==> CloseDue(b, tick, input) == Err(NotDue))
            && (due ==> CloseDue(b, tick, input) == CloseFrom(b, now, day, input))
  {
    hide CloseFrom;
    var now := b.clock + tick;
    FloorBounds(now, DAY_MS);
  }
}
