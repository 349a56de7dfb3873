/** A redemption request over whole runs: its status only moves forward, and it is paid after its window. */
module VaultLifecycle {
  import opened Common
  import opened VaultTables
  import opened VaultReplay
  import opened VaultInvariant
  import opened VaultSteps
  import opened VaultConsistency
  import opened VaultCycle
  import VaultPaying
  import VaultRuns

  function Rank(status: Status): nat {
    match status
    case Queued => 0
    case WaitingLiquidity => 1
    case Admitted => 2
    case Redeeming => 3
    case Finalized => 4
    case Claimable => 5
    case Canceled => 6
  }

  /** No request is lost or rewritten, and none moves back. */
  ghost predicate Forward(before: seq<Request>, after: seq<Request>) {
    && |before| <= |after|
    && (forall r :: 0 <= r < |before| ==>
          && after[r].user == before[r].user && after[r].shares == before[r].shares && after[r].key == before[r].key
          && Rank(before[r].status) <= Rank(after[r].status))
  }

  lemma {:induction false} ForwardTwice(a: seq<Request>, b: seq<Request>, c: seq<Request>)
    requires Forward(a, b) && Forward(b, c)
    ensures Forward(a, c)
  {
  }

  // ---------------------------------------------------------------- operation by operation

  lemma {:induction false} RequestForward(b: Book, tick: Positive, user: nat, shares: int, key: string)
    requires RequestRedemption(b, tick, user, shares, key).Ok?
    ensures Forward(b.requests, RequestRedemption(b, tick, user, shares, key).value.requests)
  {
    RequestOutcome(b, tick, user, shares, key);
  }

  lemma {:induction false} AdmitForward(b: Book, tick: Positive, reconciliation: nat, capacity: Option<Capacity>)
    requires AdmitNext(b, tick, reconciliation, capacity).Ok?
    ensures Forward(b.requests, AdmitNext(b, tick, reconciliation, capacity).value.requests)
  {
    hide Admission, Postponed;
    AdmissionOutcome(b, tick, reconciliation, capacity);
    var head, now := FirstInQueue(b.requests), b.clock + tick;
    if b.closings != [] && head.Some? && capacity.Some? {
      AdmissionTables(b, head.value, reconciliation, capacity.value, now);
      PostponedTables(b, head.value, reconciliation, capacity.value, now);
    }
  }

  /**
   A close pays exactly the requests whose window was over by the snapshot and which its
   checkpoint marked; it changes no other request.
   */
  lemma {:induction false} ClosePaysMatured(b: Book, tick: Positive, input: CloseInput)
    requires Consistent(b) && CloseDue(b, tick, input).Ok?
    ensures var after, c := CloseDue(b, tick, input).value, |b.closings|;
            && |after.requests| == |b.requests|
            && (forall r :: 0 <= r < |b.requests| ==>
                  var paid := && b.requests[r].status == Redeeming && b.requests[r].endsAt <= input.snapshot.created
                              && MarkOf(after.reserveMarks, c, r).Some?
                              && after.reserveMarks[MarkOf(after.reserveMarks, c, r).value].checkpoint == c;
                  after.requests[r] == if paid then b.requests[r].(status := Claimable) else b.requests[r])
  {
    hide Consistent, CloseDue, Linked, Sound, ClosingNow, VaultPaying.PaidUp, Collateralized, MarkActiveReserves;
    var c, at := |b.closings|, input.snapshot.created;
    var s := CloseDueStages(b, tick, input);
    var marks := s.settled.reserveMarks;
    forall r | 0 <= r < |b.requests|
      ensures r in MaturedRequests(b.requests, marks, c, c, at) <==> Matured(b.requests, marks, c, c, at, r)
    {
      MaturedListed(b.requests, marks, c, at, r);
    }
  }

  lemma {:induction false} MaturedListed(requests: seq<Request>, marks: seq<ReserveMark>, c: nat, at: int, r: nat)
    requires r < |requests|
    ensures r in MaturedRequests(requests, marks, c, c, at) <==> Matured(requests, marks, c, c, at, r)
  {
    var matured := (r: nat) => Matured(requests, marks, c, c, at, r);
    SelectOrdered(|requests|, matured);
    if matured(r) {
      SelectComplete(|requests|, matured, r);
    }
  }

  lemma {:induction false} CloseForward(b: Book, tick: Positive, input: CloseInput)
    requires Consistent(b) && CloseDue(b, tick, input).Ok?
    ensures Forward(b.requests, CloseDue(b, tick, input).value.requests)
  {
    hide Consistent, CloseDue;
    ClosePaysMatured(b, tick, input);
  }

  lemma {:induction false} StepForward(b: Book, step: Step)
    requires Consistent(b)
    ensures Forward(b.requests, Apply(b, step).requests)
  {
    hide Consistent, CloseDue, AdmitNext, RequestRedemption;
    if Attempt(b, step).Ok? {
      match step
      case DepositStep(tick, user, amount, source, key) =>
      case RequestStep(tick, user, shares, key) => RequestForward(b, tick, user, shares, key);
      case AdmitStep(tick, reconciliation, capacity) => AdmitForward(b, tick, reconciliation, capacity);
      case CloseStep(tick, input) => CloseForward(b, tick, input);
    }
  }

  // ---------------------------------------------------------------- over runs

  /** Over any run, a request's status only moves forward. */
  lemma {:induction false} StatusesOnlyMoveForward(vault: nat, steps: seq<Step>, k: nat)
    requires k <= |steps|
    ensures Forward(Run(vault, steps[..k]).requests, Run(vault, steps).requests)
    decreases |steps|
  {
    hide Apply;
    if k == |steps| {
      assert steps[..k] == steps;
    } else {
      var init := steps[..|steps| - 1];
      StatusesOnlyMoveForward(vault, init, k);
      assert init[..k] == steps[..k];
      VaultRuns.RunConsistent(vault, init);
      StepForward(Run(vault, init), steps[|steps| - 1]);
      ForwardTwice(Run(vault, steps[..k]).requests, Run(vault, init).requests, Run(vault, steps).requests);
    }
  }
}
