/** Retries over whole runs: what a key was used for stays, and repeating it later changes nothing. */
module VaultRetries {
  import opened Common
  import opened VaultTables
  import opened VaultSteps
  import opened VaultConsistency
  import opened VaultRequests
  import VaultLifecycle
  import VaultMints
  import VaultRuns
  import VaultStatement

  // ---------------------------------------------------------------- deposits

  /** No deposit is lost or rewritten but for its status, and a key keeps its row. */
  ghost predicate DepositsKept(b: Book, after: Book) {
    && |b.deposits| <= |after.deposits|
    && (forall i :: 0 <= i < |b.deposits| ==>
          && after.deposits[i].user == b.deposits[i].user && after.deposits[i].amount == b.deposits[i].amount
          && after.deposits[i].source == b.deposits[i].source)
    && (forall key :: key in b.depositKeys ==> key in after.depositKeys && after.depositKeys[key] == b.depositKeys[key])
  }

  /** Nothing is deposited before the inception, and no source is used twice. */
  ghost predicate SourcesOnce(b: Book) {
    && (b.inception.None? ==> b.deposits == [])
    && forall i, j :: 0 <= i < j < |b.deposits| ==> b.deposits[i].source != b.deposits[j].source
  }

  lemma {:induction false} DepositsKeptTwice(a: Book, b: Book, c: Book)
    requires DepositsKept(a, b) && DepositsKept(b, c)
    ensures DepositsKept(a, c)
  {
  }

  /** The same deposits but for their status. */
  ghost predicate OnlyStatus(after: seq<Deposit>, before: seq<Deposit>) {
    && |after| == |before|
    && forall i :: 0 <= i < |before| ==>
         && after[i].user == before[i].user && after[i].amount == before[i].amount
         && after[i].source == before[i].source
  }

  lemma {:induction false} MintsKeepDeposits(b: Book, after: Book, rows: seq<nat>, c: nat)
    requires VaultMints.MintsAdded(b, after, rows, c)
    ensures OnlyStatus(after.deposits, b.deposits)
  {
    hide VaultMints.MintAdded;
  }

  lemma {:induction false} CloseTables(b: Book, tick: Positive, input: CloseInput)
    requires Consistent(b) && CloseDue(b, tick, input).Ok?
    ensures var a := CloseDue(b, tick, input).value;
            && a.depositKeys == b.depositKeys && a.inception.Some?
            && OnlyStatus(a.deposits, b.deposits + VaultStatement.FounderDeposits(b, a.inception))
  {
    hide Consistent, CloseDue;
    var p, first, w, marked, paid, activated := VaultStatement.CloseStates(b, tick, input);
    MintsKeepDeposits(w, CloseDue(b, tick, input).value, activated, |b.closings|);
    hide VaultStatement.LiabilityStated, VaultStatement.CheckpointStated, VaultStatement.AllPicked,
         VaultStatement.Begins, VaultStatement.SettlementStated, VaultStatement.ClosingStated,
         VaultStatement.KeptSince, VaultMints.ListsEligible, VaultMints.FairlyShared, VaultMints.MintsAdded, OnlyStatus;
  }

  lemma {:induction false} StatusKeepsDeposits(b: Book, after: Book)
    requires after.depositKeys == b.depositKeys && after.inception.Some?
    requires OnlyStatus(after.deposits, b.deposits + VaultStatement.FounderDeposits(b, after.inception))
    ensures DepositsKept(b, after) && (SourcesOnce(b) ==> SourcesOnce(after))
  {
  }

  /** A close changes the status of deposits at most, and adds the founder's deposit if it is the first. */
  lemma {:induction false} CloseKeepsDeposits(b: Book, tick: Positive, input: CloseInput)
    requires Consistent(b) && CloseDue(b, tick, input).Ok?
    ensures var after := CloseDue(b, tick, input).value;
            DepositsKept(b, after) && (SourcesOnce(b) ==> SourcesOnce(after))
  {
    hide Consistent, CloseDue, OnlyStatus, DepositsKept, SourcesOnce;
    CloseTables(b, tick, input);
    StatusKeepsDeposits(b, CloseDue(b, tick, input).value);
  }

  lemma {:induction false} RecordKeepsDeposits(b: Book, tick: Positive, user: nat, amount: int, source: string,
                                               key: string)
    requires RecordDeposit(b, tick, user, amount, source, key).Ok?
    ensures var after := RecordDeposit(b, tick, user, amount, source, key).value;
            && DepositsKept(b, after) && (SourcesOnce(b) ==> SourcesOnce(after))
            && key in after.depositKeys
            && var i := after.depositKeys[key];
               && i < |after.deposits| && after.deposits[i].user == user && after.deposits[i].amount == amount
               && after.deposits[i].source == source
  {
    DepositEnds(b, tick, user, amount, source, key);
    hide RecordDeposit;
  }

  lemma {:induction false} AdmitKeepsTables(b: Book, tick: Positive, reconciliation: nat, capacity: Option<Capacity>)
    requires AdmitNext(b, tick, reconciliation, capacity).Ok?
    ensures var after := AdmitNext(b, tick, reconciliation, capacity).value;
            && after.deposits == b.deposits && after.depositKeys == b.depositKeys && after.inception == b.inception
            && |after.requests| == |b.requests|
  {
    var r := HeadExists(b.requests);
    AdmissionEnds(b, tick, reconciliation, capacity, r);
    hide AdmitNext, HeadOfQueue;
  }

  lemma {:induction false} HeadExists(requests: seq<Request>) returns (r: nat)
    ensures HeadOfQueue(requests, r)
  {
    r := 0;
    while r < |requests| && !Waits(requests[r].status)
      invariant r <= |requests| && forall k :: 0 <= k < r ==> !Waits(requests[k].status)
    {
      r := r + 1;
    }
  }

  lemma {:induction false} StepKeepsDeposits(b: Book, step: Step)
    requires Consistent(b)
    ensures DepositsKept(b, Apply(b, step)) && (SourcesOnce(b) ==> SourcesOnce(Apply(b, step)))
  {
    hide Consistent, CloseDue, AdmitNext, RequestRedemption, RecordDeposit;
    if Attempt(b, step).Ok? {
      match step
      case DepositStep(tick, user, amount, source, key) => RecordKeepsDeposits(b, tick, user, amount, source, key);
      case RequestStep(tick, user, shares, key) => RequestKeepsTables(b, tick, user, shares, key);
      case AdmitStep(tick, reconciliation, capacity) => AdmitKeepsTables(b, tick, reconciliation, capacity);
      case CloseStep(tick, input) => CloseKeepsDeposits(b, tick, input);
    }
  }

  lemma {:induction false} RunKeepsDeposits(vault: nat, steps: seq<Step>, k: nat)
    requires k <= |steps|
    ensures DepositsKept(Run(vault, steps[..k]), Run(vault, steps))
    decreases |steps|
  {
    hide Apply, DepositsKept;
    if k == |steps| {
      assert steps[..k] == steps;
      SameDeposits(Run(vault, steps));
    } else {
      var init := steps[..|steps| - 1];
      RunKeepsDeposits(vault, init, k);
      assert init[..k] == steps[..k];
      VaultRuns.RunConsistent(vault, init);
      StepKeepsDeposits(Run(vault, init), steps[|steps| - 1]);
      DepositsKeptTwice(Run(vault, steps[..k]), Run(vault, init), Run(vault, steps));
    }
  }

  lemma {:induction false} SameDeposits(b: Book)
    ensures DepositsKept(b, b)
  {
  }

  /** After every run no source has paid for two deposits, whatever keys were used. */
  lemma {:induction false} SourcesFundOnce(vault: nat, steps: seq<Step>)
    ensures SourcesOnce(Run(vault, steps))
  {
    if steps != [] {
      hide Apply, SourcesOnce;
      var init := steps[..|steps| - 1];
      SourcesFundOnce(vault, init);
      VaultRuns.RunConsistent(vault, init);
      StepKeepsDeposits(Run(vault, init), steps[|steps| - 1]);
    }
  }

  /**
   Once a deposit was recorded, at whatever later time and after whatever operations: the same deposit under its key
   changes nothing, and another one under that key is refused.
   */
  lemma {:induction false} DepositsAreIdempotent(vault: nat, steps: seq<Step>, k: nat, tick: Positive, user: nat,
                                                 amount: int, source: string)
    requires k < |steps| && steps[k].DepositStep? && Attempt(Run(vault, steps[..k]), steps[k]).Ok?
    ensures var b, was := Run(vault, steps), steps[k];
            RecordDeposit(b, tick, user, amount, source, was.key)
            == (if amount <= 0 then Err(InvalidDepositAmount)
                else if !(1 <= |source| <= 300) then Err(InvalidDepositSource)
                else if user == was.user && amount == was.amount && source == was.source then Ok(b)
                else Err(IdempotencyConflict))
  {
    var b, was, before := Run(vault, steps), steps[k], Run(vault, steps[..k]);
    assert steps[..k + 1][..k] == steps[..k];
    RecordKeepsDeposits(before, was.tick, was.user, was.amount, was.source, was.key);
    DepositEnds(before, was.tick, was.user, was.amount, was.source, was.key);
    RunKeepsDeposits(vault, steps, k + 1);
    assert Run(vault, steps[..k + 1]) == Attempt(before, was).value;
    DepositEnds(b, tick, user, amount, source, was.key);
    hide RecordDeposit, Run, LogGrows, Chains;
  }

  // ---------------------------------------------------------------- redemption requests

  /** Nobody has two requests under one key. */
  ghost predicate RequestsOnce(requests: seq<Request>) {
    forall i, j :: 0 <= i < j < |requests| ==>
      requests[i].user != requests[j].user || requests[i].key != requests[j].key
  }

  lemma {:induction false} RequestExists(requests: seq<Request>, user: nat, key: string) returns (i: nat)
    ensures RequestOf(requests, user, key, i)
  {
    i := |requests|;
    while 0 < i && !(requests[i - 1].user == user && requests[i - 1].key == key)
      invariant i <= |requests|
      invariant forall k :: i <= k < |requests| ==> !(requests[k].user == user && requests[k].key == key)
    {
      i := i - 1;
    }
    i := if i == 0 then |requests| else i - 1;
  }

  lemma {:induction false} RequestKeepsTables(b: Book, tick: Positive, user: nat, shares: int, key: string)
    requires RequestRedemption(b, tick, user, shares, key).Ok?
    ensures var after := RequestRedemption(b, tick, user, shares, key).value;
            && after.deposits == b.deposits && after.depositKeys == b.depositKeys && after.inception == b.inception
            && (RequestsOnce(b.requests) ==> RequestsOnce(after.requests))
            && exists i :: 0 <= i < |after.requests| && after.requests[i].user == user && after.requests[i].key == key
                           && after.requests[i].shares == shares
  {
    var i := RequestExists(b.requests, user, key);
    RequestEnds(b, tick, user, shares, key, i);
    hide RequestRedemption, Holding, HeldBack, LogGrows, Chains;
    assert RequestRedemption(b, tick, user, shares, key).value.requests[i].key == key;
  }

  lemma {:induction false} StepKeepsRequests(b: Book, step: Step)
    requires Consistent(b)
    ensures RequestsOnce(b.requests) ==> RequestsOnce(Apply(b, step).requests)
  {
    hide Consistent, CloseDue, AdmitNext, RequestRedemption, RecordDeposit;
    VaultLifecycle.StepForward(b, step);
    if Attempt(b, step).Ok? {
      match step
      case DepositStep(tick, user, amount, source, key) => DepositEnds(b, tick, user, amount, source, key);
      case RequestStep(tick, user, shares, key) => RequestKeepsTables(b, tick, user, shares, key);
      case AdmitStep(tick, reconciliation, capacity) => AdmitKeepsTables(b, tick, reconciliation, capacity);
      case CloseStep(tick, input) => VaultLifecycle.ClosePaysMatured(b, tick, input);
    }
  }

  /** After every run nobody has two requests under one key. */
  lemma {:induction false} KeysAskOnce(vault: nat, steps: seq<Step>)
    ensures RequestsOnce(Run(vault, steps).requests)
  {
    if steps != [] {
      hide Apply, RequestsOnce;
      var init := steps[..|steps| - 1];
      KeysAskOnce(vault, init);
      VaultRuns.RunConsistent(vault, init);
      StepKeepsRequests(Run(vault, init), steps[|steps| - 1]);
    } else {
      assert Run(vault, steps).requests == [];
    }
  }

  /**
   Once a redemption was requested, at whatever later time and after whatever operations, its own payment included: the
   same request under its key changes nothing, and one for another number of shares is refused.
   */
  lemma {:induction false} RequestsAreIdempotent(vault: nat, steps: seq<Step>, k: nat, tick: Positive, shares: int)
    requires k < |steps| && steps[k].RequestStep? && Attempt(Run(vault, steps[..k]), steps[k]).Ok?
    ensures var b, was := Run(vault, steps), steps[k];
            RequestRedemption(b, tick, was.user, shares, was.key)
            == (if shares <= 0 then Err(InvalidRedemptionShares)
                else if shares == was.shares then Ok(b)
                else Err(RedemptionIdempotencyConflict))
  {
    var b, was, before := Run(vault, steps), steps[k], Run(vault, steps[..k]);
    assert steps[..k + 1][..k] == steps[..k];
    RequestKeepsTables(before, was.tick, was.user, was.shares, was.key);
    var after := RequestRedemption(before, was.tick, was.user, was.shares, was.key).value;
    assert Run(vault, steps[..k + 1]) == after;
    var i :| 0 <= i < |after.requests| && after.requests[i].user == was.user && after.requests[i].key == was.key
             && after.requests[i].shares == was.shares;
    VaultLifecycle.StatusesOnlyMoveForward(vault, steps, k + 1);
    KeysAskOnce(vault, steps);
    var j := RequestExists(b.requests, was.user, was.key);
    assert j == i;
    var l := RequestExists(before.requests, was.user, was.key);
    RequestEnds(before, was.tick, was.user, was.shares, was.key, l);
    RequestEnds(b, tick, was.user, shares, was.key, j);
    hide RequestRedemption, Run, Holding, HeldBack, LogGrows, Chains;
  }
}
