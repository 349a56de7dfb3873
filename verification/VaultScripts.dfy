/** The operations that the example runs are made of: a first close, and a redemption that is asked for and admitted. */
module VaultScripts {
  import opened Common
  import opened VaultTables
  import opened VaultSteps
  import opened VaultConsistency
  import opened VaultQuiet
  import opened VaultAllPaid
  import ShareMint
  import VaultRuns

  /** What one micro-unit is first minted: the scale of a share over the scale of the currency. */
  const FIRST_SHARES: nat := 1_000_000_000_000

  lemma {:induction false} FirstPrice(amount: nat)
    ensures amount * ShareMint.MintMultiplier(0) / ShareMint.MintDenominator(0, 0) == amount * FIRST_SHARES
  {
  }

  // ---------------------------------------------------------------- a first close

  /** The vault's first close, half a minute into the first day. */
  function Opening(treasury: nat): Step {
    CloseStep(DAY_MS + 60_000, QuietInput(FirstTaken(treasury), None))
  }

  function FirstTaken(treasury: nat): Snapshot {
    Taken(0, 0, DAY_MS + 30_000, treasury)
  }

  /** A vault that only holds its founder's seed. */
  ghost predicate Founded(b: Book, seed: nat) {
    && Consistent(b) && b.clock == DAY_MS + 60_000 && b.fees == [] && b.requests == [] && b.reserves == []
    && b.payables == [] && b.inception.Some? && b.depositKeys == map[]
    && |b.closings| == |b.cycles| == 1 && b.cycles[0].cutoff == 1 && NoDust(b.closings)
    && |b.deposits| == 1 && b.deposits[0].status == Active(0) && b.deposits[0].amount == seed
    && b.deposits[0].source == FOUNDER_SOURCE && b.positions == {FOUNDER_USER}
    && |b.shareEvents| == 1 && Minted(b.shareEvents[0], FOUNDER_USER, seed * FIRST_SHARES)
  }

  predicate Minted(e: ShareEvent, user: nat, shares: int) {
    e.cause.MintOf? && e.user == user && e.shares == shares
  }

  lemma {:induction false} Opens(vault: nat, seed: Positive) returns (b: Book)
    ensures Run(vault, [Opening(seed)]) == b && Founded(b, seed)
  {
    hide Consistent, CloseDue, Incepted, EligibleDeposits, QuietNav, Supply;
    var empty := EmptyBook(vault);
    EmptyIsConsistent(vault);
    FirstEligible(vault, seed);
    FirstPrice(seed);
    b := MintingClose(empty, DAY_MS + 60_000, FirstTaken(seed), 0, seed * FIRST_SHARES);
    assert [Opening(seed)][..0] == [];
  }

  lemma {:induction false} FirstEligible(vault: nat, seed: Positive)
    ensures Incepted(EmptyBook(vault), FirstTaken(seed)).Ok? && Supply([]) == 0
    ensures var incepted := Incepted(EmptyBook(vault), FirstTaken(seed)).value;
            && |incepted.deposits| == 1 && incepted.deposits[0].user == FOUNDER_USER
            && incepted.deposits[0].amount == seed && incepted.deposits[0].source == FOUNDER_SOURCE
            && incepted.deposits[0].status == Pending
            && EligibleDeposits(incepted.deposits, 1) == [0] && QuietNav(incepted, seed) == 0
  {
    hide EligibleDeposits, PendingTotal, MaturedTotal, Supply;
    OnlyPending(Incepted(EmptyBook(vault), FirstTaken(seed)).value.deposits, 1);
    Nothing();
  }

  lemma {:induction false} OnlyPending(deposits: seq<Deposit>, cutoff: int)
    requires |deposits| == 1 && deposits[0].status == Pending && deposits[0].eligible <= cutoff
    ensures EligibleDeposits(deposits, cutoff) == [0] && PendingTotal(deposits) == deposits[0].amount
  {
    assert deposits[..0] == [] && PendingTotal([]) == 0;
    SelectAll(1, (i: nat) => i < |deposits| && deposits[i].status == Pending && deposits[i].eligible <= cutoff);
  }

  // ---------------------------------------------------------------- asking and being admitted

  lemma {:induction false} NothingAsked(requests: seq<Request>, user: nat, key: string)
    requires forall r :: 0 <= r < |requests| ==> requests[r].user != user
    ensures FindRequest(requests, user, key) == None && !HasOpenRequest(requests, user)
  {
    if requests != [] {
      NothingAsked(requests[..|requests| - 1], user, key);
    }
  }

  lemma {:induction false} NothingReserved(reserves: seq<Reserve>, requests: seq<Request>, user: nat)
    requires forall r :: 0 <= r < |requests| ==> requests[r].user != user
    ensures ReservedShares(reserves, requests, user) == 0
  {
    if reserves != [] {
      NothingReserved(reserves[..|reserves| - 1], requests, user);
    }
  }

  lemma {:induction false} OnlyHead(requests: seq<Request>, request: Request)
    requires forall r :: 0 <= r < |requests| ==> !InQueue(requests[r].status)
    requires InQueue(request.status)
    ensures FirstInQueue(requests + [request]) == Some(|requests|)
  {
    NobodyWaits(requests);
    Snoc(requests, request);
  }

  lemma {:induction false} NobodyWaits(requests: seq<Request>)
    requires forall r :: 0 <= r < |requests| ==> !InQueue(requests[r].status)
    ensures FirstInQueue(requests) == None
  {
    if requests != [] {
      NobodyWaits(requests[..|requests| - 1]);
    }
  }

  /** What asking for a redemption and being admitted leaves as it was. */
  ghost predicate Asked(b: Book, after: Book, user: nat, shares: int, reconciliation: nat) {
    && Consistent(after) && after.clock == b.clock + 2 && after.fees == b.fees && after.inception == b.inception
    && after.deposits == b.deposits && after.payables == b.payables && after.cycles == b.cycles
    && after.closings == b.closings && after.shareEvents == b.shareEvents && after.positions == b.positions
    && |after.reserves| == |b.reserves| + 1 && after.reserves[..|b.reserves|] == b.reserves
    && after.reserves[|b.reserves|].reconciliation == reconciliation
    && |after.requests| == |b.requests| + 1 && after.requests[..|b.requests|] == b.requests
    && var r := after.requests[|b.requests|];
       r.user == user && r.shares == shares && r.status == Redeeming && r.endsAt == after.clock + REDEMPTION_WINDOW_MS
  }

  function Asking(user: nat, shares: int): Step {
    RequestStep(1, user, shares, "redeem")
  }

  function Admitting(reconciliation: nat, capacity: Capacity): Step {
    AdmitStep(1, reconciliation, Some(capacity))
  }

  /** A holder without requests asks when nobody waits, and is admitted next. */
  lemma {:induction false} AskAndAdmit(b: Book, user: nat, shares: Positive, reconciliation: nat, capacity: Capacity)
      returns (after: Book)
    requires Consistent(b) && b.closings != [] && user in b.positions && shares <= Balance(b.shareEvents, user)
    requires forall r :: 0 <= r < |b.requests| ==> b.requests[r].user != user && !InQueue(b.requests[r].status)
    requires capacity.required <= capacity.available && !EvidenceUsed(b.reserves, reconciliation)
    ensures Apply(Apply(b, Asking(user, shares)), Admitting(reconciliation, capacity)) == after
    ensures Asked(b, after, user, shares, reconciliation)
  {
    hide Consistent, EvidenceUsed, ReservedShares, Balance, FirstInQueue, FindRequest, HasOpenRequest, InQueue;
    NothingAsked(b.requests, user, "redeem");
    NothingReserved(b.reserves, b.requests, user);
    var asked := Requested(b, Request(user, shares, "redeem", Queued, 0, 0, 0), b.clock + 1);
    assert Attempt(b, Asking(user, shares)) == Ok(asked);
    VaultRuns.StepConsistent(b, Asking(user, shares));
    var request := asked.requests[|b.requests|];
    QueuedWaits(request);
    OnlyHead(b.requests, request);
    after := Apply(asked, Admitting(reconciliation, capacity));
    VaultRuns.StepConsistent(asked, Admitting(reconciliation, capacity));
  }

  lemma {:induction false} QueuedWaits(request: Request)
    requires request.status == Queued
    ensures InQueue(request.status)
  {
  }

  lemma {:induction false} RunStep(vault: nat, steps: seq<Step>, k: nat)
    requires k < |steps|
    ensures Run(vault, steps[..k + 1]) == Apply(Run(vault, steps[..k]), steps[k])
  {
    hide Apply;
    assert steps[..k + 1] == steps[..k] + [steps[k]];
    Snoc(steps[..k], steps[k]);
  }

  /** What the single holder of a vault has. */
  lemma {:induction false} SoleHolding(shareEvents: seq<ShareEvent>, user: nat, shares: int)
    requires |shareEvents| == 1 && Minted(shareEvents[0], user, shares)
    ensures Balance(shareEvents, user) == shares == Supply(shareEvents)
  {
    assert shareEvents[..0] == [];
  }

  lemma {:induction false} Nothing()
    ensures MaturedTotal([]) == 0 && Supply([]) == 0
  {
  }
}
