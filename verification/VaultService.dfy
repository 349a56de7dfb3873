/** The repository as its callers meet it: consistent before every call, and consistent after. */
module VaultService {
  import opened Common
  import opened VaultTables
  import opened VaultSteps
  import opened VaultConsistency
  import opened VaultLedger
  import VaultRuns

  /** Any operation, run against the tables: a step of the specification, and consistency is kept. */
  method Perform(ledger: Ledger, step: Step) returns (fault: Option<Fault>)
    requires Consistent(ledger.View())
    modifies ledger
    ensures ledger.View() == Apply(old(ledger.View()), step) && Consistent(ledger.View())
    ensures fault.Some? ==> ledger.View() == old(ledger.View())
    ensures fault.None? <==> Attempt(old(ledger.View()), step).Ok?
  {
    hide Consistent, RecordDeposit, RequestRedemption, AdmitNext, CloseDue;
    VaultRuns.StepConsistent(ledger.View(), step);
    match step {
      case DepositStep(tick, user, amount, source, key) =>
        fault := ledger.RecordPendingDeposit(tick, user, amount, source, key);
      case RequestStep(tick, user, shares, key) =>
        fault := ledger.RequestLpVaultRedemption(tick, user, shares, key);
      case AdmitStep(tick, reconciliation, capacity) =>
        fault := ledger.AdmitNextLpVaultRedemption(tick, reconciliation, capacity);
      case CloseStep(tick, input) =>
        fault := ledger.CloseDueForReconciliation(tick, input);
    }
  }

  /** A whole history of operations on a new vault ends where the specification's run ends. */
  method Serve(vault: nat, steps: seq<Step>) returns (ledger: Ledger)
    ensures fresh(ledger) && ledger.View() == Run(vault, steps) && Consistent(ledger.View())
  {
    hide Consistent, Apply;
    ledger := new Ledger(vault);
    EmptyIsConsistent(vault);
    for i := 0 to |steps|
      invariant fresh(ledger)
      invariant Consistent(ledger.View()) && ledger.View() == Run(vault, steps[..i])
    {
      assert steps[..i + 1][..i] == steps[..i];
      var _ := Perform(ledger, steps[i]);
    }
    assert steps[..|steps|] == steps;
  }
}
