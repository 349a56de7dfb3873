/** What one reorganisation does, once and for good, and what observing a transfer again does not do. */
module CustodyReorgs {
  import opened Common
  import opened CustodyTables
  import opened CustodyInvariant
  import CustodyRuns

  // ---------------------------------------------------------------- exactly the orphaned rows

  /** A deposit as a reorganisation leaves it. */
  ghost predicate DepositAfter(before: Deposit, after: Deposit, orphaned: bool) {
    if !orphaned then after == before
    else
      && after.status == Reorged && after.transfer == before.transfer && after.credit == before.credit
      && (after.compensation.Some? <==> before.credit.Some? || before.compensation.Some?)
      && (before.compensation.Some? ==> after.compensation == before.compensation)
  }

  lemma {:induction false} DepositsMarked(c: Custody, scan: Scan, n: nat)
    requires Sound(c) && n <= |c.deposits|
    ensures ReorgDeposits(c, scan, n).Ok?
    ensures var after := ReorgDeposits(c, scan, n).value;
            && (forall i :: 0 <= i < |c.deposits| ==>
                  DepositAfter(c.deposits[i], after.deposits[i], i < n && Orphaned(c.deposits, scan, i)))
            && (c.blocked ==> after.blocked)
            && (forall i :: 0 <= i < n && Orphaned(c.deposits, scan, i) && c.deposits[i].credit.Some? ==> after.blocked)
  {
    hide Sound;
    CustodyRuns.ReorgDepositsSound(c, scan, n);
    if n != 0 {
      DepositsMarked(c, scan, n - 1);
      CustodyRuns.ReorgDepositsSound(c, scan, n - 1);
      var rest := ReorgDeposits(c, scan, n - 1).value;
      if Orphaned(c.deposits, scan, n - 1) {
        CustodyRuns.ReorgDepositSound(rest, n - 1);
        CustodyRuns.SoundDeposit(rest, n - 1);
      }
    }
  }

  lemma {:induction false} FundingsMarked(c: Custody, scan: Scan, n: nat)
    requires Sound(c) && n <= |c.evidence|
    ensures ReorgFundings(c, scan, n).Ok?
    ensures var after := ReorgFundings(c, scan, n).value;
            && after.deposits == c.deposits
            && (forall j :: 0 <= j < |c.evidence| ==>
                  && after.evidence[j].transfer == c.evidence[j].transfer
                  && (if j < n && FundingOrphaned(c.evidence, scan, j) then after.evidence[j].compensation.Some?
                      else after.evidence[j] == c.evidence[j]))
            && (c.blocked ==> after.blocked)
            && (forall j :: 0 <= j < n && FundingOrphaned(c.evidence, scan, j) ==> after.blocked)
  {
    hide Sound;
    CustodyRuns.ReorgFundingsSound(c, scan, n);
    if n != 0 {
      FundingsMarked(c, scan, n - 1);
      CustodyRuns.ReorgFundingsSound(c, scan, n - 1);
      var rest := ReorgFundings(c, scan, n - 1).value;
      if FundingOrphaned(c.evidence, scan, n - 1) {
        CustodyRuns.ReorgFundingSound(rest, n - 1);
      }
    }
  }

  predicate Scanned(scan: Scan) {
    scan.from <= scan.to && scan.receivers != {} && scan.tokens != {}
  }

  /**
   A reorganisation marks exactly the orphaned rows, compensates each credited or funded one
   once, leaves every other row as it was, and blocks the gate as soon as money was affected.
   */
  lemma {:induction false} ReorgMarksOrphans(c: Custody, scan: Scan)
    requires Sound(c) && Scanned(scan)
    ensures MarkReorged(c, scan).Ok?
    ensures var after := MarkReorged(c, scan).value;
            && |after.deposits| == |c.deposits| && |after.evidence| == |c.evidence|
            && (forall i :: 0 <= i < |c.deposits| ==>
                  DepositAfter(c.deposits[i], after.deposits[i], Orphaned(c.deposits, scan, i)))
            && (forall j :: 0 <= j < |c.evidence| ==>
                  if FundingOrphaned(c.evidence, scan, j) then after.evidence[j].compensation.Some?
                  else after.evidence[j] == c.evidence[j])
            && (forall i :: 0 <= i < |c.deposits| && Orphaned(c.deposits, scan, i) && c.deposits[i].credit.Some? ==>
                  after.blocked)
            && (forall j :: 0 <= j < |c.evidence| && FundingOrphaned(c.evidence, scan, j) ==> after.blocked)
  {
    hide Sound, Orphaned, FundingOrphaned, DepositAfter;
    DepositsMarked(c, scan, |c.deposits|);
    CustodyRuns.ReorgDepositsSound(c, scan, |c.deposits|);
    var marked := ReorgDeposits(c, scan, |c.deposits|).value;
    FundingsMarked(marked, scan, |marked.evidence|);
  }

  // ---------------------------------------------------------------- once and for good

  /** No operation reopens the gate. */
  lemma {:induction false} GateStaysBlocked(c: Custody, step: Step)
    requires Sound(c) && c.blocked
    ensures Apply(c, step).blocked
  {
    hide Sound, Orphaned, FundingOrphaned, DepositAfter;
    match step
    case CreditStep(t, wallet, quote) =>
    case FundStep(t, operator, approver, linked) =>
    case ReorgStep(scan) =>
      DepositsMarked(c, scan, |c.deposits|);
      CustodyRuns.ReorgDepositsSound(c, scan, |c.deposits|);
      var marked := ReorgDeposits(c, scan, |c.deposits|).value;
      FundingsMarked(marked, scan, |marked.evidence|);
  }

  lemma {:induction false} UniqueDeposit(c: Custody, i: nat)
    requires Sound(c) && i < |c.deposits|
    ensures DepositOf(c.deposits, c.deposits[i].transfer.key) == Some(i)
  {
    hide Balanced, Tallied, FundingSound, ClaimsSound, DepositSound;
    DepositFound(c.deposits, i);
  }

  /** What has been compensated stays so. */
  ghost predicate StaysCompensated(before: Custody, after: Custody, i: nat) {
    && i < |before.deposits| && i < |after.deposits| && after.deposits[i].status == Reorged
    && after.deposits[i].credit == before.deposits[i].credit
    && after.deposits[i].compensation == before.deposits[i].compensation
  }

  lemma {:induction false} CreditLeavesCompensated(c: Custody, t: Transfer, wallet: Option<nat>, quote: bool, i: nat)
    requires Sound(c) && i < |c.deposits| && c.deposits[i].compensation.Some?
    requires c.deposits[i].status == Reorged && c.deposits[i].credit.Some?
    requires CreditConfirmed(c, t, wallet, quote).Ok?
    ensures StaysCompensated(c, CreditConfirmed(c, t, wallet, quote).value, i)
  {
    hide Sound, Post;
    if c.deposits[i].transfer.key == t.key {
      UniqueDeposit(c, i);
    } else if DepositOf(c.deposits, t.key).None? {
      ObservedLast(c.deposits, Deposit(t, Observed, None, None, None, None));
    }
  }

  lemma {:induction false} ObservedLast(deposits: seq<Deposit>, d: Deposit)
    ensures DepositOf(deposits + [d], d.transfer.key) == Some(|deposits|)
  {
  }

  lemma {:induction false} ReorgLeavesCompensated(c: Custody, scan: Scan, i: nat)
    requires Sound(c) && i < |c.deposits| && c.deposits[i].compensation.Some? && c.deposits[i].status == Reorged
    ensures MarkReorged(c, scan).Ok? && StaysCompensated(c, MarkReorged(c, scan).value, i)
  {
    hide Sound, MarkReorged;
    if Scanned(scan) {
      ReorgMarksOrphans(c, scan);
    } else {
      NothingScanned(c, scan);
    }
  }

  lemma {:induction false} NothingScanned(c: Custody, scan: Scan)
    requires !Scanned(scan)
    ensures MarkReorged(c, scan) == Ok(c)
  {
  }

  /** A compensated deposit is never credited again and never compensated again. */
  lemma {:induction false} CompensatedForGood(c: Custody, step: Step, i: nat)
    requires Sound(c) && i < |c.deposits| && c.deposits[i].compensation.Some?
    ensures StaysCompensated(c, Apply(c, step), i)
  {
    hide Sound, CreditConfirmed, FundHouse, MarkReorged;
    CompensatedStatus(c, i);
    match step
    case CreditStep(t, wallet, quote) =>
      if CreditConfirmed(c, t, wallet, quote).Ok? {
        CreditLeavesCompensated(c, t, wallet, quote, i);
      }
    case FundStep(t, operator, approver, linked) =>
      FundingKeepsDeposits(c, t, operator, approver, linked);
    case ReorgStep(scan) =>
      ReorgLeavesCompensated(c, scan, i);
  }

  lemma {:induction false} CompensatedStatus(c: Custody, i: nat)
    requires Sound(c) && i < |c.deposits| && c.deposits[i].compensation.Some?
    ensures c.deposits[i].status == Reorged && c.deposits[i].credit.Some?
  {
    hide Sound, EntriesOf, Negated;
    CustodyRuns.SoundDeposit(c, i);
  }

  lemma {:induction false} FundingKeepsDeposits(c: Custody, t: Transfer, operator: nat, approver: nat, linked: bool)
    ensures var r := FundHouse(c, t, operator, approver, linked);
            r.Ok? ==> r.value.deposits == c.deposits
  {
  }

  /** Observing a credited transfer again moves no money, makes no claim and raises no incident. */
  lemma {:induction false} ReobservingIsIdempotent(c: Custody, t: Transfer, i: nat, wallet: Option<nat>, quote: bool)
    requires Sound(c) && i < |c.deposits| && c.deposits[i].transfer.key == t.key && c.deposits[i].credit.Some?
    requires SameFact(c.deposits[i].transfer, t)
    ensures CreditConfirmed(c, t, wallet, quote).Ok?
    ensures var after := CreditConfirmed(c, t, wallet, quote).value;
            && after == c.(deposits := after.deposits)
            && |after.deposits| == |c.deposits| && after.deposits[i].credit == c.deposits[i].credit
            && after.deposits[i].status == c.deposits[i].status
            && (forall k :: 0 <= k < |c.deposits| && k != i ==> after.deposits[k] == c.deposits[k])
  {
    CustodyRuns.SoundDeposit(c, i);
    UniqueDeposit(c, i);
    hide Sound, EntriesOf, Negated;
  }

  /** Recording the same house funding again changes nothing at all. */
  lemma {:induction false} RefundingIsIdempotent(c: Custody, t: Transfer, operator: nat, approver: nat, linked: bool,
                                                 linkedLater: bool)
    requires Sound(c) && FundHouse(c, t, operator, approver, linked).Ok?
    ensures var after := FundHouse(c, t, operator, approver, linked).value;
            FundHouse(after, t, operator, approver, linkedLater) == Ok(after)
  {
    hide Sound;
    if EvidenceOf(c.evidence, t.key).None? {
      assert Fund(c, t).evidence[..|c.evidence|] == c.evidence;
    }
  }
}
