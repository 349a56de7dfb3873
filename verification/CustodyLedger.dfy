/** The deposit and house-funding repositories as they run: one transaction an operation. */
module CustodyLedger {
  import opened Common
  import opened CustodyTables

  /** Every table but the ones named is unchanged, and these are as the specification says. */
  ghost predicate Ends(spec: Result<Custody, Fault>, fault: Option<Fault>, before: Custody, now: Custody) {
    match spec
    case Ok(c) => fault == None && now == c
    case Err(f) => fault == Some(f) && now == before
  }

  function Count(deposits: seq<Deposit>, scan: Scan, n: nat, credited: bool): nat
    requires n <= |deposits|
  {
    if n == 0 then 0
    else
      var d := deposits[n - 1];
      Count(deposits, scan, n - 1, credited)
      + (if Orphaned(deposits, scan, n - 1) && (credited ==> d.status == Credited || d.credit.Some?) then 1 else 0)
  }

  function CountFunding(evidence: seq<Evidence>, scan: Scan, n: nat): nat
    requires n <= |evidence|
  {
    if n == 0 then 0
    else CountFunding(evidence, scan, n - 1) + (if FundingOrphaned(evidence, scan, n - 1) then 1 else 0)
  }

  datatype Reorganised = Reorganised(reorged: nat, creditedReorged: nat, houseFundingReorged: nat)

  function Tally(c: Custody, scan: Scan): Reorganised {
    if scan.to < scan.from || scan.receivers == {} || scan.tokens == {} then Reorganised(0, 0, 0)
    else
      Reorganised(Count(c.deposits, scan, |c.deposits|, false), Count(c.deposits, scan, |c.deposits|, true),
                  CountFunding(c.evidence, scan, |c.evidence|))
  }

  lemma {:induction false} DepositFaultPersists(c: Custody, scan: Scan, n: nat, m: nat)
    requires n <= m <= |c.deposits| && ReorgDeposits(c, scan, n).Err?
    ensures ReorgDeposits(c, scan, m) == ReorgDeposits(c, scan, n)
  {
    if n < m {
      DepositFaultPersists(c, scan, n, m - 1);
    }
  }

  lemma {:induction false} FundingFaultPersists(c: Custody, scan: Scan, n: nat, m: nat)
    requires n <= m <= |c.evidence| && ReorgFundings(c, scan, n).Err?
    ensures ReorgFundings(c, scan, m) == ReorgFundings(c, scan, n)
  {
    if n < m {
      FundingFaultPersists(c, scan, n, m - 1);
    }
  }

  lemma {:induction false} DepositsKeepEvidence(c: Custody, scan: Scan, n: nat)
    requires n <= |c.deposits|
    ensures ReorgDeposits(c, scan, n).Ok? ==> ReorgDeposits(c, scan, n).value.evidence == c.evidence
  {
    if n != 0 {
      DepositsKeepEvidence(c, scan, n - 1);
    }
  }

  class Ledger {
    var deposits: seq<Deposit>
    var claims: map<Key, Claim>
    var evidence: seq<Evidence>
    var entries: seq<Entry>
    var transactions: nat
    var incidents: seq<Incident>
    var blocked: bool

    /** All the tables together. */
    function View(): Custody
      reads this
    {
      Custody(deposits, claims, evidence, entries, transactions, incidents, blocked)
    }

    constructor ()
      ensures View() == EmptyCustody
    {
      deposits, claims, evidence, entries, transactions, incidents := [], map[], [], [], 0, [];
      blocked := false;
    }

    /** Rolling a transaction back. */
    method Restore(saved: Custody)
      modifies this
      ensures View() == saved
    {
      deposits, claims, evidence := saved.deposits, saved.claims, saved.evidence;
      entries, transactions := saved.entries, saved.transactions;
      incidents, blocked := saved.incidents, saved.blocked;
    }

    method PostPair(from: Account, to: Account, amount: int) returns (transaction: nat)
      modifies this`entries, this`transactions
      ensures View() == Post(old(View()), from, to, amount) && transaction == old(transactions)
    {
      transaction := transactions;
      entries := entries + [Entry(transaction, to, amount)];
      entries := entries + [Entry(transaction, from, -amount)];
      transactions := transactions + 1;
    }

    method CreditDeposit(id: nat, t: Transfer, user: nat, quote: bool)
      requires id < |deposits|
      modifies this
      ensures View() == Credit(old(View()), id, t, user, quote)
    {
      claims := claims[t.key := UserDeposit(id)];
      var transaction := PostPair(ExternalDeposits, CreditAccount(user, quote), t.amount);
      deposits := deposits[id := Replaced(deposits[id], t).(
        status := Credited, user := Some(user), credit := Some(transaction))];
    }

    method CreditConfirmedDeposit(t: Transfer, wallet: Option<nat>, quote: bool) returns (fault: Option<Fault>)
      modifies this
      ensures Ends(CreditConfirmed(old(View()), t, wallet, quote), fault, old(View()), View())
    {
      hide Credit;
      if t.amount <= 0 {
        return Some(InvalidDepositAmount);
      }
      var saved := View();
      if DepositOf(deposits, t.key).None? {
        deposits := deposits + [Deposit(t, Observed, None, None, None, None)];
      }
      assert View() == Observe(saved, t);
      var id := DepositOf(deposits, t.key).value;
      var d := deposits[id];
      if !SameFact(d.transfer, t) {
        Restore(saved);
        return Some(DepositFactConflict);
      }
      if d.status == Credited || (d.status == Reorged && d.credit.Some?) {
        if d.status == Credited && !SameBlock(d.transfer, t) {
          deposits := deposits[id := Replaced(d, t)];
        } else {
          deposits := deposits[id := Confirmed(d, t)];
        }
      } else if wallet.None? {
        deposits := deposits[id := Replaced(d, t).(status := Ignored)];
      } else if t.key in claims && claims[t.key] != UserDeposit(id) {
        if d.credit.None? {
          deposits := deposits[id := d.(status := Ignored)];
        }
      } else {
        CreditDeposit(id, t, wallet.value, quote);
      }
      return None;
    }

    method RecordVerifiedHouseFunding(t: Transfer, operator: nat, approver: nat, linked: bool)
      returns (fault: Option<Fault>)
      modifies this
      ensures Ends(FundHouse(old(View()), t, operator, approver, linked), fault, old(View()), View())
    {
      if operator == approver {
        return Some(DistinctApproverRequired);
      }
      if t.sender == t.receiver {
        return Some(SelfTransfer);
      }
      if t.amount <= 0 || t.confirmations <= 0 {
        return Some(InvalidEvidence);
      }
      var existing := EvidenceOf(evidence, t.key);
      if existing.Some? {
        if !SameEvidence(evidence[existing.value], t) {
          return Some(EvidenceConflict);
        }
        return None;
      }
      if t.key in claims {
        return Some(AlreadyClaimed(claims[t.key]));
      }
      var represented := DepositOf(deposits, t.key);
      if represented.Some?
         && (deposits[represented.value].credit.Some? || deposits[represented.value].status == Credited) {
        return Some(OnchainDepositConflict);
      }
      if linked {
        return Some(SourceLinkedToWallet);
      }
      claims := claims[t.key := HouseFunding(|evidence|)];
      evidence := evidence + [Evidence(t, transactions, None)];
      var _ := PostPair(ExternalHouseFunding, HouseOperating, t.amount);
      return None;
    }

    /** The negated copy of a transaction's postings; none when there are none. */
    method InsertCompensation(transaction: nat) returns (compensation: nat, posted: nat)
      modifies this`entries, this`transactions
      ensures View() == Compensate(old(View()), transaction) && compensation == old(transactions)
      ensures posted == 0 <==> EntriesOf(old(entries), transaction) == []
    {
      compensation := transactions;
      var postings := EntriesOf(entries, transaction);
      ghost var before := entries;
      for i := 0 to |postings|
        invariant entries == before + Negated(postings[..i], compensation)
        invariant transactions == compensation
      {
        assert postings[..i + 1][..i] == postings[..i];
        entries := entries + [Entry(compensation, postings[i].account, -postings[i].amount)];
      }
      assert postings[..|postings|] == postings;
      posted := |postings|;
      transactions := transactions + 1;
    }

    method RaiseIncident(incident: Incident) returns (id: nat)
      modifies this`incidents, this`blocked
      ensures View() == Raise(old(View()), incident) && id == |old(incidents)|
    {
      id := |incidents|;
      incidents := incidents + [incident];
      blocked := true;
    }

    method ReorgOneDeposit(i: nat) returns (fault: Option<Fault>)
      requires i < |deposits|
      modifies this
      ensures match ReorgDeposit(old(View()), i) case Ok(c) => fault == None
              && View() == c case Err(f) => fault == Some(f)
    {
      hide Compensate;
      var d := deposits[i];
      var compensation, incident: Option<nat> := None, None;
      if d.credit.Some? {
        var transaction, posted := InsertCompensation(d.credit.value);
        if posted == 0 {
          return Some(CreditedLedgerMissing);
        }
        compensation := Some(transaction);
        CompensationLeaves(old(View()), d.credit.value);
        var raised := RaiseIncident(DepositReorged(i));
        incident := Some(raised);
      } else if d.status == Credited {
        var raised := RaiseIncident(LedgerLinkMissing(i));
        incident := Some(raised);
      }
      deposits := deposits[i := d.(status := Reorged, compensation := Coalesce(d.compensation, compensation),
                                   incident := Coalesce(d.incident, incident))];
      return None;
    }

    method ReorgOneFunding(i: nat) returns (fault: Option<Fault>)
      requires i < |evidence|
      modifies this
      ensures match ReorgFunding(old(View()), i) case Ok(c) => fault == None
              && View() == c case Err(f) => fault == Some(f)
    {
      hide Compensate;
      var compensation, posted := InsertCompensation(evidence[i].transaction);
      if posted == 0 {
        return Some(FundingLedgerMissing);
      }
      CompensationLeaves(old(View()), old(evidence)[i].transaction);
      var _ := RaiseIncident(FundingReorged(i));
      evidence := evidence[i := evidence[i].(compensation := Some(compensation))];
      return None;
    }

    method ReorgCandidates(scan: Scan) returns (fault: Option<Fault>, reorged: nat, credited: nat)
      modifies this
      ensures match ReorgDeposits(old(View()), scan, |old(deposits)|)
              case Ok(c) => fault == None && View() == c
              case Err(f) => fault == Some(f)
      ensures fault == None ==> reorged == Count(old(deposits), scan, |old(deposits)|, false)
      ensures fault == None ==> credited == Count(old(deposits), scan, |old(deposits)|, true)
    {
      hide ReorgDeposit;
      ghost var start := View();
      var candidates := deposits;
      reorged, credited := 0, 0;
      for i := 0 to |candidates|
        invariant |deposits| == |candidates| == |start.deposits|
        invariant ReorgDeposits(start, scan, i) == Ok(View())
        invariant reorged == Count(candidates, scan, i, false) && credited == Count(candidates, scan, i, true)
      {
        if Orphaned(candidates, scan, i) {
          fault := ReorgOneDeposit(i);
          if fault.Some? {
            DepositFaultPersists(start, scan, i + 1, |candidates|);
            return;
          }
          reorged := reorged + 1;
          if candidates[i].status == Credited || candidates[i].credit.Some? {
            credited := credited + 1;
          }
        }
        assert ReorgDeposits(start, scan, i + 1) == Ok(View());
      }
      return None, reorged, credited;
    }

    method ReorgFundingCandidates(scan: Scan) returns (fault: Option<Fault>, reorged: nat)
      modifies this
      ensures match ReorgFundings(old(View()), scan, |old(evidence)|)
              case Ok(c) => fault == None && View() == c
              case Err(f) => fault == Some(f)
      ensures fault == None ==> reorged == CountFunding(old(evidence), scan, |old(evidence)|)
    {
      hide ReorgFunding;
      ghost var start := View();
      var candidates := evidence;
      reorged := 0;
      for i := 0 to |candidates|
        invariant |evidence| == |candidates| == |start.evidence|
        invariant ReorgFundings(start, scan, i) == Ok(View())
        invariant reorged == CountFunding(candidates, scan, i)
      {
        if FundingOrphaned(candidates, scan, i) {
          fault := ReorgOneFunding(i);
          if fault.Some? {
            FundingFaultPersists(start, scan, i + 1, |candidates|);
            return;
          }
          reorged := reorged + 1;
        }
        assert ReorgFundings(start, scan, i + 1) == Ok(View());
      }
      return None, reorged;
    }

    method MarkReorgedDeposits(scan: Scan) returns (fault: Option<Fault>, counts: Reorganised)
      modifies this
      ensures Ends(MarkReorged(old(View()), scan), fault, old(View()), View())
      ensures fault == None ==> counts == Tally(old(View()), scan)
    {
      if scan.to < scan.from || scan.receivers == {} || scan.tokens == {} {
        return None, Reorganised(0, 0, 0);
      }
      var saved := View();
      var reorged, credited, funding: nat := 0, 0, 0;
      fault, reorged, credited := ReorgCandidates(scan);
      if fault == None {
        DepositsKeepEvidence(saved, scan, |saved.deposits|);
        fault, funding := ReorgFundingCandidates(scan);
      }
      if fault.Some? {
        Restore(saved);
      }
      counts := Reorganised(reorged, credited, funding);
    }
  }

  lemma {:induction false} CompensationLeaves(c: Custody, transaction: nat)
    ensures Compensate(c, transaction).deposits == c.deposits && Compensate(c, transaction).evidence == c.evidence
    ensures Compensate(c, transaction).incidents == c.incidents && Compensate(c, transaction).claims == c.claims
    ensures Compensate(c, transaction).transactions == c.transactions + 1
  {
  }
}
