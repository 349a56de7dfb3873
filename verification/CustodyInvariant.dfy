/** What every interleaving of credits, funding and reorganisations keeps true of the custody ledger. */
module CustodyInvariant {
  import opened Common
  import opened CustodyTables

  // ---------------------------------------------------------------- the invariant

  /** The two postings of a transfer: the receiving account up, the external account down. */
  function Postings(transaction: nat, from: Account, to: Account, amount: int): seq<Entry> {
    [Entry(transaction, to, amount), Entry(transaction, from, -amount)]
  }

  predicate Credits(d: Deposit, postings: seq<Entry>)
    requires d.credit.Some? && d.user.Some?
  {
    || postings == Postings(d.credit.value, ExternalDeposits, UserAvailable(d.user.value), d.transfer.amount)
    || postings == Postings(d.credit.value, ExternalDeposits, UserCheckout(d.user.value), d.transfer.amount)
  }

  /** A deposit is credited once and compensated once at most, and only while it is orphaned. */
  ghost predicate DepositSound(d: Deposit, i: nat, claims: map<Key, Claim>, entries: seq<Entry>, transactions: nat) {
    && 0 < d.transfer.amount && (d.status == Credited ==> d.credit.Some?)
    && (d.credit.None? ==> d.compensation.None?)
    && (d.credit.Some? ==>
          && d.user.Some? && d.credit.value < transactions
          && d.transfer.key in claims && claims[d.transfer.key] == UserDeposit(i)
          && (d.status == Credited || d.status == Reorged)
          && (d.status == Reorged <==> d.compensation.Some?)
          && Credits(d, EntriesOf(entries, d.credit.value)))
    && (d.compensation.Some? ==>
          && d.compensation.value < transactions && d.incident.Some?
          && EntriesOf(entries, d.compensation.value)
             == Negated(EntriesOf(entries, d.credit.value), d.compensation.value))
  }

  ghost predicate EvidenceSound(e: Evidence, j: nat, claims: map<Key, Claim>, entries: seq<Entry>, transactions: nat) {
    && 0 < e.transfer.amount && e.transaction < transactions
    && e.transfer.key in claims && claims[e.transfer.key] == HouseFunding(j)
    && EntriesOf(entries, e.transaction)
       == Postings(e.transaction, ExternalHouseFunding, HouseOperating, e.transfer.amount)
    && (e.compensation.Some? ==>
          && e.compensation.value < transactions
          && EntriesOf(entries, e.compensation.value)
             == Negated(EntriesOf(entries, e.transaction), e.compensation.value))
  }

  ghost predicate ClaimSound(key: Key, claim: Claim, deposits: seq<Deposit>, evidence: seq<Evidence>) {
    match claim
    case UserDeposit(i) => i < |deposits| && deposits[i].transfer.key == key && deposits[i].credit.Some?
    case HouseFunding(j) => j < |evidence| && evidence[j].transfer.key == key
  }

  ghost predicate DepositsSound(deposits: seq<Deposit>, claims: map<Key, Claim>, entries: seq<Entry>,
                                transactions: nat)
  {
    && (forall i :: 0 <= i < |deposits| ==> DepositSound(deposits[i], i, claims, entries, transactions))
    && (forall i, j :: 0 <= i < j < |deposits| ==> deposits[i].transfer.key != deposits[j].transfer.key)
  }

  ghost predicate FundingSound(evidence: seq<Evidence>, claims: map<Key, Claim>, entries: seq<Entry>,
                               transactions: nat) {
    && (forall j :: 0 <= j < |evidence| ==> EvidenceSound(evidence[j], j, claims, entries, transactions))
    && (forall i, j :: 0 <= i < j < |evidence| ==> evidence[i].transfer.key != evidence[j].transfer.key)
  }

  ghost predicate ClaimsSound(claims: map<Key, Claim>, deposits: seq<Deposit>, evidence: seq<Evidence>) {
    forall key :: key in claims ==> ClaimSound(key, claims[key], deposits, evidence)
  }

  /** Every transaction sums to zero, and none is numbered beyond the last. */
  ghost predicate Balanced(entries: seq<Entry>, transactions: nat) {
    && (forall k :: 0 <= k < |entries| ==> entries[k].transaction < transactions)
    && (forall t: nat :: SumEntries(EntriesOf(entries, t)) == 0)
  }

  function CreditedTotal(deposits: seq<Deposit>): int {
    if deposits == [] then 0
    else
      var last := deposits[|deposits| - 1];
      CreditedTotal(deposits[..|deposits| - 1]) + (if last.status == Credited then last.transfer.amount else 0)
  }

  function CreditedTo(deposits: seq<Deposit>, user: nat): int {
    if deposits == [] then 0
    else
      var last := deposits[|deposits| - 1];
      CreditedTo(deposits[..|deposits| - 1], user)
      + (if last.status == Credited && last.user == Some(user) then last.transfer.amount else 0)
  }

  function FundedTotal(evidence: seq<Evidence>): int {
    if evidence == [] then 0
    else
      var last := evidence[|evidence| - 1];
      FundedTotal(evidence[..|evidence| - 1]) + (if last.compensation.None? then last.transfer.amount else 0)
  }

  function UserBalance(entries: seq<Entry>, user: nat): int {
    BalanceOf(entries, UserAvailable(user)) + BalanceOf(entries, UserCheckout(user))
  }

  /** The accounts hold exactly the deposits that stand and the funding that stands. */
  ghost predicate Tallied(deposits: seq<Deposit>, evidence: seq<Evidence>, entries: seq<Entry>) {
    && BalanceOf(entries, ExternalDeposits) == -CreditedTotal(deposits)
    && BalanceOf(entries, HouseOperating) == FundedTotal(evidence)
    && BalanceOf(entries, ExternalHouseFunding) == -FundedTotal(evidence)
    && (forall user: nat :: UserBalance(entries, user) == CreditedTo(deposits, user))
  }

  ghost predicate Sound(c: Custody) {
    && DepositsSound(c.deposits, c.claims, c.entries, c.transactions)
    && FundingSound(c.evidence, c.claims, c.entries, c.transactions)
    && ClaimsSound(c.claims, c.deposits, c.evidence)
    && Balanced(c.entries, c.transactions) && Tallied(c.deposits, c.evidence, c.entries)
    && (c.incidents != [] ==> c.blocked)
  }

  // ---------------------------------------------------------------- entries, one transaction more

  lemma {:induction false} EntriesConcat(a: seq<Entry>, b: seq<Entry>, t: nat)
    ensures EntriesOf(a + b, t) == EntriesOf(a, t) + EntriesOf(b, t)
  {
    if b == [] {
      assert a + b == a;
    } else {
      EntriesConcat(a, b[..|b| - 1], t);
      assert (a + b)[..|a + b| - 1] == a + b[..|b| - 1];
    }
  }

  lemma {:induction false} BalanceConcat(a: seq<Entry>, b: seq<Entry>, account: Account)
    ensures BalanceOf(a + b, account) == BalanceOf(a, account) + BalanceOf(b, account)
  {
    if b == [] {
      assert a + b == a;
    } else {
      BalanceConcat(a, b[..|b| - 1], account);
      assert (a + b)[..|a + b| - 1] == a + b[..|b| - 1];
    }
  }

  lemma {:induction false} NoEntriesYet(entries: seq<Entry>, t: nat)
    requires forall k :: 0 <= k < |entries| ==> entries[k].transaction != t
    ensures EntriesOf(entries, t) == []
  {
    if entries != [] {
      NoEntriesYet(entries[..|entries| - 1], t);
    }
  }

  lemma {:induction false} OneTransaction(entries: seq<Entry>, t: nat)
    requires forall k :: 0 <= k < |entries| ==> entries[k].transaction == t
    ensures EntriesOf(entries, t) == entries
  {
    if entries != [] {
      OneTransaction(entries[..|entries| - 1], t);
    }
  }

  lemma {:induction false} NegatedFacts(entries: seq<Entry>, t: nat, account: Account)
    ensures forall k :: 0 <= k < |Negated(entries, t)| ==> Negated(entries, t)[k].transaction == t
    ensures SumEntries(Negated(entries, t)) == -SumEntries(entries)
    ensures BalanceOf(Negated(entries, t), account) == -BalanceOf(entries, account)
  {
    if entries != [] {
      NegatedFacts(entries[..|entries| - 1], t, account);
    }
  }

  /** New postings under a fresh number leave every earlier transaction as it was. */
  ghost predicate Adds(entries: seq<Entry>, transactions: nat, postings: seq<Entry>) {
    && (forall k :: 0 <= k < |entries| ==> entries[k].transaction < transactions)
    && (forall k :: 0 <= k < |postings| ==> postings[k].transaction == transactions)
  }

  lemma {:induction false} AddedEntries(entries: seq<Entry>, transactions: nat, postings: seq<Entry>, t: nat)
    requires Adds(entries, transactions, postings)
    ensures EntriesOf(entries + postings, t) == if t == transactions then postings else EntriesOf(entries, t)
  {
    EntriesConcat(entries, postings, t);
    if t == transactions {
      NoEntriesYet(entries, t);
      OneTransaction(postings, t);
    } else {
      NoEntriesYet(postings, t);
    }
  }

  lemma {:induction false} AddedBalanced(entries: seq<Entry>, transactions: nat, postings: seq<Entry>)
    requires Balanced(entries, transactions) && SumEntries(postings) == 0 && Adds(entries, transactions, postings)
    ensures Balanced(entries + postings, transactions + 1)
  {
    forall t: nat
      ensures SumEntries(EntriesOf(entries + postings, t)) == 0
    {
      AddedEntries(entries, transactions, postings, t);
    }
  }

  lemma {:induction false} PostingsFacts(t: nat, from: Account, to: Account, amount: int, account: Account)
    requires from != to
    ensures SumEntries(Postings(t, from, to, amount)) == 0
    ensures BalanceOf(Postings(t, from, to, amount), account)
         == if account == to then amount else if account == from then -amount else 0
  {
    var postings := Postings(t, from, to, amount);
    var one := postings[..1];
    assert one[..0] == [] && one[0] == postings[0];
    assert SumEntries(one) == amount;
    assert BalanceOf(one, account) == if account == to then amount else 0;
    assert postings[..|postings| - 1] == one;
  }

  // ---------------------------------------------------------------- rows under more entries

  lemma {:induction false} DepositStays(d: Deposit, i: nat, claims: map<Key, Claim>, more: map<Key, Claim>,
                                        entries: seq<Entry>, transactions: nat, postings: seq<Entry>)
    requires DepositSound(d, i, claims, entries, transactions) && Adds(entries, transactions, postings)
    requires d.transfer.key in claims ==> d.transfer.key in more && more[d.transfer.key] == claims[d.transfer.key]
    ensures DepositSound(d, i, more, entries + postings, transactions + 1)
  {
    if d.credit.Some? {
      AddedEntries(entries, transactions, postings, d.credit.value);
    }
    if d.compensation.Some? {
      AddedEntries(entries, transactions, postings, d.compensation.value);
    }
  }

  lemma {:induction false} EvidenceStays(e: Evidence, j: nat, claims: map<Key, Claim>, more: map<Key, Claim>,
                                         entries: seq<Entry>, transactions: nat, postings: seq<Entry>)
    requires EvidenceSound(e, j, claims, entries, transactions) && Adds(entries, transactions, postings)
    requires e.transfer.key in claims ==> e.transfer.key in more && more[e.transfer.key] == claims[e.transfer.key]
    ensures EvidenceSound(e, j, more, entries + postings, transactions + 1)
  {
    AddedEntries(entries, transactions, postings, e.transaction);
    if e.compensation.Some? {
      AddedEntries(entries, transactions, postings, e.compensation.value);
    }
  }

  // ---------------------------------------------------------------- sums under one changed row

  lemma {:induction false} ChangedDeposit(deposits: seq<Deposit>, i: nat, d: Deposit, user: nat)
    requires i < |deposits|
    ensures var before := deposits[i];
            && CreditedTotal(deposits[i := d]) == CreditedTotal(deposits)
               - (if before.status == Credited then before.transfer.amount else 0)
               + (if d.status == Credited then d.transfer.amount else 0)
            && CreditedTo(deposits[i := d], user) == CreditedTo(deposits, user)
               - (if before.status == Credited && before.user == Some(user) then before.transfer.amount else 0)
               + (if d.status == Credited && d.user == Some(user) then d.transfer.amount else 0)
  {
    var last := |deposits| - 1;
    if i < last {
      ChangedDeposit(deposits[..last], i, d, user);
      assert deposits[i := d][..last] == deposits[..last][i := d];
    } else {
      assert deposits[i := d][..last] == deposits[..last];
    }
  }

  lemma {:induction false} NewDeposit(deposits: seq<Deposit>, d: Deposit, user: nat)
    requires d.status != Credited
    ensures CreditedTotal(deposits + [d]) == CreditedTotal(deposits)
    ensures CreditedTo(deposits + [d], user) == CreditedTo(deposits, user)
  {
    assert (deposits + [d])[..|deposits|] == deposits;
  }

  lemma {:induction false} ChangedEvidence(evidence: seq<Evidence>, j: nat, e: Evidence)
    requires j < |evidence| && e.transfer == evidence[j].transfer
    requires evidence[j].compensation.None? && e.compensation.Some?
    ensures FundedTotal(evidence[j := e]) == FundedTotal(evidence) - e.transfer.amount
  {
    var last := |evidence| - 1;
    if j < last {
      ChangedEvidence(evidence[..last], j, e);
      assert evidence[j := e][..last] == evidence[..last][j := e];
    } else {
      assert evidence[j := e][..last] == evidence[..last];
    }
  }

  // ---------------------------------------------------------------- lookups

  lemma {:induction false} DepositFound(deposits: seq<Deposit>, i: nat)
    requires i < |deposits|
    requires forall j, k :: 0 <= j < k < |deposits| ==> deposits[j].transfer.key != deposits[k].transfer.key
    ensures DepositOf(deposits, deposits[i].transfer.key) == Some(i)
  {
    if i < |deposits| - 1 {
      DepositFound(deposits[..|deposits| - 1], i);
    }
  }

  lemma {:induction false} DepositMissing(deposits: seq<Deposit>, key: Key)
    requires DepositOf(deposits, key).None?
    ensures forall i :: 0 <= i < |deposits| ==> deposits[i].transfer.key != key
  {
    if deposits != [] {
      DepositMissing(deposits[..|deposits| - 1], key);
    }
  }

  lemma {:induction false} EvidenceMissing(evidence: seq<Evidence>, key: Key)
    requires EvidenceOf(evidence, key).None?
    ensures forall j :: 0 <= j < |evidence| ==> evidence[j].transfer.key != key
  {
    if evidence != [] {
      EvidenceMissing(evidence[..|evidence| - 1], key);
    }
  }
}
