/** The ledger over any interleaving of credits, house funding and reorganisations. */
module CustodyRuns {
  import opened Common
  import opened CustodyTables
  import opened CustodyInvariant

  // ---------------------------------------------------------------- observing

  lemma {:induction false} ObserveSound(c: Custody, t: Transfer)
    requires Sound(c) && 0 < t.amount
    ensures Sound(Observe(c, t)) && DepositOf(Observe(c, t).deposits, t.key).Some?
  {
    hide Balanced, EntriesOf, Tallied, DepositsSound, FundingSound, ClaimsSound;
    if DepositOf(c.deposits, t.key).None? {
      var d := Deposit(t, Observed, None, None, None, None);
      DepositMissing(c.deposits, t.key);
      assert Observe(c, t).deposits[|c.deposits|] == d;
      ObservedDeposits(c, d);
      ObservedClaims(c, d);
      TalliedObserved(c, d);
    }
  }

  lemma {:induction false} ObservedDeposits(c: Custody, d: Deposit)
    requires DepositsSound(c.deposits, c.claims, c.entries, c.transactions)
    requires 0 < d.transfer.amount && d.status == Observed && d.credit.None? && d.compensation.None?
    requires forall i :: 0 <= i < |c.deposits| ==> c.deposits[i].transfer.key != d.transfer.key
    ensures DepositsSound(c.deposits + [d], c.claims, c.entries, c.transactions)
  {
    hide EntriesOf;
  }

  lemma {:induction false} ObservedClaims(c: Custody, d: Deposit)
    requires ClaimsSound(c.claims, c.deposits, c.evidence)
    ensures ClaimsSound(c.claims, c.deposits + [d], c.evidence)
  {
    forall key | key in c.claims
      ensures ClaimSound(key, c.claims[key], c.deposits + [d], c.evidence)
    {
      assert ClaimSound(key, c.claims[key], c.deposits, c.evidence);
    }
  }

  lemma {:induction false} TalliedObserved(c: Custody, d: Deposit)
    requires Tallied(c.deposits, c.evidence, c.entries) && d.status != Credited
    ensures Tallied(c.deposits + [d], c.evidence, c.entries)
  {
    NewDeposit(c.deposits, d, 0);
    forall user: nat
      ensures UserBalance(c.entries, user) == CreditedTo(c.deposits + [d], user)
    {
      NewDeposit(c.deposits, d, user);
    }
  }

  // ---------------------------------------------------------------- changing an uncredited or credited row in place

  /** A change of a deposit's place on the chain, or of its status while it is not credited. */
  predicate Harmless(before: Deposit, after: Deposit) {
    && after.transfer.key == before.transfer.key && after.transfer.amount == before.transfer.amount
    && after.user == before.user && after.credit == before.credit && after.compensation == before.compensation
    && (after.status == before.status || (before.credit.None? && after.status != Credited && before.status != Credited))
    && (before.incident.Some? ==> after.incident.Some?)
  }

  lemma {:induction false} HarmlessTallied(c: Custody, i: nat, d: Deposit)
    requires Tallied(c.deposits, c.evidence, c.entries) && i < |c.deposits| && Harmless(c.deposits[i], d)
    ensures Tallied(c.deposits[i := d], c.evidence, c.entries)
  {
    ChangedDeposit(c.deposits, i, d, 0);
    forall user: nat
      ensures UserBalance(c.entries, user) == CreditedTo(c.deposits[i := d], user)
    {
      ChangedDeposit(c.deposits, i, d, user);
    }
  }

  lemma {:induction false} HarmlessDeposits(c: Custody, i: nat, d: Deposit)
    requires DepositsSound(c.deposits, c.claims, c.entries, c.transactions)
    requires i < |c.deposits| && Harmless(c.deposits[i], d)
    ensures DepositsSound(c.deposits[i := d], c.claims, c.entries, c.transactions)
  {
    hide EntriesOf, Negated;
    assert DepositSound(c.deposits[i], i, c.claims, c.entries, c.transactions);
  }

  lemma {:induction false} HarmlessClaims(c: Custody, i: nat, d: Deposit)
    requires ClaimsSound(c.claims, c.deposits, c.evidence) && i < |c.deposits| && Harmless(c.deposits[i], d)
    ensures ClaimsSound(c.claims, c.deposits[i := d], c.evidence)
  {
    forall key | key in c.claims
      ensures ClaimSound(key, c.claims[key], c.deposits[i := d], c.evidence)
    {
      assert ClaimSound(key, c.claims[key], c.deposits, c.evidence);
    }
  }

  lemma {:induction false} HarmlessSound(c: Custody, i: nat, d: Deposit)
    requires Sound(c) && i < |c.deposits| && Harmless(c.deposits[i], d)
    ensures Sound(c.(deposits := c.deposits[i := d]))
  {
    hide Balanced, EntriesOf, Tallied, FundingSound, DepositsSound, ClaimsSound;
    HarmlessTallied(c, i, d);
    HarmlessDeposits(c, i, d);
    HarmlessClaims(c, i, d);
  }

  // ---------------------------------------------------------------- posting

  lemma {:induction false} PostTables(c: Custody, from: Account, to: Account, amount: int)
    ensures Post(c, from, to, amount)
         == c.(entries := c.entries + Postings(c.transactions, from, to, amount), transactions := c.transactions + 1)
  {
    assert c.entries + [Entry(c.transactions, to, amount)] + [Entry(c.transactions, from, -amount)]
        == c.entries + Postings(c.transactions, from, to, amount);
  }

  lemma {:induction false} CreditTallied(c: Custody, i: nat, d: Deposit, postings: seq<Entry>, to: Account)
    requires Tallied(c.deposits, c.evidence, c.entries) && i < |c.deposits| && c.deposits[i].status != Credited
    requires d.status == Credited && d.user.Some?
    requires to == UserAvailable(d.user.value) || to == UserCheckout(d.user.value)
    requires postings == Postings(c.transactions, ExternalDeposits, to, d.transfer.amount)
    ensures Tallied(c.deposits[i := d], c.evidence, c.entries + postings)
  {
    ChangedDeposit(c.deposits, i, d, 0);
    forall account: Account
      ensures BalanceOf(c.entries + postings, account)
           == BalanceOf(c.entries, account)
              + (if account == to then d.transfer.amount
                 else if account == ExternalDeposits then -d.transfer.amount else 0)
    {
      BalanceConcat(c.entries, postings, account);
      PostingsFacts(c.transactions, ExternalDeposits, to, d.transfer.amount, account);
    }
    forall user: nat
      ensures UserBalance(c.entries + postings, user) == CreditedTo(c.deposits[i := d], user)
    {
      ChangedDeposit(c.deposits, i, d, user);
    }
  }

  lemma {:induction false} CreditSound(c: Custody, i: nat, t: Transfer, user: nat, quote: bool)
    requires Sound(c) && i < |c.deposits| && c.deposits[i].transfer.key == t.key
             && c.deposits[i].transfer.amount == t.amount
    requires c.deposits[i].status != Credited && c.deposits[i].credit.None?
    requires t.key in c.claims ==> c.claims[t.key] == UserDeposit(i)
    ensures Sound(Credit(c, i, t, user, quote))
  {
    hide EntriesOf, Tallied, Balanced, BalanceOf, SumEntries, Negated, DepositsSound, FundingSound, ClaimsSound, Post,
         UserBalance, CreditedTo, CreditedTotal;
    var after := Credit(c, i, t, user, quote);
    var to := CreditAccount(user, quote);
    var postings := Postings(c.transactions, ExternalDeposits, to, t.amount);
    PostTables(c, ExternalDeposits, to, t.amount);
    Bounded(c.entries, c.transactions);
    PostingsFacts(c.transactions, ExternalDeposits, to, t.amount, to);
    AddedBalanced(c.entries, c.transactions, postings);
    CreditTallied(c, i, after.deposits[i], postings, to);
    AddedEntries(c.entries, c.transactions, postings, c.transactions);
    DepositAt(c, i);
    CreditDeposits(c, after, i, postings);
    EvidenceClaims(c, t.key);
    FundingStays(c, after, postings);
    CreditClaims(c, after, i, t.key);
  }

  lemma {:induction false} DepositAt(c: Custody, i: nat)
    requires DepositsSound(c.deposits, c.claims, c.entries, c.transactions) && i < |c.deposits|
    ensures DepositSound(c.deposits[i], i, c.claims, c.entries, c.transactions)
  {
  }

  lemma {:induction false} EvidenceAt(c: Custody, j: nat)
    requires FundingSound(c.evidence, c.claims, c.entries, c.transactions) && j < |c.evidence|
    ensures EvidenceSound(c.evidence[j], j, c.claims, c.entries, c.transactions)
  {
  }

  lemma {:induction false} Bounded(entries: seq<Entry>, transactions: nat)
    requires Balanced(entries, transactions)
    ensures forall k :: 0 <= k < |entries| ==> entries[k].transaction < transactions
  {
  }

  /** A key that is not claimed for house funding is no evidence's key. */
  lemma {:induction false} EvidenceClaims(c: Custody, key: Key)
    requires FundingSound(c.evidence, c.claims, c.entries, c.transactions)
    requires key in c.claims ==> c.claims[key].UserDeposit?
    ensures forall j :: 0 <= j < |c.evidence| ==> c.evidence[j].transfer.key != key
  {
    hide EntriesOf, Negated;
    forall j | 0 <= j < |c.evidence|
      ensures c.evidence[j].transfer.key != key
    {
      assert EvidenceSound(c.evidence[j], j, c.claims, c.entries, c.transactions);
    }
  }

  lemma {:induction false} CreditDeposits(c: Custody, after: Custody, i: nat, postings: seq<Entry>)
    requires DepositsSound(c.deposits, c.claims, c.entries, c.transactions) && Adds(c.entries, c.transactions, postings)
    requires i < |c.deposits| == |after.deposits| && c.deposits[i].transfer.key == after.deposits[i].transfer.key
    requires after.entries == c.entries + postings && after.transactions == c.transactions + 1
    requires after.claims == c.claims[c.deposits[i].transfer.key := UserDeposit(i)]
    requires forall j :: 0 <= j < |c.deposits| && j != i ==> after.deposits[j] == c.deposits[j]
    requires DepositSound(after.deposits[i], i, after.claims, after.entries, after.transactions)
    ensures DepositsSound(after.deposits, after.claims, after.entries, after.transactions)
  {
    hide EntriesOf, DepositSound;
    forall j | 0 <= j < |c.deposits|
      ensures DepositSound(after.deposits[j], j, after.claims, after.entries, after.transactions)
    {
      if j != i {
        assert c.deposits[j].transfer.key != c.deposits[i].transfer.key;
        DepositStays(c.deposits[j], j, c.claims, after.claims, c.entries, c.transactions, postings);
      }
    }
  }

  /** No claim that evidence relies on has changed. */
  lemma {:induction false} FundingStays(c: Custody, after: Custody, postings: seq<Entry>)
    requires FundingSound(c.evidence, c.claims, c.entries, c.transactions)
             && Adds(c.entries, c.transactions, postings) && after.evidence == c.evidence
    requires after.entries == c.entries + postings && after.transactions == c.transactions + 1
    requires forall j :: 0 <= j < |c.evidence| ==>
      var key := c.evidence[j].transfer.key;
      key in c.claims ==> key in after.claims && after.claims[key] == c.claims[key]
    ensures FundingSound(after.evidence, after.claims, after.entries, after.transactions)
  {
    hide EntriesOf, EvidenceSound;
    forall j | 0 <= j < |c.evidence|
      ensures EvidenceSound(after.evidence[j], j, after.claims, after.entries, after.transactions)
    {
      EvidenceStays(c.evidence[j], j, c.claims, after.claims, c.entries, c.transactions, postings);
    }
  }

  lemma {:induction false} CreditClaims(c: Custody, after: Custody, i: nat, key: Key)
    requires ClaimsSound(c.claims, c.deposits, c.evidence) && i < |c.deposits| == |after.deposits|
    requires after.claims == c.claims[key := UserDeposit(i)] && after.evidence == c.evidence
    requires after.deposits[i].transfer.key == key == c.deposits[i].transfer.key && after.deposits[i].credit.Some?
    requires forall j :: 0 <= j < |c.deposits| && j != i ==> after.deposits[j] == c.deposits[j]
    ensures ClaimsSound(after.claims, after.deposits, after.evidence)
  {
    forall k | k in after.claims
      ensures ClaimSound(k, after.claims[k], after.deposits, after.evidence)
    {
      if k != key {
        assert ClaimSound(k, c.claims[k], c.deposits, c.evidence);
      }
    }
  }

  // ---------------------------------------------------------------- crediting, as a whole

  lemma {:induction false} CreditConfirmedSound(c: Custody, t: Transfer, wallet: Option<nat>, quote: bool)
    requires Sound(c) && CreditConfirmed(c, t, wallet, quote).Ok?
    ensures Sound(CreditConfirmed(c, t, wallet, quote).value)
  {
    hide Sound, Credit, Observe;
    var o := Observe(c, t);
    ObserveSound(c, t);
    var id := DepositOf(o.deposits, t.key).value;
    var d := o.deposits[id];
    SoundDeposit(o, id);
    if d.status == Reorged && d.credit.Some? {
      HarmlessSound(o, id, Confirmed(d, t));
    } else if d.status == Credited {
      HarmlessSound(o, id, if SameBlock(d.transfer, t) then Confirmed(d, t) else Replaced(d, t));
    } else if wallet.None? {
      HarmlessSound(o, id, Replaced(d, t).(status := Ignored));
    } else if t.key in o.claims && o.claims[t.key] != UserDeposit(id) {
      HarmlessSound(o, id, if d.credit.None? then d.(status := Ignored) else d);
    } else {
      CreditSound(o, id, t, wallet.value, quote);
    }
  }

  lemma {:induction false} SoundDeposit(c: Custody, i: nat)
    requires Sound(c) && i < |c.deposits|
    ensures DepositSound(c.deposits[i], i, c.claims, c.entries, c.transactions)
  {
    hide Balanced, Tallied, FundingSound, ClaimsSound, EntriesOf;
  }

  // ---------------------------------------------------------------- funding, as a whole

  lemma {:induction false} FundTallied(c: Custody, e: Evidence, postings: seq<Entry>)
    requires Tallied(c.deposits, c.evidence, c.entries) && e.compensation.None?
    requires postings == Postings(c.transactions, ExternalHouseFunding, HouseOperating, e.transfer.amount)
    ensures Tallied(c.deposits, c.evidence + [e], c.entries + postings)
  {
    hide BalanceOf, CreditedTotal, CreditedTo;
    assert (c.evidence + [e])[..|c.evidence|] == c.evidence;
    forall account: Account
      ensures BalanceOf(c.entries + postings, account)
           == BalanceOf(c.entries, account)
              + (if account == HouseOperating then e.transfer.amount
                 else if account == ExternalHouseFunding then -e.transfer.amount else 0)
    {
      BalanceConcat(c.entries, postings, account);
      PostingsFacts(c.transactions, ExternalHouseFunding, HouseOperating, e.transfer.amount, account);
    }
  }

  lemma {:induction false} FundRows(c: Custody, after: Custody, e: Evidence, postings: seq<Entry>)
    requires FundingSound(c.evidence, c.claims, c.entries, c.transactions) && Adds(c.entries, c.transactions, postings)
    requires DepositsSound(c.deposits, c.claims, c.entries, c.transactions)
    requires ClaimsSound(c.claims, c.deposits, c.evidence)
    requires e.transfer.key !in c.claims && EvidenceOf(c.evidence, e.transfer.key).None?
    requires after.evidence == c.evidence + [e] && after.deposits == c.deposits
    requires after.claims == c.claims[e.transfer.key := HouseFunding(|c.evidence|)]
    requires after.entries == c.entries + postings && after.transactions == c.transactions + 1
    requires EvidenceSound(e, |c.evidence|, after.claims, after.entries, after.transactions)
    ensures FundingSound(after.evidence, after.claims, after.entries, after.transactions)
    ensures DepositsSound(after.deposits, after.claims, after.entries, after.transactions)
    ensures ClaimsSound(after.claims, after.deposits, after.evidence)
  {
    hide EntriesOf, EvidenceSound, DepositSound;
    EvidenceMissing(c.evidence, e.transfer.key);
    forall j | 0 <= j < |c.evidence|
      ensures EvidenceSound(c.evidence[j], j, after.claims, after.entries, after.transactions)
    {
      EvidenceStays(c.evidence[j], j, c.claims, after.claims, c.entries, c.transactions, postings);
    }
    forall i | 0 <= i < |c.deposits|
      ensures DepositSound(c.deposits[i], i, after.claims, after.entries, after.transactions)
    {
      DepositStays(c.deposits[i], i, c.claims, after.claims, c.entries, c.transactions, postings);
    }
    forall k | k in after.claims
      ensures ClaimSound(k, after.claims[k], after.deposits, after.evidence)
    {
      if k != e.transfer.key {
        assert ClaimSound(k, c.claims[k], c.deposits, c.evidence);
      }
    }
  }

  lemma {:induction false} FundSound(c: Custody, t: Transfer)
    requires Sound(c) && 0 < t.amount && t.key !in c.claims && EvidenceOf(c.evidence, t.key).None?
    ensures Sound(Fund(c, t))
  {
    hide EntriesOf, Tallied, Balanced, BalanceOf, SumEntries, Negated, DepositsSound, FundingSound, ClaimsSound, Post,
         UserBalance, FundedTotal;
    var after := Fund(c, t);
    var postings := Postings(c.transactions, ExternalHouseFunding, HouseOperating, t.amount);
    PostTables(c, ExternalHouseFunding, HouseOperating, t.amount);
    Bounded(c.entries, c.transactions);
    PostingsFacts(c.transactions, ExternalHouseFunding, HouseOperating, t.amount, HouseOperating);
    AddedBalanced(c.entries, c.transactions, postings);
    AddedEntries(c.entries, c.transactions, postings, c.transactions);
    var e := after.evidence[|c.evidence|];
    FundTallied(c, e, postings);
    FundRows(c, after, e, postings);
  }

  lemma {:induction false} FundHouseSound(c: Custody, t: Transfer, operator: nat, approver: nat, linked: bool)
    requires Sound(c) && FundHouse(c, t, operator, approver, linked).Ok?
    ensures Sound(FundHouse(c, t, operator, approver, linked).value)
  {
    hide Sound, Fund;
    if EvidenceOf(c.evidence, t.key).None? {
      FundSound(c, t);
    }
  }

  // ---------------------------------------------------------------- compensating

  /** The negated postings of a transaction under a new number undo it in every account. */
  lemma {:induction false} CompensateFacts(c: Custody, transaction: nat, account: Account)
    requires Balanced(c.entries, c.transactions)
    ensures var postings := Negated(EntriesOf(c.entries, transaction), c.transactions);
            && Adds(c.entries, c.transactions, postings) && SumEntries(postings) == 0
            && BalanceOf(c.entries + postings, account)
               == BalanceOf(c.entries, account) - BalanceOf(EntriesOf(c.entries, transaction), account)
  {
    var postings := Negated(EntriesOf(c.entries, transaction), c.transactions);
    NegatedFacts(EntriesOf(c.entries, transaction), c.transactions, account);
    BalanceConcat(c.entries, postings, account);
  }

  /** The deposit once its credit is compensated. */
  function Compensated(c: Custody, i: nat): Deposit
    requires i < |c.deposits|
  {
    var d := c.deposits[i];
    d.(status := Reorged, incident := Coalesce(d.incident, Some(|c.incidents|)),
       compensation := Coalesce(d.compensation, Some(c.transactions)))
  }

  lemma {:induction false} UncreditTallied(c: Custody, i: nat, postings: seq<Entry>)
    requires Tallied(c.deposits, c.evidence, c.entries) && Balanced(c.entries, c.transactions) && i < |c.deposits|
    requires c.deposits[i].status == Credited && c.deposits[i].credit.Some? && c.deposits[i].user.Some?
    requires Credits(c.deposits[i], EntriesOf(c.entries, c.deposits[i].credit.value))
    requires postings == Negated(EntriesOf(c.entries, c.deposits[i].credit.value), c.transactions)
    ensures Tallied(c.deposits[i := Compensated(c, i)], c.evidence, c.entries + postings)
  {
    hide EntriesOf, Negated, Balanced;
    var d := c.deposits[i];
    var after := c.deposits[i := Compensated(c, i)];
    var to := EntriesOf(c.entries, d.credit.value)[0].account;
    forall account: Account
      ensures BalanceOf(c.entries + postings, account)
           == BalanceOf(c.entries, account)
              - (if account == to then d.transfer.amount
                 else if account == ExternalDeposits then -d.transfer.amount else 0)
    {
      CompensateFacts(c, d.credit.value, account);
      PostingsFacts(d.credit.value, ExternalDeposits, to, d.transfer.amount, account);
    }
    ChangedDeposit(c.deposits, i, Compensated(c, i), 0);
    forall user: nat
      ensures UserBalance(c.entries + postings, user) == CreditedTo(after, user)
    {
      ChangedDeposit(c.deposits, i, Compensated(c, i), user);
    }
  }

  lemma {:induction false} UncreditDeposits(c: Custody, i: nat, d: Deposit, postings: seq<Entry>)
    requires DepositsSound(c.deposits, c.claims, c.entries, c.transactions) && Adds(c.entries, c.transactions, postings)
    requires i < |c.deposits| && c.deposits[i].transfer.key == d.transfer.key
    requires DepositSound(d, i, c.claims, c.entries + postings, c.transactions + 1)
    ensures DepositsSound(c.deposits[i := d], c.claims, c.entries + postings, c.transactions + 1)
  {
    hide EntriesOf, DepositSound;
    var after := c.deposits[i := d];
    forall j | 0 <= j < |after|
      ensures DepositSound(after[j], j, c.claims, c.entries + postings, c.transactions + 1)
    {
      if j != i {
        DepositStays(c.deposits[j], j, c.claims, c.claims, c.entries, c.transactions, postings);
      }
    }
  }

  /** The compensated deposit: its credit stays on record, undone to the last unit. */
  lemma {:induction false} CompensatedSound(c: Custody, i: nat, postings: seq<Entry>)
    requires i < |c.deposits| && DepositSound(c.deposits[i], i, c.claims, c.entries, c.transactions)
    requires c.deposits[i].credit.Some? && c.deposits[i].status == Credited && Adds(c.entries, c.transactions, postings)
    requires postings == Negated(EntriesOf(c.entries, c.deposits[i].credit.value), c.transactions)
    ensures DepositSound(Compensated(c, i), i, c.claims, c.entries + postings, c.transactions + 1)
  {
    hide EntriesOf, Negated;
    AddedEntries(c.entries, c.transactions, postings, c.deposits[i].credit.value);
    AddedEntries(c.entries, c.transactions, postings, c.transactions);
  }

  lemma {:induction false} StillClaimed(c: Custody, i: nat, d: Deposit)
    requires ClaimsSound(c.claims, c.deposits, c.evidence) && i < |c.deposits|
    requires d.transfer.key == c.deposits[i].transfer.key && (c.deposits[i].credit.Some? ==> d.credit.Some?)
    ensures ClaimsSound(c.claims, c.deposits[i := d], c.evidence)
  {
    forall key | key in c.claims
      ensures ClaimSound(key, c.claims[key], c.deposits[i := d], c.evidence)
    {
      assert ClaimSound(key, c.claims[key], c.deposits, c.evidence);
    }
  }

  lemma {:induction false} UncreditSound(c: Custody, i: nat)
    requires Sound(c) && i < |c.deposits| && c.deposits[i].status == Credited
    ensures ReorgDeposit(c, i).Ok? && Sound(ReorgDeposit(c, i).value)
  {
    hide Tallied, Balanced, BalanceOf, SumEntries, Negated, DepositsSound, FundingSound, ClaimsSound, EntriesOf,
         UserBalance;
    DepositAt(c, i);
    var transaction := c.deposits[i].credit.value;
    var postings := Negated(EntriesOf(c.entries, transaction), c.transactions);
    Bounded(c.entries, c.transactions);
    CompensateFacts(c, transaction, ExternalDeposits);
    AddedBalanced(c.entries, c.transactions, postings);
    UncreditTallied(c, i, postings);
    CompensatedSound(c, i, postings);
    UncreditDeposits(c, i, Compensated(c, i), postings);
    FundingStays(c, Compensate(c, transaction), postings);
    StillClaimed(c, i, Compensated(c, i));
  }

  /** An orphaned deposit can always be reorganised: no ledger link is ever missing. */
  lemma {:induction false} ReorgDepositSound(c: Custody, i: nat)
    requires Sound(c) && i < |c.deposits| && c.deposits[i].status != Reorged
    ensures ReorgDeposit(c, i).Ok? && Sound(ReorgDeposit(c, i).value)
  {
    hide Sound;
    SoundDeposit(c, i);
    if c.deposits[i].status == Credited {
      UncreditSound(c, i);
    } else {
      HarmlessSound(c, i, c.deposits[i].(status := Reorged));
    }
  }

  // ---------------------------------------------------------------- reorganised funding

  lemma {:induction false} UnfundTallied(c: Custody, j: nat, e: Evidence, postings: seq<Entry>)
    requires Tallied(c.deposits, c.evidence, c.entries) && Balanced(c.entries, c.transactions) && j < |c.evidence|
    requires c.evidence[j].compensation.None? && e.compensation.Some? && e.transfer == c.evidence[j].transfer
    requires EntriesOf(c.entries, c.evidence[j].transaction)
          == Postings(c.evidence[j].transaction, ExternalHouseFunding, HouseOperating, e.transfer.amount)
    requires postings == Negated(EntriesOf(c.entries, c.evidence[j].transaction), c.transactions)
    ensures Tallied(c.deposits, c.evidence[j := e], c.entries + postings)
  {
    hide EntriesOf, Negated, Balanced, BalanceOf, CreditedTotal, CreditedTo, FundedTotal;
    var transaction := c.evidence[j].transaction;
    forall account: Account
      ensures BalanceOf(c.entries + postings, account)
           == BalanceOf(c.entries, account)
              - (if account == HouseOperating then e.transfer.amount
                 else if account == ExternalHouseFunding then -e.transfer.amount else 0)
    {
      CompensateFacts(c, transaction, account);
      PostingsFacts(transaction, ExternalHouseFunding, HouseOperating, e.transfer.amount, account);
    }
    ChangedEvidence(c.evidence, j, e);
  }

  lemma {:induction false} UnfundRows(c: Custody, j: nat, e: Evidence, postings: seq<Entry>)
    requires FundingSound(c.evidence, c.claims, c.entries, c.transactions) && Adds(c.entries, c.transactions, postings)
    requires j < |c.evidence| && e.transfer == c.evidence[j].transfer
    requires EvidenceSound(e, j, c.claims, c.entries + postings, c.transactions + 1)
    ensures FundingSound(c.evidence[j := e], c.claims, c.entries + postings, c.transactions + 1)
  {
    hide EntriesOf, EvidenceSound;
    var after := c.evidence[j := e];
    forall k | 0 <= k < |after|
      ensures EvidenceSound(after[k], k, c.claims, c.entries + postings, c.transactions + 1)
    {
      if k != j {
        EvidenceStays(c.evidence[k], k, c.claims, c.claims, c.entries, c.transactions, postings);
      }
    }
  }

  lemma {:induction false} UnfundClaims(c: Custody, j: nat, e: Evidence)
    requires ClaimsSound(c.claims, c.deposits, c.evidence) && j < |c.evidence| && e.transfer == c.evidence[j].transfer
    ensures ClaimsSound(c.claims, c.deposits, c.evidence[j := e])
  {
    forall key | key in c.claims
      ensures ClaimSound(key, c.claims[key], c.deposits, c.evidence[j := e])
    {
      assert ClaimSound(key, c.claims[key], c.deposits, c.evidence);
    }
  }

  lemma {:induction false} UnfundDeposits(c: Custody, postings: seq<Entry>)
    requires DepositsSound(c.deposits, c.claims, c.entries, c.transactions) && Adds(c.entries, c.transactions, postings)
    ensures DepositsSound(c.deposits, c.claims, c.entries + postings, c.transactions + 1)
  {
    hide EntriesOf, DepositSound;
    forall i | 0 <= i < |c.deposits|
      ensures DepositSound(c.deposits[i], i, c.claims, c.entries + postings, c.transactions + 1)
    {
      DepositStays(c.deposits[i], i, c.claims, c.claims, c.entries, c.transactions, postings);
    }
  }

  lemma {:induction false} ReorgFundingSound(c: Custody, j: nat)
    requires Sound(c) && j < |c.evidence| && c.evidence[j].compensation.None?
    ensures ReorgFunding(c, j).Ok? && Sound(ReorgFunding(c, j).value)
  {
    hide Tallied, Balanced, BalanceOf, SumEntries, Negated, DepositsSound, FundingSound, ClaimsSound, EntriesOf,
         UserBalance;
    EvidenceAt(c, j);
    var e := c.evidence[j];
    var postings := Negated(EntriesOf(c.entries, e.transaction), c.transactions);
    Bounded(c.entries, c.transactions);
    CompensateFacts(c, e.transaction, HouseOperating);
    AddedBalanced(c.entries, c.transactions, postings);
    var after := e.(compensation := Some(c.transactions));
    UnfundTallied(c, j, after, postings);
    AddedEntries(c.entries, c.transactions, postings, e.transaction);
    AddedEntries(c.entries, c.transactions, postings, c.transactions);
    UnfundRows(c, j, after, postings);
    UnfundClaims(c, j, after);
    UnfundDeposits(c, postings);
  }

  // ---------------------------------------------------------------- whole reorganisations

  lemma {:induction false} ReorgDepositsSound(c: Custody, scan: Scan, n: nat)
    requires Sound(c) && n <= |c.deposits|
    ensures ReorgDeposits(c, scan, n).Ok?
    ensures var after := ReorgDeposits(c, scan, n).value;
            && Sound(after) && after.evidence == c.evidence
            && (forall i :: n <= i < |c.deposits| ==> after.deposits[i] == c.deposits[i])
  {
    hide Sound;
    if n != 0 {
      ReorgDepositsSound(c, scan, n - 1);
      var rest := ReorgDeposits(c, scan, n - 1).value;
      if Orphaned(c.deposits, scan, n - 1) {
        ReorgDepositSound(rest, n - 1);
      }
    }
  }

  lemma {:induction false} ReorgFundingsSound(c: Custody, scan: Scan, n: nat)
    requires Sound(c) && n <= |c.evidence|
    ensures ReorgFundings(c, scan, n).Ok?
    ensures var after := ReorgFundings(c, scan, n).value;
            && Sound(after) && after.deposits == c.deposits
            && (forall j :: n <= j < |c.evidence| ==> after.evidence[j] == c.evidence[j])
  {
    hide Sound;
    if n != 0 {
      ReorgFundingsSound(c, scan, n - 1);
      var rest := ReorgFundings(c, scan, n - 1).value;
      if FundingOrphaned(c.evidence, scan, n - 1) {
        ReorgFundingSound(rest, n - 1);
      }
    }
  }

  /** A reorganisation always goes through: neither missing-ledger guard can fire. */
  lemma {:induction false} MarkReorgedSound(c: Custody, scan: Scan)
    requires Sound(c)
    ensures MarkReorged(c, scan).Ok? && Sound(MarkReorged(c, scan).value)
  {
    hide Sound;
    ReorgDepositsSound(c, scan, |c.deposits|);
    var marked := ReorgDeposits(c, scan, |c.deposits|).value;
    ReorgFundingsSound(marked, scan, |marked.evidence|);
  }

  // ---------------------------------------------------------------- over runs

  lemma {:induction false} EmptySound()
    ensures Sound(EmptyCustody)
  {
  }

  lemma {:induction false} StepSound(c: Custody, step: Step)
    requires Sound(c)
    ensures Sound(Apply(c, step))
  {
    hide Sound, CreditConfirmed, FundHouse, MarkReorged;
    if Attempt(c, step).Ok? {
      match step
      case CreditStep(t, wallet, quote) => CreditConfirmedSound(c, t, wallet, quote);
      case FundStep(t, operator, approver, linked) => FundHouseSound(c, t, operator, approver, linked);
      case ReorgStep(scan) => MarkReorgedSound(c, scan);
    }
  }

  /** Whatever is credited, funded and reorganised, in whatever order, the ledger stays sound. */
  lemma {:induction false} RunSound(steps: seq<Step>)
    ensures Sound(Run(steps))
    decreases |steps|
  {
    hide Sound, Apply;
    if steps == [] {
      EmptySound();
    } else {
      RunSound(steps[..|steps| - 1]);
      StepSound(Run(steps[..|steps| - 1]), steps[|steps| - 1]);
    }
  }

  /** Every ledger transaction sums to zero. */
  lemma {:induction false} TransactionsBalance(steps: seq<Step>, t: nat)
    ensures SumEntries(EntriesOf(Run(steps).entries, t)) == 0
  {
    hide Run, Tallied, DepositsSound, FundingSound, ClaimsSound;
    RunSound(steps);
  }

  /** What the deposit's own transactions, its credit and its compensation, did to its user. */
  function NetEffect(c: Custody, i: nat): int
    requires i < |c.deposits|
  {
    var d := c.deposits[i];
    if d.user.None? then 0
    else
      (if d.credit.Some? then UserBalance(EntriesOf(c.entries, d.credit.value), d.user.value) else 0)
      + (if d.compensation.Some? then UserBalance(EntriesOf(c.entries, d.compensation.value), d.user.value) else 0)
  }

  /** A deposit's net effect on its user is its amount while it is credited, and nothing otherwise. */
  lemma {:induction false} DepositsNetOut(steps: seq<Step>, i: nat)
    requires i < |Run(steps).deposits|
    ensures var d := Run(steps).deposits[i];
            NetEffect(Run(steps), i) == if d.status == Credited then d.transfer.amount else 0
  {
    var c := Run(steps);
    RunSound(steps);
    hide Run, EntriesOf, Negated, Sound, BalanceOf;
    SoundDeposit(c, i);
    var d := c.deposits[i];
    if d.credit.Some? {
      var to := EntriesOf(c.entries, d.credit.value)[0].account;
      PostingsFacts(d.credit.value, ExternalDeposits, to, d.transfer.amount, UserAvailable(d.user.value));
      PostingsFacts(d.credit.value, ExternalDeposits, to, d.transfer.amount, UserCheckout(d.user.value));
      if d.compensation.Some? {
        NegatedFacts(EntriesOf(c.entries, d.credit.value), d.compensation.value, UserAvailable(d.user.value));
        NegatedFacts(EntriesOf(c.entries, d.credit.value), d.compensation.value, UserCheckout(d.user.value));
      }
    }
  }

  /**
   The accounts hold exactly what stands: each user the deposits still credited to them, the
   house the funding still on the chain, and the external accounts their opposites.
   */
  lemma {:induction false} AccountsHoldWhatStands(steps: seq<Step>, user: nat)
    ensures var c := Run(steps);
            && UserBalance(c.entries, user) == CreditedTo(c.deposits, user)
            && BalanceOf(c.entries, ExternalDeposits) == -CreditedTotal(c.deposits)
            && BalanceOf(c.entries, HouseOperating) == FundedTotal(c.evidence)
            && BalanceOf(c.entries, ExternalHouseFunding) == -FundedTotal(c.evidence)
  {
    hide Run, Balanced, DepositsSound, FundingSound, ClaimsSound, BalanceOf, CreditedTotal, CreditedTo, FundedTotal;
    RunSound(steps);
  }

  /** No transfer is both credited to a user and booked as house funding. */
  lemma {:induction false} NeverBookedTwice(steps: seq<Step>, i: nat, j: nat)
    requires i < |Run(steps).deposits| && j < |Run(steps).evidence|
    requires Run(steps).deposits[i].credit.Some?
    ensures Run(steps).deposits[i].transfer.key != Run(steps).evidence[j].transfer.key
  {
    var c := Run(steps);
    RunSound(steps);
    hide Run, Balanced, Tallied, EntriesOf, ClaimsSound;
    assert DepositSound(c.deposits[i], i, c.claims, c.entries, c.transactions);
    assert EvidenceSound(c.evidence[j], j, c.claims, c.entries, c.transactions);
  }
}
