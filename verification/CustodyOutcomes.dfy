/** What every custody operation does to every table, row by row and account by account. */
module CustodyOutcomes {
  import opened Common
  import opened CustodyTables
  import opened CustodyInvariant
  import CustodyLedger
  import CustodyReorgs
  import CustodyRuns

  // ---------------------------------------------------------------- crediting

  /** The row of a transfer: the one with its key or, when no row has it, the next one. */
  ghost predicate RowOf(deposits: seq<Deposit>, key: Key, i: nat) {
    if i < |deposits| then deposits[i].transfer.key == key
    else i == |deposits| && forall k :: 0 <= k < |deposits| ==> deposits[k].transfer.key != key
  }

  /** No row but `i` has changed, and row `i` is about the same transfer. */
  ghost predicate OnlyRow(before: seq<Deposit>, after: seq<Deposit>, i: nat, t: Transfer) {
    && i < |after| && |after| == (if i < |before| then |before| else |before| + 1)
    && (forall k :: 0 <= k < |before| && k != i ==> after[k] == before[k])
    && (var row := after[i].transfer;
        && row.key == t.key && row.sender == t.sender && row.receiver == t.receiver && row.token == t.token
        && row.amount == t.amount)
  }

  /** The row stands where the transfer was seen now. */
  predicate PlacedAs(row: Transfer, t: Transfer) {
    row.block == t.block && row.blockHash == t.blockHash && row.confirmations == t.confirmations
  }

  /** The row stays where it was, with the larger number of confirmations. */
  predicate StaysInPlace(before: Transfer, row: Transfer, t: Transfer) {
    && row.block == before.block && row.blockHash == before.blockHash
    && before.confirmations <= row.confirmations && t.confirmations <= row.confirmations
    && (row.confirmations == before.confirmations || row.confirmations == t.confirmations)
  }

  /** No money, no claim, no incident. */
  predicate OnlyDeposits(before: Custody, after: Custody) {
    && after.claims == before.claims && after.evidence == before.evidence && after.entries == before.entries
    && after.transactions == before.transactions && after.incidents == before.incidents
    && after.blocked == before.blocked
  }

  /** The ledger has exactly one new transaction, which moves an amount between two accounts. */
  ghost predicate Moves(before: Custody, after: Custody, from: Account, to: Account, amount: int) {
    && after.transactions == before.transactions + 1
    && after.entries == before.entries + [Entry(before.transactions, to, amount),
                                          Entry(before.transactions, from, -amount)]
    && (forall account: Account ::
          BalanceOf(after.entries, account)
          == BalanceOf(before.entries, account)
             + (if account == to then amount else if account == from then -amount else 0))
  }

  lemma {:induction false} PostMoves(c: Custody, from: Account, to: Account, amount: int)
    requires from != to
    ensures Moves(c, Post(c, from, to, amount), from, to, amount)
  {
    CustodyRuns.PostTables(c, from, to, amount);
    forall account: Account
      ensures BalanceOf(Post(c, from, to, amount).entries, account)
           == BalanceOf(c.entries, account)
              + (if account == to then amount else if account == from then -amount else 0)
    {
      BalanceConcat(c.entries, Postings(c.transactions, from, to, amount), account);
      PostingsFacts(c.transactions, from, to, amount, account);
    }
  }

  lemma {:induction false} RowIsFound(deposits: seq<Deposit>, key: Key, i: nat)
    requires RowOf(deposits, key, i)
    requires forall j, k :: 0 <= j < k < |deposits| ==> deposits[j].transfer.key != deposits[k].transfer.key
    ensures DepositOf(deposits, key) == if i < |deposits| then Some(i) else None
  {
    if i < |deposits| {
      DepositFound(deposits, i);
    }
  }

  /** The row that a transfer is recorded in. */
  function RowNow(c: Custody, t: Transfer, i: nat): Deposit {
    if i < |c.deposits| then c.deposits[i] else Deposit(t, Observed, None, None, None, None)
  }

  lemma {:induction false} ObservedAt(c: Custody, t: Transfer, i: nat)
    requires Sound(c) && RowOf(c.deposits, t.key, i)
    ensures var o := Observe(c, t);
            && DepositOf(o.deposits, t.key) == Some(i) && OnlyDeposits(c, o)
            && |o.deposits| == (if i < |c.deposits| then |c.deposits| else |c.deposits| + 1)
            && (forall k :: 0 <= k < |c.deposits| ==> o.deposits[k] == c.deposits[k])
            && i < |o.deposits| && o.deposits[i] == RowNow(c, t, i) && o.deposits[i].transfer.key == t.key
  {
    hide Balanced, Tallied, FundingSound, ClaimsSound, DepositSound;
    RowIsFound(c.deposits, t.key, i);
    if i == |c.deposits| {
      CustodyReorgs.ObservedLast(c.deposits, Deposit(t, Observed, None, None, None, None));
    }
  }

  /** Who else has claimed a transfer that no deposit row was credited for: the house, if anyone. */
  lemma {:induction false} ClaimedElsewhere(c: Custody, i: nat, key: Key)
    requires Sound(c) && RowOf(c.deposits, key, i)
    ensures i < |c.deposits| ==>
              && 0 < c.deposits[i].transfer.amount
              && (c.deposits[i].status == Credited ==> c.deposits[i].credit.Some?)
              && (c.deposits[i].credit.Some? ==> c.deposits[i].status == Credited || c.deposits[i].status == Reorged)
              && (c.deposits[i].credit.None? ==> c.deposits[i].compensation.None?)
    ensures !(i < |c.deposits| && c.deposits[i].credit.Some?) && key in c.claims ==> c.claims[key].HouseFunding?
  {
    hide Balanced, Tallied, FundingSound, EntriesOf, Negated;
    if i < |c.deposits| {
      CustodyRuns.SoundDeposit(c, i);
    }
    if key in c.claims {
      assert ClaimSound(key, c.claims[key], c.deposits, c.evidence);
    }
  }

  /** A row that was credited once only learns its place, or else its confirmations. */
  ghost predicate Relearns(c: Custody, after: Custody, t: Transfer, i: nat)
    requires i < |c.deposits| && i < |after.deposits|
  {
    var was, row := c.deposits[i], after.deposits[i];
    && OnlyDeposits(c, after) && row == was.(transfer := row.transfer)
    && if was.status == Credited && !(was.transfer.block == t.block && was.transfer.blockHash == t.blockHash)
       then PlacedAs(row.transfer, t)
       else StaysInPlace(was.transfer, row.transfer, t)
  }

  /** The row is ignored, and nothing else has happened: without a wallet it is placed, else left where it was. */
  ghost predicate Ignores(c: Custody, after: Custody, t: Transfer, placed: bool, i: nat)
    requires i < |after.deposits|
  {
    var was, row := RowNow(c, t, i), after.deposits[i];
    && OnlyDeposits(c, after) && row == was.(status := Ignored, transfer := row.transfer)
    && if placed then PlacedAs(row.transfer, t) else row.transfer == was.transfer
  }

  /** The amount goes to the user: to the checkout account with a matching quote, else to the available one. */
  ghost predicate Pays(c: Custody, after: Custody, t: Transfer, user: nat, quote: bool, i: nat)
    requires i < |after.deposits|
  {
    var row := after.deposits[i];
    && row.status == Credited && row.user == Some(user) && row.credit == Some(c.transactions)
    && row.compensation == None && row.incident == RowNow(c, t, i).incident && PlacedAs(row.transfer, t)
    && after.claims == c.claims[t.key := UserDeposit(i)]
    && Moves(c, after, ExternalDeposits, if quote then UserCheckout(user) else UserAvailable(user), t.amount)
    && after.evidence == c.evidence && after.incidents == c.incidents && after.blocked == c.blocked
  }

  predicate SameTransfer(row: Transfer, t: Transfer) {
    row.sender == t.sender && row.receiver == t.receiver && row.token == t.token && row.amount == t.amount
  }

  /** How an observed row is decided, and that only it changes. */
  lemma {:induction false} RowDecides(c: Custody, t: Transfer, wallet: Option<nat>, quote: bool, i: nat)
    requires Sound(c) && RowOf(c.deposits, t.key, i) && 0 < t.amount
    ensures var o, d, r := Observe(c, t), RowNow(c, t, i), CreditConfirmed(c, t, wallet, quote);
            && i < |o.deposits|
            && if !SameTransfer(d.transfer, t) then r == Err(DepositFactConflict)
               else if d.status == Reorged && d.credit.Some? then
                 r == Ok(o.(deposits := o.deposits[i := Confirmed(d, t)]))
               else if d.status == Credited then
                 r == Ok(o.(deposits := o.deposits[i := if SameBlock(d.transfer, t) then Confirmed(d, t)
                                                        else Replaced(d, t)]))
               else if wallet.None? then r == Ok(o.(deposits := o.deposits[i := Replaced(d, t).(status := Ignored)]))
               else if t.key in o.claims && o.claims[t.key] != UserDeposit(i) then
                 r == Ok(o.(deposits := o.deposits[i := if d.credit.None? then d.(status := Ignored) else d]))
               else r == Ok(Credit(o, i, t, wallet.value, quote))
  {
    ObservedAt(c, t, i);
    hide Sound, Observe, Credit, Confirmed, Replaced, SameBlock;
  }

  /** Setting the row after observing it changes nothing else. */
  lemma {:induction false} RowSet(c: Custody, t: Transfer, i: nat, row: Deposit)
    requires Sound(c) && RowOf(c.deposits, t.key, i) && row.transfer.key == t.key && SameTransfer(row.transfer, t)
    ensures var o := Observe(c, t);
            && i < |o.deposits|
            && var after := o.(deposits := o.deposits[i := row]);
               OnlyRow(c.deposits, after.deposits, i, t) && OnlyDeposits(c, after) && after.deposits[i] == row
  {
    ObservedAt(c, t, i);
    hide Sound, Observe, RowOf;
  }

  lemma {:induction false} RowNowOf(c: Custody, t: Transfer, i: nat)
    requires RowOf(c.deposits, t.key, i)
    ensures RowNow(c, t, i).transfer.key == t.key
  {
  }

  lemma {:induction false} CreditedRow(c: Custody, t: Transfer, wallet: Option<nat>, quote: bool, i: nat)
    requires Sound(c) && RowOf(c.deposits, t.key, i) && 0 < t.amount && SameTransfer(RowNow(c, t, i).transfer, t)
    requires i < |c.deposits| && c.deposits[i].credit.Some?
    ensures var r := CreditConfirmed(c, t, wallet, quote);
            r.Ok? && OnlyRow(c.deposits, r.value.deposits, i, t) && Relearns(c, r.value, t, i)
  {
    RowNowOf(c, t, i);
    ClaimedElsewhere(c, i, t.key);
    RowDecides(c, t, wallet, quote, i);
    var d := c.deposits[i];
    RowSet(c, t, i, if d.status == Credited && !SameBlock(d.transfer, t) then Replaced(d, t) else Confirmed(d, t));
    hide Sound, Observe, CreditConfirmed, RowOf, OnlyRow;
  }

  lemma {:induction false} UnlinkedRow(c: Custody, t: Transfer, quote: bool, i: nat)
    requires Sound(c) && RowOf(c.deposits, t.key, i) && 0 < t.amount && SameTransfer(RowNow(c, t, i).transfer, t)
    requires RowNow(c, t, i).credit.None?
    ensures var r := CreditConfirmed(c, t, None, quote);
            r.Ok? && OnlyRow(c.deposits, r.value.deposits, i, t) && Ignores(c, r.value, t, true, i)
  {
    RowNowOf(c, t, i);
    ClaimedElsewhere(c, i, t.key);
    RowDecides(c, t, None, quote, i);
    RowSet(c, t, i, Replaced(RowNow(c, t, i), t).(status := Ignored));
    hide Sound, Observe, CreditConfirmed, RowOf, OnlyRow;
  }

  lemma {:induction false} ClaimDecides(c: Custody, t: Transfer, user: nat, quote: bool, i: nat)
    requires Sound(c) && RowOf(c.deposits, t.key, i) && 0 < t.amount && SameTransfer(RowNow(c, t, i).transfer, t)
    requires RowNow(c, t, i).credit.None? && t.key in c.claims
    ensures var o := Observe(c, t);
            && i < |o.deposits|
            && CreditConfirmed(c, t, Some(user), quote)
               == Ok(o.(deposits := o.deposits[i := RowNow(c, t, i).(status := Ignored)]))
  {
    ObservedAt(c, t, i);
    ClaimedElsewhere(c, i, t.key);
    RowDecides(c, t, Some(user), quote, i);
    hide Sound, Observe, CreditConfirmed, RowOf, Credit, Confirmed, Replaced, SameBlock;
  }

  lemma {:induction false} ClaimedRow(c: Custody, t: Transfer, user: nat, quote: bool, i: nat)
    requires Sound(c) && RowOf(c.deposits, t.key, i) && 0 < t.amount && SameTransfer(RowNow(c, t, i).transfer, t)
    requires RowNow(c, t, i).credit.None? && t.key in c.claims
    ensures var r := CreditConfirmed(c, t, Some(user), quote);
            r.Ok? && OnlyRow(c.deposits, r.value.deposits, i, t) && Ignores(c, r.value, t, false, i)
  {
    RowNowOf(c, t, i);
    ClaimDecides(c, t, user, quote, i);
    RowSet(c, t, i, RowNow(c, t, i).(status := Ignored));
    hide Sound, Observe, CreditConfirmed, RowOf, OnlyRow;
  }

  lemma {:induction false} PaidRow(c: Custody, t: Transfer, user: nat, quote: bool, i: nat)
    requires Sound(c) && RowOf(c.deposits, t.key, i) && 0 < t.amount && SameTransfer(RowNow(c, t, i).transfer, t)
    requires RowNow(c, t, i).credit.None? && t.key !in c.claims
    ensures var r := CreditConfirmed(c, t, Some(user), quote);
            r.Ok? && OnlyRow(c.deposits, r.value.deposits, i, t) && Pays(c, r.value, t, user, quote, i)
  {
    ObservedAt(c, t, i);
    ClaimedElsewhere(c, i, t.key);
    RowDecides(c, t, Some(user), quote, i);
    var o := Observe(c, t);
    hide Sound, Observe, CreditConfirmed, RowOf;
    PostMoves(o, ExternalDeposits, CreditAccount(user, quote), t.amount);
    hide Post;
  }

  /**
   How crediting ends. A transfer without an amount, or with other facts than its row, is refused. A row that was
   credited once only learns its place or its confirmations. Without a linked wallet, or when the transfer was booked as
   house funding, the row is ignored. In all other cases the wallet's owner is paid.
   */
  lemma {:induction false} CreditEnds(c: Custody, t: Transfer, wallet: Option<nat>, quote: bool, i: nat)
    requires Sound(c) && RowOf(c.deposits, t.key, i)
    ensures var r := CreditConfirmed(c, t, wallet, quote);
            if t.amount <= 0 then r == Err(InvalidDepositAmount)
            else if i < |c.deposits| && !SameTransfer(c.deposits[i].transfer, t) then r == Err(DepositFactConflict)
            else
              && r.Ok? && OnlyRow(c.deposits, r.value.deposits, i, t)
              && if i < |c.deposits| && c.deposits[i].credit.Some? then Relearns(c, r.value, t, i)
                 else if wallet.None? || t.key in c.claims then Ignores(c, r.value, t, wallet.None?, i)
                 else Pays(c, r.value, t, wallet.value, quote, i)
  {
    if 0 < t.amount && SameTransfer(RowNow(c, t, i).transfer, t) {
      if RowNow(c, t, i).credit.Some? {
        CreditedRow(c, t, wallet, quote, i);
      } else if wallet.None? {
        UnlinkedRow(c, t, quote, i);
      } else if t.key in c.claims {
        ClaimedRow(c, t, wallet.value, quote, i);
      } else {
        PaidRow(c, t, wallet.value, quote, i);
      }
    } else if 0 < t.amount {
      RowDecides(c, t, wallet, quote, i);
    }
    hide Sound, Relearns, Ignores, Pays, PlacedAs, OnlyRow;
  }

  // ---------------------------------------------------------------- house funding

  /** The evidence of a transfer: the row with its key or, when there is none, the next one. */
  ghost predicate EvidenceRow(evidence: seq<Evidence>, key: Key, j: nat) {
    if j < |evidence| then evidence[j].transfer.key == key
    else j == |evidence| && forall k :: 0 <= k < |evidence| ==> evidence[k].transfer.key != key
  }

  lemma {:induction false} EvidenceIsFound(evidence: seq<Evidence>, key: Key, j: nat)
    requires EvidenceRow(evidence, key, j)
    requires forall i, k :: 0 <= i < k < |evidence| ==> evidence[i].transfer.key != evidence[k].transfer.key
    ensures EvidenceOf(evidence, key) == if j < |evidence| then Some(j) else None
    decreases |evidence|
  {
    if evidence != [] && evidence[|evidence| - 1].transfer.key != key {
      EvidenceIsFound(evidence[..|evidence| - 1], key, if j < |evidence| then j else j - 1);
    }
  }

  /** No deposit row speaks against booking a transfer that nobody has claimed. */
  lemma {:induction false} UnclaimedIsUncredited(c: Custody, key: Key)
    requires Sound(c) && key !in c.claims
    ensures var d := DepositOf(c.deposits, key);
            d.Some? ==> c.deposits[d.value].credit.None? && c.deposits[d.value].status != Credited
  {
    hide Balanced, Tallied, FundingSound, ClaimsSound, EntriesOf, Negated;
    var d := DepositOf(c.deposits, key);
    if d.Some? {
      CustodyRuns.SoundDeposit(c, d.value);
    }
  }

  /**
   How house funding ends: in the order of its guards, with the same evidence recorded once, and no transfer that is
   claimed already or comes from a user's wallet. What is booked goes to the house's operating account.
   */
  lemma {:induction false} FundEnds(c: Custody, t: Transfer, operator: nat, approver: nat, linked: bool, j: nat)
    requires Sound(c) && EvidenceRow(c.evidence, t.key, j)
    ensures var r := FundHouse(c, t, operator, approver, linked);
            if operator == approver then r == Err(DistinctApproverRequired)
            else if t.sender == t.receiver then r == Err(SelfTransfer)
            else if t.amount <= 0 || t.confirmations <= 0 then r == Err(InvalidEvidence)
            else if j < |c.evidence| then
              var row := c.evidence[j].transfer;
              if SameTransfer(row, t) && row.block == t.block && row.blockHash == t.blockHash then r == Ok(c)
              else r == Err(EvidenceConflict)
            else if t.key in c.claims then r == Err(AlreadyClaimed(c.claims[t.key]))
            else if linked then r == Err(SourceLinkedToWallet)
            else
              && r.Ok? && r.value.evidence == c.evidence + [Evidence(t, c.transactions, None)]
              && r.value.claims == c.claims[t.key := HouseFunding(j)]
              && Moves(c, r.value, ExternalHouseFunding, HouseOperating, t.amount)
              && r.value.deposits == c.deposits && r.value.incidents == c.incidents && r.value.blocked == c.blocked
  {
    EvidenceUnique(c);
    EvidenceIsFound(c.evidence, t.key, j);
    if t.key !in c.claims {
      UnclaimedIsUncredited(c, t.key);
    }
    hide Sound;
    PostMoves(c, ExternalHouseFunding, HouseOperating, t.amount);
    hide Post, Moves;
  }

  lemma {:induction false} EvidenceUnique(c: Custody)
    requires Sound(c)
    ensures forall i, k :: 0 <= i < k < |c.evidence| ==> c.evidence[i].transfer.key != c.evidence[k].transfer.key
  {
    hide Balanced, Tallied, ClaimsSound, DepositsSound, EvidenceSound;
  }

  // ---------------------------------------------------------------- reorganisations

  /** A stored transfer that lies in the scanned part of the chain, where the chain no longer has it. */
  predicate Lost(t: Transfer, scan: Scan) {
    && t.key.chain == scan.chain && scan.from <= t.block <= scan.to
    && t.receiver in scan.receivers && t.token in scan.tokens
    && Fact(t.key.tx, t.key.log, t.blockHash) !in scan.canonical
  }

  predicate LostDeposit(d: Deposit, scan: Scan) {
    d.status != Reorged && Lost(d.transfer, scan)
  }

  predicate LostFunding(e: Evidence, scan: Scan) {
    e.compensation.None? && Lost(e.transfer, scan)
  }

  /** How many of the first rows are lost, of all or of those that were credited. */
  function LostDeposits(deposits: seq<Deposit>, scan: Scan, credited: bool, n: nat): nat
    requires n <= |deposits|
  {
    if n == 0 then 0
    else
      LostDeposits(deposits, scan, credited, n - 1)
      + (if LostDeposit(deposits[n - 1], scan) && (credited ==> deposits[n - 1].credit.Some?) then 1 else 0)
  }

  function LostFundings(evidence: seq<Evidence>, scan: Scan, n: nat): nat
    requires n <= |evidence|
  {
    if n == 0 then 0
    else LostFundings(evidence, scan, n - 1) + (if LostFunding(evidence[n - 1], scan) then 1 else 0)
  }

  /** A deposit before and after: a lost one is reorganised, compensated and reported if it was credited. */
  ghost predicate Undone(was: Deposit, row: Deposit, lost: bool, i: nat, before: Custody, after: Custody) {
    if !lost then row == was
    else if was.credit.None? then row == was.(status := Reorged)
    else
      && row == was.(status := Reorged, incident := row.incident, compensation := row.compensation)
      && row.compensation.Some? && before.transactions <= row.compensation.value < after.transactions
      && row.incident.Some?
      && (was.incident.None? ==>
            && |before.incidents| <= row.incident.value < |after.incidents|
            && after.incidents[row.incident.value] == DepositReorged(i))
  }

  ghost predicate Unfunded(was: Evidence, row: Evidence, lost: bool, j: nat, before: Custody, after: Custody) {
    if !lost then row == was
    else
      && row == was.(compensation := row.compensation)
      && row.compensation.Some? && before.transactions <= row.compensation.value < after.transactions
      && exists k :: |before.incidents| <= k < |after.incidents| && after.incidents[k] == FundingReorged(j)
  }

  /** `n` transactions and as many incidents more, and the gate blocked if there are any. */
  ghost predicate Alarmed(before: Custody, after: Custody, n: nat) {
    && after.claims == before.claims && after.transactions == before.transactions + n
    && |after.incidents| == |before.incidents| + n && before.incidents <= after.incidents
    && before.entries <= after.entries && (after.blocked <==> before.blocked || 0 < n)
  }

  lemma {:induction false} CompensationAdds(c: Custody, transaction: nat, incident: Incident)
    ensures var after := Raise(Compensate(c, transaction), incident);
            && Alarmed(c, after, 1) && after.incidents[|c.incidents|] == incident
            && after.deposits == c.deposits && after.evidence == c.evidence
  {
    hide EntriesOf, Negated;
  }

  lemma {:induction false} CreditLost(c: Custody, i: nat)
    requires i < |c.deposits| && c.deposits[i].credit.Some? && c.deposits[i].compensation.None?
    requires ReorgDeposit(c, i).Ok?
    ensures var after := ReorgDeposit(c, i).value;
            && Alarmed(c, after, 1) && after.evidence == c.evidence && |after.deposits| == |c.deposits|
            && Undone(c.deposits[i], after.deposits[i], true, i, c, after)
            && (forall k :: 0 <= k < |c.deposits| && k != i ==> after.deposits[k] == c.deposits[k])
  {
    hide EntriesOf, Compensate, Raise;
    CompensationAdds(c, c.deposits[i].credit.value, DepositReorged(i));
  }

  lemma {:induction false} OneUndone(c: Custody, i: nat)
    requires Sound(c) && i < |c.deposits| && c.deposits[i].status != Reorged
    ensures ReorgDeposit(c, i).Ok?
    ensures var after := ReorgDeposit(c, i).value;
            && Alarmed(c, after, if c.deposits[i].credit.Some? then 1 else 0) && after.evidence == c.evidence
            && Undone(c.deposits[i], after.deposits[i], true, i, c, after)
            && (forall k :: 0 <= k < |c.deposits| && k != i ==> after.deposits[k] == c.deposits[k])
  {
    CustodyRuns.ReorgDepositSound(c, i);
    StatusOfRow(c, i);
    hide Sound, Undone, Alarmed;
    if c.deposits[i].credit.Some? {
      CreditLost(c, i);
    } else {
      UncreditedLost(c, i);
    }
  }

  lemma {:induction false} UncreditedLost(c: Custody, i: nat)
    requires i < |c.deposits| && c.deposits[i].credit.None? && c.deposits[i].status != Credited
    ensures ReorgDeposit(c, i).Ok?
    ensures var after := ReorgDeposit(c, i).value;
            && Alarmed(c, after, 0) && after.evidence == c.evidence
            && Undone(c.deposits[i], after.deposits[i], true, i, c, after)
            && (forall k :: 0 <= k < |c.deposits| && k != i ==> after.deposits[k] == c.deposits[k])
  {
  }

  lemma {:induction false} StatusOfRow(c: Custody, i: nat)
    requires Sound(c) && i < |c.deposits| && c.deposits[i].status != Reorged
    ensures c.deposits[i].credit.None? ==> c.deposits[i].status != Credited
    ensures c.deposits[i].compensation.None?
  {
    hide Balanced, Tallied, FundingSound, ClaimsSound, EntriesOf, Negated;
    CustodyRuns.SoundDeposit(c, i);
  }

  /** The first `n` rows of a reorganisation. */
  lemma {:induction false} DepositsUndone(c: Custody, scan: Scan, n: nat)
    requires Sound(c) && n <= |c.deposits|
    ensures ReorgDeposits(c, scan, n).Ok?
    ensures var after := ReorgDeposits(c, scan, n).value;
            && Sound(after) && Alarmed(c, after, LostDeposits(c.deposits, scan, true, n))
            && after.evidence == c.evidence
            && (forall i :: 0 <= i < n ==>
                  Undone(c.deposits[i], after.deposits[i], LostDeposit(c.deposits[i], scan), i, c, after))
            && (forall i :: n <= i < |c.deposits| ==> after.deposits[i] == c.deposits[i])
  {
    hide Sound;
    CustodyRuns.ReorgDepositsSound(c, scan, n);
    if n != 0 {
      DepositsUndone(c, scan, n - 1);
      var rest := ReorgDeposits(c, scan, n - 1).value;
      if LostDeposit(c.deposits[n - 1], scan) {
        OneUndone(rest, n - 1);
        hide ReorgDeposit;
        UndoneStays(c, rest, ReorgDeposits(c, scan, n).value, scan, n - 1);
      }
    }
  }

  /** What was undone before stays so when the next row is. */
  lemma {:induction false} UndoneStays(c: Custody, rest: Custody, after: Custody, scan: Scan, n: nat)
    requires n < |c.deposits| == |rest.deposits| == |after.deposits|
    requires rest.transactions <= after.transactions && rest.incidents <= after.incidents
    requires c.transactions <= rest.transactions && |c.incidents| <= |rest.incidents|
    requires forall i :: 0 <= i < n ==>
                           Undone(c.deposits[i], rest.deposits[i], LostDeposit(c.deposits[i], scan), i, c, rest)
    requires forall i :: 0 <= i < n ==> after.deposits[i] == rest.deposits[i]
    requires rest.deposits[n] == c.deposits[n] && Undone(c.deposits[n], after.deposits[n], true, n, rest, after)
    ensures forall i :: 0 <= i < n ==>
                          Undone(c.deposits[i], after.deposits[i], LostDeposit(c.deposits[i], scan), i, c, after)
    ensures Undone(c.deposits[n], after.deposits[n], true, n, c, after)
  {
  }

  lemma {:induction false} OneUnfunded(c: Custody, j: nat)
    requires Sound(c) && j < |c.evidence| && c.evidence[j].compensation.None?
    ensures ReorgFunding(c, j).Ok?
    ensures var after := ReorgFunding(c, j).value;
            && Alarmed(c, after, 1) && after.deposits == c.deposits
            && Unfunded(c.evidence[j], after.evidence[j], true, j, c, after)
            && (forall k :: 0 <= k < |c.evidence| && k != j ==> after.evidence[k] == c.evidence[k])
  {
    CustodyRuns.ReorgFundingSound(c, j);
    hide Sound, EntriesOf, Negated;
    assert ReorgFunding(c, j).value.incidents[|c.incidents|] == FundingReorged(j);
  }

  lemma {:induction false} FundingsUndone(c: Custody, scan: Scan, n: nat)
    requires Sound(c) && n <= |c.evidence|
    ensures ReorgFundings(c, scan, n).Ok?
    ensures var after := ReorgFundings(c, scan, n).value;
            && Sound(after) && Alarmed(c, after, LostFundings(c.evidence, scan, n)) && after.deposits == c.deposits
            && (forall j :: 0 <= j < n ==>
                  Unfunded(c.evidence[j], after.evidence[j], LostFunding(c.evidence[j], scan), j, c, after))
            && (forall j :: n <= j < |c.evidence| ==> after.evidence[j] == c.evidence[j])
  {
    hide Sound;
    CustodyRuns.ReorgFundingsSound(c, scan, n);
    if n != 0 {
      FundingsUndone(c, scan, n - 1);
      var rest := ReorgFundings(c, scan, n - 1).value;
      if LostFunding(c.evidence[n - 1], scan) {
        OneUnfunded(rest, n - 1);
        hide ReorgFunding;
        UnfundedStays(c, rest, ReorgFundings(c, scan, n).value, scan, n - 1);
      }
    }
  }

  lemma {:induction false} UnfundedStays(c: Custody, rest: Custody, after: Custody, scan: Scan, n: nat)
    requires n < |c.evidence| == |rest.evidence| == |after.evidence|
    requires rest.transactions <= after.transactions && rest.incidents <= after.incidents
    requires c.transactions <= rest.transactions && |c.incidents| <= |rest.incidents|
    requires forall j :: 0 <= j < n ==>
                           Unfunded(c.evidence[j], rest.evidence[j], LostFunding(c.evidence[j], scan), j, c, rest)
    requires forall j :: 0 <= j < n ==> after.evidence[j] == rest.evidence[j]
    requires rest.evidence[n] == c.evidence[n] && Unfunded(c.evidence[n], after.evidence[n], true, n, rest, after)
    ensures forall j :: 0 <= j < n ==>
                          Unfunded(c.evidence[j], after.evidence[j], LostFunding(c.evidence[j], scan), j, c, after)
    ensures Unfunded(c.evidence[n], after.evidence[n], true, n, c, after)
  {
    forall j | 0 <= j < n && LostFunding(c.evidence[j], scan)
      ensures exists k :: |c.incidents| <= k < |after.incidents| && after.incidents[k] == FundingReorged(j)
    {
      assert Unfunded(c.evidence[j], rest.evidence[j], true, j, c, rest);
      var k :| |c.incidents| <= k < |rest.incidents| && rest.incidents[k] == FundingReorged(j);
      assert after.incidents[k] == rest.incidents[k];
    }
    var k :| |rest.incidents| <= k < |after.incidents| && after.incidents[k] == FundingReorged(n);
  }

  lemma {:induction false} DepositsUnaffected(c: Custody, marked: Custody, after: Custody, scan: Scan)
    requires |c.deposits| == |marked.deposits| && after.deposits == marked.deposits
    requires c.transactions <= marked.transactions <= after.transactions && marked.incidents <= after.incidents
    requires forall i :: 0 <= i < |c.deposits| ==>
                           Undone(c.deposits[i], marked.deposits[i], LostDeposit(c.deposits[i], scan), i, c, marked)
    ensures forall i :: 0 <= i < |c.deposits| ==>
                          Undone(c.deposits[i], after.deposits[i], LostDeposit(c.deposits[i], scan), i, c, after)
  {
  }

  lemma {:induction false} FundingsUnaffected(c: Custody, marked: Custody, after: Custody, scan: Scan)
    requires c.evidence == marked.evidence && |after.evidence| == |c.evidence|
    requires c.transactions <= marked.transactions && |c.incidents| <= |marked.incidents|
    requires forall j :: 0 <= j < |c.evidence| ==>
      Unfunded(c.evidence[j], after.evidence[j], LostFunding(c.evidence[j], scan), j, marked, after)
    ensures forall j :: 0 <= j < |c.evidence| ==>
      Unfunded(c.evidence[j], after.evidence[j], LostFunding(c.evidence[j], scan), j, c, after)
  {
    forall j | 0 <= j < |c.evidence| && LostFunding(c.evidence[j], scan)
      ensures exists k :: |c.incidents| <= k < |after.incidents| && after.incidents[k] == FundingReorged(j)
    {
      assert Unfunded(c.evidence[j], after.evidence[j], true, j, marked, after);
      var k :| |marked.incidents| <= k < |after.incidents| && after.incidents[k] == FundingReorged(j);
    }
  }

  /**
   How a reorganisation ends: it always goes through. Every lost row is marked, a lost credit and lost funding are
   compensated in a transaction of their own and reported in an incident of their own, which blocks the gate; nothing
   else changes.
   */
  lemma {:induction false} ReorgEnds(c: Custody, scan: Scan)
    requires Sound(c)
    ensures MarkReorged(c, scan).Ok? && Sound(MarkReorged(c, scan).value)
    ensures var after := MarkReorged(c, scan).value;
            if scan.to < scan.from || scan.receivers == {} || scan.tokens == {} then after == c
            else
              && |after.deposits| == |c.deposits| && |after.evidence| == |c.evidence|
              && Alarmed(c, after, LostDeposits(c.deposits, scan, true, |c.deposits|)
                                   + LostFundings(c.evidence, scan, |c.evidence|))
              && (forall i :: 0 <= i < |c.deposits| ==>
                    Undone(c.deposits[i], after.deposits[i], LostDeposit(c.deposits[i], scan), i, c, after))
              && (forall j :: 0 <= j < |c.evidence| ==>
                    Unfunded(c.evidence[j], after.evidence[j], LostFunding(c.evidence[j], scan), j, c, after))
  {
    hide Sound, Undone, Unfunded, LostDeposit, LostFunding;
    DepositsUndone(c, scan, |c.deposits|);
    var marked := ReorgDeposits(c, scan, |c.deposits|).value;
    FundingsUndone(marked, scan, |marked.evidence|);
    if !(scan.to < scan.from || scan.receivers == {} || scan.tokens == {}) {
      DepositsUnaffected(c, marked, MarkReorged(c, scan).value, scan);
      FundingsUnaffected(c, marked, MarkReorged(c, scan).value, scan);
    }
  }

  // ---------------------------------------------------------------- what a reorganisation reports

  lemma {:induction false} DepositCounts(c: Custody, scan: Scan, credited: bool, n: nat)
    requires Sound(c) && n <= |c.deposits|
    ensures CustodyLedger.Count(c.deposits, scan, n, credited) == LostDeposits(c.deposits, scan, credited, n)
  {
    if n != 0 {
      ClaimedElsewhere(c, n - 1, c.deposits[n - 1].transfer.key);
      hide Sound;
      DepositCounts(c, scan, credited, n - 1);
    }
  }

  lemma {:induction false} FundingCounts(c: Custody, scan: Scan, n: nat)
    requires n <= |c.evidence|
    ensures CustodyLedger.CountFunding(c.evidence, scan, n) == LostFundings(c.evidence, scan, n)
  {
    if n != 0 {
      FundingCounts(c, scan, n - 1);
    }
  }

  /** The reported figures are the numbers of lost rows: all deposits, those credited, and house funding. */
  lemma {:induction false} ReorgReports(c: Custody, scan: Scan)
    requires Sound(c)
    ensures CustodyLedger.Tally(c, scan)
         == if scan.to < scan.from || scan.receivers == {} || scan.tokens == {}
            then CustodyLedger.Reorganised(0, 0, 0)
            else CustodyLedger.Reorganised(LostDeposits(c.deposits, scan, false, |c.deposits|),
                                           LostDeposits(c.deposits, scan, true, |c.deposits|),
                                           LostFundings(c.evidence, scan, |c.evidence|))
  {
    hide Sound, LostDeposits, LostFundings;
    DepositCounts(c, scan, false, |c.deposits|);
    DepositCounts(c, scan, true, |c.deposits|);
    FundingCounts(c, scan, |c.evidence|);
  }
}
