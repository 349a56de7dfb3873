/**
 On-chain deposits, house funding and chain reorganisations over one double-entry ledger:
 the tables, and what each transaction does to them.
 */
module CustodyTables {
  import opened Common

  /** A transfer on the chain: transaction and log index. */
  datatype Key = Key(chain: nat, tx: nat, log: nat)

  datatype Transfer = Transfer(key: Key, block: nat, blockHash: Option<nat>, sender: nat, receiver: nat, token: nat,
                               amount: int, confirmations: int)

  datatype DepositStatus = Observed | Credited | Ignored | Reorged

  datatype Deposit = Deposit(transfer: Transfer, status: DepositStatus, user: Option<nat>, credit: Option<nat>,
                             compensation: Option<nat>, incident: Option<nat>)

  datatype Claim = UserDeposit(deposit: nat) | HouseFunding(evidence: nat)

  datatype Account =
    | UserAvailable(user: nat)
    | UserCheckout(user: nat)
    | ExternalDeposits
    | HouseOperating
    | ExternalHouseFunding

  datatype Entry = Entry(transaction: nat, account: Account, amount: int)

  datatype Evidence = Evidence(transfer: Transfer, transaction: nat, compensation: Option<nat>)

  datatype Incident = DepositReorged(deposit: nat) | LedgerLinkMissing(deposit: nat) | FundingReorged(evidence: nat)

  datatype Custody = Custody(deposits: seq<Deposit>, claims: map<Key, Claim>, evidence: seq<Evidence>,
                             entries: seq<Entry>, transactions: nat, incidents: seq<Incident>, blocked: bool)

  const EmptyCustody: Custody := Custody([], map[], [], [], 0, [], false)

  datatype Fault =
    | InvalidDepositAmount
    | DepositFactConflict
    | DistinctApproverRequired
    | SelfTransfer
    | InvalidEvidence
    | EvidenceConflict
    | AlreadyClaimed(claim: Claim)
    | OnchainDepositConflict
    | SourceLinkedToWallet
    | CreditedLedgerMissing
    | FundingLedgerMissing

  // ---------------------------------------------------------------- queries

  function DepositOf(deposits: seq<Deposit>, key: Key): (r: Option<nat>)
    ensures r.Some? ==> r.value < |deposits| && deposits[r.value].transfer.key == key
  {
    if deposits == [] then None
    else if deposits[|deposits| - 1].transfer.key == key then Some(|deposits| - 1)
    else DepositOf(deposits[..|deposits| - 1], key)
  }

  function EvidenceOf(evidence: seq<Evidence>, key: Key): (r: Option<nat>)
    ensures r.Some? ==> r.value < |evidence| && evidence[r.value].transfer.key == key
  {
    if evidence == [] then None
    else if evidence[|evidence| - 1].transfer.key == key then Some(|evidence| - 1)
    else EvidenceOf(evidence[..|evidence| - 1], key)
  }

  function EntriesOf(entries: seq<Entry>, transaction: nat): seq<Entry> {
    if entries == [] then []
    else
      EntriesOf(entries[..|entries| - 1], transaction)
      + (if entries[|entries| - 1].transaction == transaction then [entries[|entries| - 1]] else [])
  }

  function SumEntries(entries: seq<Entry>): int {
    if entries == [] then 0 else SumEntries(entries[..|entries| - 1]) + entries[|entries| - 1].amount
  }

  function BalanceOf(entries: seq<Entry>, account: Account): int {
    if entries == [] then 0
    else
      BalanceOf(entries[..|entries| - 1], account)
      + (if entries[|entries| - 1].account == account then entries[|entries| - 1].amount else 0)
  }

  /** The same postings with the opposite sign, under a new transaction. */
  function Negated(entries: seq<Entry>, transaction: nat): seq<Entry> {
    if entries == [] then []
    else
      var last := entries[|entries| - 1];
      Negated(entries[..|entries| - 1], transaction) + [Entry(transaction, last.account, -last.amount)]
  }

  // ---------------------------------------------------------------- crediting a confirmed deposit

  function Greater(a: int, b: int): int {
    if a < b then b else a
  }

  predicate SameFact(a: Transfer, b: Transfer) {
    a.sender == b.sender && a.receiver == b.receiver && a.token == b.token && a.amount == b.amount
  }

  predicate SameBlock(a: Transfer, b: Transfer) {
    a.block == b.block && a.blockHash == b.blockHash
  }

  /** Where the transfer is recorded, once it has been observed. */
  function Observe(c: Custody, t: Transfer): Custody {
    if DepositOf(c.deposits, t.key).Some? then c
    else c.(deposits := c.deposits + [Deposit(t, Observed, None, None, None, None)])
  }

  function Confirmed(d: Deposit, t: Transfer): Deposit {
    d.(transfer := d.transfer.(confirmations := Greater(d.transfer.confirmations, t.confirmations)))
  }

  /** The deposit's place on the chain, as observed now. */
  function Replaced(d: Deposit, t: Transfer): Deposit {
    d.(transfer := d.transfer.(block := t.block, blockHash := t.blockHash, confirmations := t.confirmations))
  }

  /** The account that a credit goes to: a matched quote payment is held for its checkout. */
  function CreditAccount(user: nat, quote: bool): Account {
    if quote then UserCheckout(user) else UserAvailable(user)
  }

  function Post(c: Custody, from: Account, to: Account, amount: int): Custody {
    c.(entries := c.entries + [Entry(c.transactions, to, amount)] + [Entry(c.transactions, from, -amount)],
       transactions := c.transactions + 1)
  }

  /** `wallet` is the owner of the sending address, if it is linked; `quote` that an open quote payment matches. */
  function CreditConfirmed(c: Custody, t: Transfer, wallet: Option<nat>, quote: bool): Result<Custody, Fault> {
    if t.amount <= 0 then Err(InvalidDepositAmount)
    else
      var o := Observe(c, t);
      match DepositOf(o.deposits, t.key)
      case None => Err(DepositFactConflict)
      case Some(id) =>
        var d := o.deposits[id];
        if !SameFact(d.transfer, t) then Err(DepositFactConflict)
        else if d.status == Reorged && d.credit.Some? then Ok(o.(deposits := o.deposits[id := Confirmed(d, t)]))
        else if d.status == Credited then
          Ok(o.(deposits := o.deposits[id := if SameBlock(d.transfer, t) then Confirmed(d, t) else Replaced(d, t)]))
        else if wallet.None? then
          Ok(o.(deposits := o.deposits[id := Replaced(d, t).(status := Ignored)]))
        else if t.key in o.claims && o.claims[t.key] != UserDeposit(id) then
          Ok(o.(deposits := o.deposits[id := if d.credit.None? then d.(status := Ignored) else d]))
        else Ok(Credit(o, id, t, wallet.value, quote))
  }

  function Credit(c: Custody, id: nat, t: Transfer, user: nat, quote: bool): Custody
    requires id < |c.deposits|
  {
    Post(c, ExternalDeposits, CreditAccount(user, quote), t.amount).(
      claims := c.claims[t.key := UserDeposit(id)],
      deposits := c.deposits[id := Replaced(c.deposits[id], t).(
        status := Credited, user := Some(user), credit := Some(c.transactions))])
  }

  // ---------------------------------------------------------------- recording house funding

  predicate SameEvidence(e: Evidence, t: Transfer) {
    e.transfer.amount == t.amount && SameBlock(e.transfer, t) && SameFact(e.transfer, t)
  }

  function FundHouse(c: Custody, t: Transfer, operator: nat, approver: nat, linked: bool): Result<Custody, Fault> {
    if operator == approver then Err(DistinctApproverRequired)
    else if t.sender == t.receiver then Err(SelfTransfer)
    else if t.amount <= 0 || t.confirmations <= 0 then Err(InvalidEvidence)
    else
      match EvidenceOf(c.evidence, t.key)
      case Some(id) => if SameEvidence(c.evidence[id], t) then Ok(c) else Err(EvidenceConflict)
      case None =>
        var represented := DepositOf(c.deposits, t.key);
        if t.key in c.claims then Err(AlreadyClaimed(c.claims[t.key]))
        else if represented.Some? && (c.deposits[represented.value].credit.Some?
                                      || c.deposits[represented.value].status == Credited)
        then Err(OnchainDepositConflict)
        else if linked then Err(SourceLinkedToWallet)
        else Ok(Fund(c, t))
  }

  function Fund(c: Custody, t: Transfer): Custody {
    Post(c, ExternalHouseFunding, HouseOperating, t.amount).(
      claims := c.claims[t.key := HouseFunding(|c.evidence|)],
      evidence := c.evidence + [Evidence(t, c.transactions, None)])
  }

  // ---------------------------------------------------------------- reorganisations

  datatype Fact = Fact(tx: nat, log: nat, blockHash: Option<nat>)

  datatype Scan = Scan(chain: nat, from: int, to: int, receivers: set<nat>, tokens: set<nat>, canonical: set<Fact>)

  predicate InScan(t: Transfer, scan: Scan) {
    t.key.chain == scan.chain && scan.from <= t.block <= scan.to && t.receiver in scan.receivers
    && t.token in scan.tokens
  }

  predicate Canonical(t: Transfer, scan: Scan) {
    Fact(t.key.tx, t.key.log, t.blockHash) in scan.canonical
  }

  /** The stored deposits that the canonical chain no longer has. */
  predicate Orphaned(deposits: seq<Deposit>, scan: Scan, i: nat) {
    i < |deposits| && deposits[i].status != Reorged && InScan(deposits[i].transfer, scan)
    && !Canonical(deposits[i].transfer, scan)
  }

  predicate FundingOrphaned(evidence: seq<Evidence>, scan: Scan, i: nat) {
    i < |evidence| && evidence[i].compensation.None? && InScan(evidence[i].transfer, scan)
    && !Canonical(evidence[i].transfer, scan)
  }

  function Compensate(c: Custody, transaction: nat): Custody {
    c.(entries := c.entries + Negated(EntriesOf(c.entries, transaction), c.transactions),
       transactions := c.transactions + 1)
  }

  function Coalesce<T>(a: Option<T>, b: Option<T>): Option<T> {
    if a.Some? then a else b
  }

  function Raise(c: Custody, incident: Incident): Custody {
    c.(incidents := c.incidents + [incident], blocked := true)
  }

  function ReorgDeposit(c: Custody, i: nat): (r: Result<Custody, Fault>)
    requires i < |c.deposits|
    ensures r.Ok? ==> |r.value.deposits| == |c.deposits|
  {
    var d := c.deposits[i];
    var incident := Some(|c.incidents|);
    match d.credit
    case Some(transaction) =>
      if EntriesOf(c.entries, transaction) == [] then Err(CreditedLedgerMissing)
      else
        Ok(Raise(Compensate(c, transaction), DepositReorged(i)).(
          deposits := c.deposits[i := d.(status := Reorged, incident := Coalesce(d.incident, incident),
                                         compensation := Coalesce(d.compensation, Some(c.transactions)))]))
    case None =>
      if d.status == Credited then
        Ok(Raise(c, LedgerLinkMissing(i)).(
          deposits := c.deposits[i := d.(status := Reorged, incident := Coalesce(d.incident, incident))]))
      else Ok(c.(deposits := c.deposits[i := d.(status := Reorged)]))
  }

  function ReorgFunding(c: Custody, i: nat): (r: Result<Custody, Fault>)
    requires i < |c.evidence|
    ensures r.Ok? ==> |r.value.evidence| == |c.evidence|
  {
    var e := c.evidence[i];
    if EntriesOf(c.entries, e.transaction) == [] then Err(FundingLedgerMissing)
    else
      Ok(Raise(Compensate(c, e.transaction), FundingReorged(i)).(
        evidence := c.evidence[i := e.(compensation := Some(c.transactions))]))
  }

  function ReorgDeposits(c: Custody, scan: Scan, n: nat): (r: Result<Custody, Fault>)
    requires n <= |c.deposits|
    ensures r.Ok? ==> |r.value.deposits| == |c.deposits|
  {
    if n == 0 then Ok(c)
    else
      match ReorgDeposits(c, scan, n - 1)
      case Err(fault) => Err(fault)
      case Ok(rest) => if Orphaned(c.deposits, scan, n - 1) then ReorgDeposit(rest, n - 1) else Ok(rest)
  }

  function ReorgFundings(c: Custody, scan: Scan, n: nat): (r: Result<Custody, Fault>)
    requires n <= |c.evidence|
    ensures r.Ok? ==> |r.value.evidence| == |c.evidence|
  {
    if n == 0 then Ok(c)
    else
      match ReorgFundings(c, scan, n - 1)
      case Err(fault) => Err(fault)
      case Ok(rest) => if FundingOrphaned(c.evidence, scan, n - 1) then ReorgFunding(rest, n - 1) else Ok(rest)
  }

  function MarkReorged(c: Custody, scan: Scan): Result<Custody, Fault> {
    if scan.to < scan.from || scan.receivers == {} || scan.tokens == {} then Ok(c)
    else
      match ReorgDeposits(c, scan, |c.deposits|)
      case Err(fault) => Err(fault)
      case Ok(marked) => ReorgFundings(marked, scan, |marked.evidence|)
  }

  // ---------------------------------------------------------------- runs

  datatype Step =
    | CreditStep(transfer: Transfer, wallet: Option<nat>, quote: bool)
    | FundStep(transfer: Transfer, operator: nat, approver: nat, linked: bool)
    | ReorgStep(scan: Scan)

  function Attempt(c: Custody, step: Step): Result<Custody, Fault> {
    match step
    case CreditStep(t, wallet, quote) => CreditConfirmed(c, t, wallet, quote)
    case FundStep(t, operator, approver, linked) => FundHouse(c, t, operator, approver, linked)
    case ReorgStep(scan) => MarkReorged(c, scan)
  }

  function Apply(c: Custody, step: Step): Custody {
    match Attempt(c, step)
    case Ok(after) => after
    case Err(_) => c
  }

  function Run(steps: seq<Step>): Custody {
    if steps == [] then EmptyCustody else Apply(Run(steps[..|steps| - 1]), steps[|steps| - 1])
  }
}
