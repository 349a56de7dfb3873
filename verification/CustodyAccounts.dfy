/** Over any run, what every user's two accounts hold, each on its own. */
module CustodyAccounts {
  import opened Common
  import opened CustodyTables
  import opened CustodyInvariant
  import opened CustodyOutcomes
  import CustodyRuns

  /** The account that a user is credited in: for a checkout, or to spend. */
  function AccountFor(user: nat, checkout: bool): Account {
    if checkout then UserCheckout(user) else UserAvailable(user)
  }

  /** Whether a deposit was credited in a step that matched a quote. */
  ghost predicate ForCheckout(steps: seq<Step>, i: nat) {
    if steps == [] then false
    else
      var init, last := steps[..|steps| - 1], steps[|steps| - 1];
      var before := Run(init).deposits;
      if i < |before| && before[i].credit.Some? then ForCheckout(init, i) else last.CreditStep? && last.quote
  }

  /** The deposits still credited to a user, among those credited for a checkout or among the others. */
  ghost function CreditedIn(deposits: seq<Deposit>, held: nat -> bool, user: nat, checkout: bool): int {
    if deposits == [] then 0
    else
      var n := |deposits| - 1;
      CreditedIn(deposits[..n], held, user, checkout)
      + (if deposits[n].status == Credited && deposits[n].user == Some(user) && held(n) == checkout
         then deposits[n].transfer.amount else 0)
  }

  ghost predicate RoutedRow(d: Deposit, entries: seq<Entry>, checkout: bool) {
    d.credit.Some? ==>
      && d.user.Some?
      && EntriesOf(entries, d.credit.value)
         == Postings(d.credit.value, ExternalDeposits, AccountFor(d.user.value, checkout), d.transfer.amount)
  }

  /** Each credit went to one of its user's accounts, and the accounts hold what still stands. */
  ghost predicate Routed(c: Custody, held: nat -> bool) {
    && (forall i :: 0 <= i < |c.deposits| ==> RoutedRow(c.deposits[i], c.entries, held(i)))
    && (forall user: nat, checkout: bool ::
          BalanceOf(c.entries, AccountFor(user, checkout)) == CreditedIn(c.deposits, held, user, checkout))
  }

  // ---------------------------------------------------------------- sums under one changed row

  /** What a row adds to the sum. */
  ghost function Adding(d: Deposit, checkout: bool, user: nat, held: bool): int {
    if d.status == Credited && d.user == Some(user) && held == checkout then d.transfer.amount else 0
  }

  lemma {:induction false} ChangedRow(deposits: seq<Deposit>, i: nat, d: Deposit, held: nat -> bool, user: nat,
                                      checkout: bool)
    requires i < |deposits|
    ensures CreditedIn(deposits[i := d], held, user, checkout)
         == CreditedIn(deposits, held, user, checkout) - Adding(deposits[i], checkout, user, held(i))
            + Adding(d, checkout, user, held(i))
  {
    var n := |deposits| - 1;
    if i < n {
      ChangedRow(deposits[..n], i, d, held, user, checkout);
      assert deposits[i := d][..n] == deposits[..n][i := d];
    } else {
      assert deposits[i := d][..n] == deposits[..n];
    }
  }

  lemma {:induction false} OneMoreRow(deposits: seq<Deposit>, d: Deposit, held: nat -> bool, user: nat, checkout: bool)
    ensures CreditedIn(deposits + [d], held, user, checkout)
         == CreditedIn(deposits, held, user, checkout) + Adding(d, checkout, user, held(|deposits|))
  {
    assert (deposits + [d])[..|deposits|] == deposits;
  }

  /** Only what is said of credited rows matters. */
  lemma {:induction false} SameForCredited(deposits: seq<Deposit>, held: nat -> bool, other: nat -> bool, user: nat,
                                           checkout: bool)
    requires forall i: nat :: i < |deposits| && deposits[i].status == Credited ==> held(i) == other(i)
    ensures CreditedIn(deposits, held, user, checkout) == CreditedIn(deposits, other, user, checkout)
  {
    if deposits != [] {
      var init := deposits[..|deposits| - 1];
      assert forall i: nat :: i < |init| ==> init[i] == deposits[i];
      SameForCredited(init, held, other, user, checkout);
    }
  }

  /** Whatever is said about rows that were never credited, the accounts are routed as they were. */
  lemma {:induction false} SameRouting(c: Custody, held: nat -> bool, other: nat -> bool)
    requires Routed(c, held)
    requires forall i: nat :: i < |c.deposits| && c.deposits[i].credit.Some? ==> held(i) == other(i)
    requires forall i: nat :: i < |c.deposits| && c.deposits[i].status == Credited ==> c.deposits[i].credit.Some?
    ensures Routed(c, other)
  {
    hide EntriesOf, BalanceOf, CreditedIn;
    forall user: nat, checkout: bool
      ensures BalanceOf(c.entries, AccountFor(user, checkout)) == CreditedIn(c.deposits, other, user, checkout)
    {
      SameForCredited(c.deposits, held, other, user, checkout);
    }
  }

  // ---------------------------------------------------------------- rows under more entries

  lemma {:induction false} RowStays(c: Custody, i: nat, held: bool, postings: seq<Entry>)
    requires Sound(c) && i < |c.deposits| && RoutedRow(c.deposits[i], c.entries, held)
    requires Adds(c.entries, c.transactions, postings)
    ensures RoutedRow(c.deposits[i], c.entries + postings, held)
  {
    hide Balanced, Tallied, FundingSound, ClaimsSound, EntriesOf, Negated;
    CustodyRuns.SoundDeposit(c, i);
    if c.deposits[i].credit.Some? {
      AddedEntries(c.entries, c.transactions, postings, c.deposits[i].credit.value);
    }
  }

  lemma {:induction false} RowsStay(c: Custody, held: nat -> bool, postings: seq<Entry>)
    requires Sound(c) && Routed(c, held) && Adds(c.entries, c.transactions, postings)
    ensures forall i :: 0 <= i < |c.deposits| ==> RoutedRow(c.deposits[i], c.entries + postings, held(i))
  {
    hide Sound, EntriesOf, RoutedRow, BalanceOf, CreditedIn;
    forall i | 0 <= i < |c.deposits|
      ensures RoutedRow(c.deposits[i], c.entries + postings, held(i))
    {
      RowStays(c, i, held(i), postings);
    }
  }

  lemma {:induction false} EntriesBounded(c: Custody)
    requires Sound(c)
    ensures forall k :: 0 <= k < |c.entries| ==> c.entries[k].transaction < c.transactions
  {
    hide Tallied, FundingSound, ClaimsSound, DepositsSound, EntriesOf;
  }

  // ---------------------------------------------------------------- reorganised deposits

  lemma {:induction false} ReorganisedRouted(c: Custody, held: nat -> bool, i: nat)
    requires Sound(c) && Routed(c, held) && i < |c.deposits| && c.deposits[i].status != Reorged
    ensures ReorgDeposit(c, i).Ok? && Routed(ReorgDeposit(c, i).value, held)
  {
    OneUndone(c, i);
    ClaimedElsewhere(c, i, c.deposits[i].transfer.key);
    var d := c.deposits[i];
    var after := ReorgDeposit(c, i).value;
    if d.credit.Some? {
      CreditUndone(c, held, i);
    } else {
      hide Sound, EntriesOf, BalanceOf, CreditedIn, Negated;
      forall user: nat, checkout: bool
        ensures BalanceOf(after.entries, AccountFor(user, checkout))
             == CreditedIn(after.deposits, held, user, checkout)
      {
        ChangedRow(c.deposits, i, after.deposits[i], held, user, checkout);
      }
    }
  }

  lemma {:induction false} UndoneBalance(c: Custody, held: nat -> bool, i: nat, user: nat, checkout: bool)
    requires Sound(c) && Routed(c, held) && i < |c.deposits| && c.deposits[i].credit.Some?
    requires c.deposits[i].status == Credited
    ensures var postings := Negated(EntriesOf(c.entries, c.deposits[i].credit.value), c.transactions);
            && Adds(c.entries, c.transactions, postings)
            && BalanceOf(c.entries + postings, AccountFor(user, checkout))
               == BalanceOf(c.entries, AccountFor(user, checkout)) - Adding(c.deposits[i], checkout, user, held(i))
  {
    hide EntriesOf, Negated, BalanceOf, CreditedIn, Tallied, FundingSound, ClaimsSound, DepositsSound;
    var d, account := c.deposits[i], AccountFor(user, checkout);
    assert RoutedRow(d, c.entries, held(i));
    CustodyRuns.CompensateFacts(c, d.credit.value, account);
    PostingsFacts(d.credit.value, ExternalDeposits, AccountFor(d.user.value, held(i)), d.transfer.amount, account);
  }

  /** What compensating a credit writes. */
  lemma {:induction false} CompensationWritten(c: Custody, i: nat)
    requires i < |c.deposits| && c.deposits[i].credit.Some? && ReorgDeposit(c, i).Ok?
    ensures var d, after := c.deposits[i], ReorgDeposit(c, i).value;
            && after.entries == c.entries + Negated(EntriesOf(c.entries, d.credit.value), c.transactions)
            && |after.deposits| == |c.deposits| && after.deposits == c.deposits[i := after.deposits[i]]
            && after.deposits[i] == d.(status := Reorged, incident := after.deposits[i].incident,
                                       compensation := after.deposits[i].compensation)
  {
    hide EntriesOf, Negated;
  }

  lemma {:induction false} CreditUndone(c: Custody, held: nat -> bool, i: nat)
    requires Sound(c) && Routed(c, held) && i < |c.deposits| && c.deposits[i].status == Credited
    requires c.deposits[i].credit.Some? && ReorgDeposit(c, i).Ok?
    ensures Routed(ReorgDeposit(c, i).value, held)
  {
    var d, after := c.deposits[i], ReorgDeposit(c, i).value;
    var postings := Negated(EntriesOf(c.entries, d.credit.value), c.transactions);
    CompensationWritten(c, i);
    hide Sound, EntriesOf, BalanceOf, CreditedIn, Negated, ReorgDeposit, Adds;
    UndoneBalance(c, held, i, 0, false);
    RowsStay(c, held, postings);
    forall user: nat, checkout: bool
      ensures BalanceOf(after.entries, AccountFor(user, checkout)) == CreditedIn(after.deposits, held, user, checkout)
    {
      ChangedRow(c.deposits, i, after.deposits[i], held, user, checkout);
      UndoneBalance(c, held, i, user, checkout);
    }
  }

  lemma {:induction false} DepositsReorganised(c: Custody, scan: Scan, held: nat -> bool, n: nat)
    requires Sound(c) && Routed(c, held) && n <= |c.deposits|
    ensures ReorgDeposits(c, scan, n).Ok? && Routed(ReorgDeposits(c, scan, n).value, held)
  {
    hide Sound, Routed;
    CustodyRuns.ReorgDepositsSound(c, scan, n);
    if n != 0 {
      DepositsReorganised(c, scan, held, n - 1);
      CustodyRuns.ReorgDepositsSound(c, scan, n - 1);
      if Orphaned(c.deposits, scan, n - 1) {
        ReorganisedRouted(ReorgDeposits(c, scan, n - 1).value, held, n - 1);
      }
    }
  }

  // ---------------------------------------------------------------- house funding moves no user's money

  lemma {:induction false} HouseMoneyMoves(c: Custody, after: Custody, held: nat -> bool, postings: seq<Entry>)
    requires Sound(c) && Routed(c, held) && Adds(c.entries, c.transactions, postings)
    requires after.entries == c.entries + postings && after.deposits == c.deposits
    requires forall user: nat, checkout: bool :: BalanceOf(postings, AccountFor(user, checkout)) == 0
    ensures Routed(after, held)
  {
    hide Sound, EntriesOf, RoutedRow, BalanceOf, CreditedIn;
    RowsStay(c, held, postings);
    forall user: nat, checkout: bool
      ensures BalanceOf(after.entries, AccountFor(user, checkout)) == CreditedIn(after.deposits, held, user, checkout)
    {
      BalanceConcat(c.entries, postings, AccountFor(user, checkout));
    }
  }

  lemma {:induction false} FundingRouted(c: Custody, t: Transfer, held: nat -> bool)
    requires Sound(c) && Routed(c, held)
    ensures Routed(Fund(c, t), held)
  {
    hide Sound, EntriesOf, RoutedRow, BalanceOf, CreditedIn, Post;
    var postings := Postings(c.transactions, ExternalHouseFunding, HouseOperating, t.amount);
    CustodyRuns.PostTables(c, ExternalHouseFunding, HouseOperating, t.amount);
    EntriesBounded(c);
    forall user: nat, checkout: bool
      ensures BalanceOf(postings, AccountFor(user, checkout)) == 0
    {
      PostingsFacts(c.transactions, ExternalHouseFunding, HouseOperating, t.amount, AccountFor(user, checkout));
    }
    HouseMoneyMoves(c, Fund(c, t), held, postings);
  }

  lemma {:induction false} UnfundingRouted(c: Custody, held: nat -> bool, j: nat)
    requires Sound(c) && Routed(c, held) && j < |c.evidence| && c.evidence[j].compensation.None?
    ensures ReorgFunding(c, j).Ok? && Routed(ReorgFunding(c, j).value, held)
  {
    OneUnfunded(c, j);
    var e := c.evidence[j];
    var postings := Negated(EntriesOf(c.entries, e.transaction), c.transactions);
    EntriesBounded(c);
    FundingPostings(c, j);
    hide Sound, EntriesOf, RoutedRow, BalanceOf, CreditedIn, Negated;
    NegatedFacts(EntriesOf(c.entries, e.transaction), c.transactions, HouseOperating);
    forall user: nat, checkout: bool
      ensures BalanceOf(postings, AccountFor(user, checkout)) == 0
    {
      NegatedFacts(EntriesOf(c.entries, e.transaction), c.transactions, AccountFor(user, checkout));
      PostingsFacts(e.transaction, ExternalHouseFunding, HouseOperating, e.transfer.amount,
                    AccountFor(user, checkout));
    }
    HouseMoneyMoves(c, ReorgFunding(c, j).value, held, postings);
  }

  lemma {:induction false} FundingPostings(c: Custody, j: nat)
    requires Sound(c) && j < |c.evidence|
    ensures EntriesOf(c.entries, c.evidence[j].transaction)
         == Postings(c.evidence[j].transaction, ExternalHouseFunding, HouseOperating, c.evidence[j].transfer.amount)
  {
    hide Balanced, Tallied, DepositsSound, ClaimsSound, EntriesOf, Negated;
    CustodyRuns.EvidenceAt(c, j);
  }

  lemma {:induction false} FundingsReorganised(c: Custody, scan: Scan, held: nat -> bool, n: nat)
    requires Sound(c) && Routed(c, held) && n <= |c.evidence|
    ensures ReorgFundings(c, scan, n).Ok? && Routed(ReorgFundings(c, scan, n).value, held)
  {
    hide Sound, Routed;
    CustodyRuns.ReorgFundingsSound(c, scan, n);
    if n != 0 {
      FundingsReorganised(c, scan, held, n - 1);
      CustodyRuns.ReorgFundingsSound(c, scan, n - 1);
      if FundingOrphaned(c.evidence, scan, n - 1) {
        UnfundingRouted(ReorgFundings(c, scan, n - 1).value, held, n - 1);
      }
    }
  }

  lemma {:induction false} ReorgRouted(c: Custody, scan: Scan, held: nat -> bool)
    requires Sound(c) && Routed(c, held)
    ensures MarkReorged(c, scan).Ok? && Routed(MarkReorged(c, scan).value, held)
  {
    hide Sound, Routed;
    DepositsReorganised(c, scan, held, |c.deposits|);
    CustodyRuns.ReorgDepositsSound(c, scan, |c.deposits|);
    var marked := ReorgDeposits(c, scan, |c.deposits|).value;
    FundingsReorganised(marked, scan, held, |marked.evidence|);
  }

  // ---------------------------------------------------------------- credits

  lemma {:induction false} RowExists(c: Custody, key: Key) returns (i: nat)
    ensures RowOf(c.deposits, key, i)
  {
    if DepositOf(c.deposits, key).Some? {
      i := DepositOf(c.deposits, key).value;
    } else {
      i := |c.deposits|;
      DepositMissing(c.deposits, key);
    }
  }

  /** A row that changes without money, or a new one. */
  lemma {:induction false} QuietRow(c: Custody, after: Custody, t: Transfer, held: nat -> bool, i: nat)
    requires Sound(c) && Routed(c, held) && OnlyRow(c.deposits, after.deposits, i, t) && after.entries == c.entries
    requires if i < |c.deposits| && c.deposits[i].credit.Some? then
               && after.deposits[i].credit == c.deposits[i].credit && after.deposits[i].user == c.deposits[i].user
               && c.deposits[i].transfer.amount == t.amount && after.deposits[i].status == c.deposits[i].status
             else
               && after.deposits[i].credit.None? && after.deposits[i].status != Credited
               && (i < |c.deposits| ==> c.deposits[i].status != Credited)
    ensures Routed(after, held)
  {
    hide Sound, EntriesOf, BalanceOf, CreditedIn;
    forall user: nat, checkout: bool
      ensures BalanceOf(after.entries, AccountFor(user, checkout)) == CreditedIn(after.deposits, held, user, checkout)
    {
      if i < |c.deposits| {
        ChangedRow(c.deposits, i, after.deposits[i], held, user, checkout);
        assert after.deposits == c.deposits[i := after.deposits[i]];
      } else {
        OneMoreRow(c.deposits, after.deposits[i], held, user, checkout);
        assert after.deposits == c.deposits + [after.deposits[i]];
      }
    }
  }

  lemma {:induction false} PaidBalance(c: Custody, after: Custody, t: Transfer, held: nat -> bool, i: nat, payee: nat,
                                       user: nat, checkout: bool)
    requires Routed(c, held) && OnlyRow(c.deposits, after.deposits, i, t) && Pays(c, after, t, payee, held(i), i)
    requires i < |c.deposits| ==> c.deposits[i].status != Credited
    ensures BalanceOf(after.entries, AccountFor(user, checkout)) == CreditedIn(after.deposits, held, user, checkout)
  {
    hide EntriesOf, BalanceOf, CreditedIn, RoutedRow;
    if i < |c.deposits| {
      ChangedRow(c.deposits, i, after.deposits[i], held, user, checkout);
      assert after.deposits == c.deposits[i := after.deposits[i]];
    } else {
      OneMoreRow(c.deposits, after.deposits[i], held, user, checkout);
      assert after.deposits == c.deposits + [after.deposits[i]];
    }
  }

  lemma {:induction false} PaidRouted(c: Custody, after: Custody, t: Transfer, held: nat -> bool, i: nat, payee: nat)
    requires Sound(c) && Routed(c, held) && OnlyRow(c.deposits, after.deposits, i, t)
    requires Pays(c, after, t, payee, held(i), i) && (i < |c.deposits| ==> c.deposits[i].status != Credited)
    ensures Routed(after, held)
  {
    var postings := Postings(c.transactions, ExternalDeposits, AccountFor(payee, held(i)), t.amount);
    EntriesBounded(c);
    hide Sound, EntriesOf, BalanceOf, CreditedIn, RoutedRow;
    assert after.entries == c.entries + postings;
    RowsStay(c, held, postings);
    AddedEntries(c.entries, c.transactions, postings, c.transactions);
    NewRowRouted(after.deposits[i], after.entries, held(i), postings);
    forall user: nat, checkout: bool
      ensures BalanceOf(after.entries, AccountFor(user, checkout)) == CreditedIn(after.deposits, held, user, checkout)
    {
      PaidBalance(c, after, t, held, i, payee, user, checkout);
    }
  }

  lemma {:induction false} NewRowRouted(d: Deposit, entries: seq<Entry>, held: bool, postings: seq<Entry>)
    requires d.credit.Some? && d.user.Some? && EntriesOf(entries, d.credit.value) == postings
    requires postings
          == Postings(d.credit.value, ExternalDeposits, AccountFor(d.user.value, held), d.transfer.amount)
    ensures RoutedRow(d, entries, held)
  {
  }

  lemma {:induction false} CreditRouted(c: Custody, t: Transfer, wallet: Option<nat>, quote: bool, held: nat -> bool)
    requires Sound(c) && Routed(c, held) && CreditConfirmed(c, t, wallet, quote).Ok?
    requires forall i: nat :: !(i < |c.deposits| && c.deposits[i].credit.Some?) ==> held(i) == quote
    ensures Routed(CreditConfirmed(c, t, wallet, quote).value, held)
  {
    var i := RowExists(c, t.key);
    CreditEnds(c, t, wallet, quote, i);
    ClaimedElsewhere(c, i, t.key);
    var after := CreditConfirmed(c, t, wallet, quote).value;
    hide Sound, Routed, CreditConfirmed, RowOf, OnlyRow, Pays, PlacedAs, StaysInPlace;
    if (i < |c.deposits| && c.deposits[i].credit.Some?) || wallet.None? || t.key in c.claims {
      QuietRow(c, after, t, held, i);
    } else {
      PaidRouted(c, after, t, held, i, wallet.value);
    }
  }

  // ---------------------------------------------------------------- over runs

  lemma {:induction false} CreditedHasCredit(c: Custody)
    requires Sound(c)
    ensures forall i: nat :: i < |c.deposits| && c.deposits[i].status == Credited ==> c.deposits[i].credit.Some?
  {
    hide Balanced, Tallied, FundingSound, ClaimsSound, EntriesOf, Negated;
    forall i: nat | i < |c.deposits| && c.deposits[i].status == Credited
      ensures c.deposits[i].credit.Some?
    {
      CustodyRuns.SoundDeposit(c, i);
    }
  }

  lemma {:induction false} StepRouted(c: Custody, step: Step, held: nat -> bool)
    requires Sound(c) && Routed(c, held)
    requires forall i: nat :: !(i < |c.deposits| && c.deposits[i].credit.Some?) ==>
                                held(i) == (step.CreditStep? && step.quote)
    ensures Routed(Apply(c, step), held)
  {
    hide Sound, Routed, CreditConfirmed, MarkReorged, Fund;
    match step
    case CreditStep(t, wallet, quote) =>
      if CreditConfirmed(c, t, wallet, quote).Ok? {
        CreditRouted(c, t, wallet, quote, held);
      }
    case FundStep(t, operator, approver, linked) =>
      FundingRouted(c, t, held);
    case ReorgStep(scan) =>
      ReorgRouted(c, scan, held);
  }

  lemma {:induction false} NothingRouted(held: nat -> bool)
    ensures Routed(EmptyCustody, held)
  {
  }

  lemma {:induction false} RunRouted(steps: seq<Step>)
    ensures Routed(Run(steps), (i: nat) => ForCheckout(steps, i))
    decreases |steps|
  {
    var held := (i: nat) => ForCheckout(steps, i);
    if steps == [] {
      NothingRouted(held);
    } else {
      var init, last := steps[..|steps| - 1], steps[|steps| - 1];
      RunRouted(init);
      CustodyRuns.RunSound(init);
      CreditedHasCredit(Run(init));
      hide Sound, Routed, Apply;
      SameRouting(Run(init), (i: nat) => ForCheckout(init, i), held);
      StepRouted(Run(init), last, held);
    }
  }

  /**
   Over any run: a user's checkout account holds exactly the deposits still credited that a quote had matched when they
   were credited, and the available account exactly the others.
   */
  lemma {:induction false} EachAccountOnItsOwn(steps: seq<Step>, user: nat)
    ensures var c, held := Run(steps), (i: nat) => ForCheckout(steps, i);
            && BalanceOf(c.entries, UserAvailable(user)) == CreditedIn(c.deposits, held, user, false)
            && BalanceOf(c.entries, UserCheckout(user)) == CreditedIn(c.deposits, held, user, true)
  {
    RunRouted(steps);
    hide Run, BalanceOf, CreditedIn, ForCheckout;
    assert AccountFor(user, false) == UserAvailable(user) && AccountFor(user, true) == UserCheckout(user);
  }
}
