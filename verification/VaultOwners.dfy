/** What each owner is shown of the latest closed cycle, and how all owners' values add up. */
module VaultOwners {
  import opened Common
  import opened VaultTables
  import opened VaultLots
  import opened VaultInvariant
  import opened VaultSteps
  import opened VaultConsistency
  import VaultAudit
  import VaultReplayed
  import VaultRuns
  import VaultReplay

  datatype OwnerFault = ReplayFailed | ReplayMismatch | ProjectionMismatch | InvalidPosition | PositionExceedsSupply

  /** The value of a position at a price of `nav` for `supply` shares. */
  function PositionValue(shares: int, supply: int, nav: int): Result<int, OwnerFault> {
    if shares < 0 || supply <= 0 || nav < 0 then Err(InvalidPosition)
    else if supply < shares then Err(PositionExceedsSupply)
    else Ok(shares * nav / supply)
  }

  /** What is left of the cost basis of a user's first `n` lots. */
  function RemainingBasis(lots: seq<Lot>, allocations: seq<BurnAllocation>, user: nat, n: nat): int
    requires n <= |lots|
  {
    if n == 0 then 0
    else
      RemainingBasis(lots, allocations, user, n - 1)
      + (if lots[n - 1].user == user then lots[n - 1].basis - LotBasis(allocations, n - 1) else 0)
  }

  /** A withdrawal shows what it was paid or, until then, what it is worth now. */
  function WithdrawalValue(b: Book, r: nat, supply: int, nav: int): Result<int, OwnerFault>
    requires r < |b.requests|
  {
    var paid := PayableOf(b.payables, r);
    if paid.Some? then Ok(b.payables[paid.value].amount)
    else if b.requests[r].shares == 0 then Ok(0)
    else PositionValue(b.requests[r].shares, supply, nav)
  }

  predicate WithdrawalsShown(b: Book, user: nat, supply: int, nav: int) {
    forall r :: 0 <= r < |b.requests| && b.requests[r].user == user && b.requests[r].status != Canceled ==>
      WithdrawalValue(b, r, supply, nav).Ok?
  }

  /** What the owner's payables brought beyond the cost basis that they used up. */
  function RedemptionPnl(payables: seq<Payable>, requests: seq<Request>, user: nat): int {
    if payables == [] then 0
    else
      var last := payables[|payables| - 1];
      RedemptionPnl(payables[..|payables| - 1], requests, user)
      + (if last.request < |requests| && requests[last.request].user == user then last.amount - last.basis else 0)
  }

  datatype OwnerView = Missing | Stale | Shown(shares: int, basis: int, value: int, estimatedPnl: int,
                                               finalizedPnl: int)

  /** What one owner is shown; every error is an exception in the program. */
  ghost function ViewOf(b: Book, user: nat, age: int, maxAge: int): Result<OwnerView, OwnerFault> {
    if b.closings == [] then Ok(Missing)
    else if age < 0 || maxAge < age then Ok(Stale)
    else
      var c := b.closings[|b.closings| - 1];
      match VaultAudit.Replay(b)
      case Err(_) => Err(ReplayFailed)
      case Ok(report) =>
        if |b.checkpoints| <= c.checkpoint then Err(ReplayMismatch)
        else
          var gross := b.checkpoints[c.checkpoint].gross;
          if report.lastClosed != c.event || report.supply != c.supply || report.nav != c.nav
             || report.gross != gross || report.deductions != gross - c.nav
          then Err(ReplayMismatch)
          else Shares(b, user, c)
  }

  function Shares(b: Book, user: nat, c: Closing): Result<OwnerView, OwnerFault> {
    var shares := Balance(b.shareEvents, user);
    var basis := RemainingBasis(b.lots, b.allocations, user, |b.lots|);
    if shares < 0 || basis < 0 || c.supply < shares then Err(ProjectionMismatch)
    else
      match if shares == 0 then Ok(0) else PositionValue(shares, c.supply, c.nav)
      case Err(fault) => Err(fault)
      case Ok(value) =>
        if !WithdrawalsShown(b, user, c.supply, c.nav) then Err(PositionExceedsSupply)
        else
          Ok(Shown(shares, basis, value, if shares == 0 then -basis else value - basis,
                   RedemptionPnl(b.payables, b.requests, user)))
  }

  // ---------------------------------------------------------------- one owner

  lemma {:induction false} BasisSign(lots: seq<Lot>, allocations: seq<BurnAllocation>, user: nat, n: nat)
    requires n <= |lots| && LotsSound(lots, allocations)
    ensures 0 <= RemainingBasis(lots, allocations, user, n)
  {
    if n != 0 {
      BasisSign(lots, allocations, user, n - 1);
      var lot, burned := lots[n - 1], LotBurned(allocations, n - 1);
      assert LotSound(lot, burned, LotBasis(allocations, n - 1));
      FloorMono(lot.basis * burned, lot.basis * lot.shares, lot.shares);
      FloorExact(lot.basis, lot.shares);
      MulMono(burned, lot.shares, lot.basis);
    }
  }

  lemma {:induction false} LastClosing(b: Book)
    requires Consistent(b) && b.closings != []
    ensures var c := b.closings[|b.closings| - 1];
            && c.supply == Supply(b.shareEvents) && 0 <= c.supply && 0 <= c.nav && (c.supply == 0 ==> c.nav == 0)
    ensures Sound(b, b.clock)
  {
    VaultRuns.Sizes(b);
    hide VaultReplay.Linked, Sound;
    var i := |b.closings| - 1;
    assert ClosingSound(b.closings[i], b.checkpoints[i], i);
  }

  lemma {:induction false} WithdrawalsAreShown(b: Book, user: nat, c: Closing)
    requires Sound(b, b.clock) && c.supply == Supply(b.shareEvents) && 0 <= c.nav
    ensures WithdrawalsShown(b, user, c.supply, c.nav)
  {
    hide LotBook, MarksSound, CheckpointsSound, DepositsSound, FeesSound, HistorySound, BurnsMatched, MarkSound,
         PayableSound, Balance, Supply;
    forall r | 0 <= r < |b.requests| && b.requests[r].user == user && b.requests[r].status != Canceled
      ensures WithdrawalValue(b, r, c.supply, c.nav).Ok?
    {
      BalanceWithinSupply(b.shareEvents, b.lots, b.allocations, b.requests[r].user);
      assert RequestSound(b.requests[r], r, b.reserves, b.shareEvents);
    }
  }

  lemma {:induction false} SharesAreShown(b: Book, user: nat, c: Closing)
    requires Sound(b, b.clock) && c.supply == Supply(b.shareEvents) && 0 <= c.nav
    ensures Shares(b, user, c).Ok? && Shares(b, user, c).value.Shown?
    ensures Shares(b, user, c).value.shares == Balance(b.shareEvents, user)
    ensures 0 < Balance(b.shareEvents, user) ==>
              0 < c.supply && Shares(b, user, c).value.value == Balance(b.shareEvents, user) * c.nav / c.supply
    ensures Balance(b.shareEvents, user) == 0 ==> Shares(b, user, c).value.value == 0
    ensures var view := Shares(b, user, c).value;
            && view.basis == RemainingBasis(b.lots, b.allocations, user, |b.lots|) && 0 <= view.basis
            && view.estimatedPnl == view.value - view.basis
            && view.finalizedPnl == RedemptionPnl(b.payables, b.requests, user)
  {
    WithdrawalsAreShown(b, user, c);
    hide WithdrawalsShown, QueueSound, MarksSound, PayablesSound, CheckpointsSound, DepositsSound, FeesSound,
         HistorySound, BurnsMatched, Balance, Supply, RemainingBasis;
    BalanceWithinSupply(b.shareEvents, b.lots, b.allocations, user);
    BasisSign(b.lots, b.allocations, user, |b.lots|);
  }

  lemma {:induction false} ReplayAgrees(b: Book, user: nat, age: int, maxAge: int)
    requires b.closings != [] && b.closings[|b.closings| - 1].checkpoint < |b.checkpoints| && 0 <= age <= maxAge
    requires VaultAudit.Replay(b) == Ok(VaultReplayed.ReportOf(b))
    requires b.closings[|b.closings| - 1].supply == Supply(b.shareEvents)
    ensures ViewOf(b, user, age, maxAge) == Shares(b, user, b.closings[|b.closings| - 1])
  {
    hide VaultAudit.Replay, Shares, Supply, VaultReplay.Minted, VaultReplay.Burned;
  }

  /** After every run with a closed cycle every owner is shown their shares and what they are worth, without a fault. */
  lemma {:induction false} EveryOwnerIsShown(vault: nat, steps: seq<Step>, user: nat, age: int, maxAge: int)
    requires Run(vault, steps).closings != [] && 0 <= age <= maxAge
    ensures var b := Run(vault, steps);
            var c, view := b.closings[|b.closings| - 1], ViewOf(b, user, age, maxAge);
            && view.Ok? && view.value.Shown? && view.value.shares == Balance(b.shareEvents, user)
            && (if view.value.shares == 0 then view.value.value == 0
                else 0 < c.supply && view.value.value == view.value.shares * c.nav / c.supply)
            && view.value.basis == RemainingBasis(b.lots, b.allocations, user, |b.lots|) && 0 <= view.value.basis
            && view.value.estimatedPnl == view.value.value - view.value.basis
            && view.value.finalizedPnl == RedemptionPnl(b.payables, b.requests, user)
  {
    var b := Run(vault, steps);
    VaultReplayed.EveryRunReplays(vault, steps);
    VaultRuns.RunConsistent(vault, steps);
    hide Run, Consistent, VaultAudit.Replay, Shares, Sound, Supply, Balance, ViewOf, VaultReplayed.ReportOf;
    LastClosing(b);
    ReplayAgrees(b, user, age, maxAge);
    SharesAreShown(b, user, b.closings[|b.closings| - 1]);
    BalanceSign(b, user);
  }

  /** What a position is worth, or why it cannot be: the shares' part of the value, rounded down. */
  lemma {:induction false} PositionIsValued(shares: int, supply: int, nav: int)
    ensures var v := PositionValue(shares, supply, nav);
            if shares < 0 || supply <= 0 || nav < 0 then v == Err(InvalidPosition)
            else if supply < shares then v == Err(PositionExceedsSupply)
            else v.Ok? && v.value * supply <= shares * nav < v.value * supply + supply
  {
    if 0 < supply {
      FloorBounds(shares * nav, supply);
    }
  }

  lemma {:induction false} PayableIsFound(payables: seq<Payable>, r: nat)
    ensures PayableOf(payables, r).Some? <==> exists k :: 0 <= k < |payables| && payables[k].request == r
  {
    if payables != [] {
      var init := payables[..|payables| - 1];
      PayableIsFound(init, r);
      if k :| 0 <= k < |init| && init[k].request == r {
        assert payables[k].request == r;
      }
    }
  }

  /** A redemption is shown what was paid for it or, before that, what its shares are worth. */
  ghost predicate WithdrawalShown(b: Book, r: nat, supply: int, nav: int, shown: Result<int, OwnerFault>)
    requires r < |b.requests|
  {
    && shown.Ok?
    && (forall k :: 0 <= k < |b.payables| && b.payables[k].request == r ==> shown.value == b.payables[k].amount)
    && ((forall k :: 0 <= k < |b.payables| ==> b.payables[k].request != r) ==>
          && 0 < b.requests[r].shares <= supply
          && shown.value * supply <= b.requests[r].shares * nav < shown.value * supply + supply)
  }

  lemma {:induction false} WithdrawalOfBook(b: Book, r: nat, supply: int, nav: int)
    requires Sound(b, b.clock) && supply == Supply(b.shareEvents) && 0 <= nav && r < |b.requests|
    ensures WithdrawalShown(b, r, supply, nav, WithdrawalValue(b, r, supply, nav))
  {
    hide LotBook, MarksSound, CheckpointsSound, DepositsSound, FeesSound, HistorySound, BurnsMatched, MarkSound,
         PayableSound, Balance, Supply, PayableOf, PositionValue;
    var was := b.requests[r];
    assert RequestSound(was, r, b.reserves, b.shareEvents);
    BalanceWithinSupply(b.shareEvents, b.lots, b.allocations, was.user);
    PayableIsFound(b.payables, r);
    PositionIsValued(was.shares, supply, nav);
  }

  /**
   After every run with a closed cycle every redemption is shown with a value: what was paid for it or, before that,
   what its shares were worth at the last close.
   */
  lemma {:induction false} EveryWithdrawalIsShown(vault: nat, steps: seq<Step>, r: nat)
    requires Run(vault, steps).closings != [] && r < |Run(vault, steps).requests|
    ensures var b := Run(vault, steps);
            var c := b.closings[|b.closings| - 1];
            WithdrawalShown(b, r, c.supply, c.nav, WithdrawalValue(b, r, c.supply, c.nav))
  {
    var b := Run(vault, steps);
    VaultRuns.RunConsistent(vault, steps);
    hide Run, Consistent, Sound, Supply, WithdrawalShown, WithdrawalValue;
    LastClosing(b);
    var c := b.closings[|b.closings| - 1];
    WithdrawalOfBook(b, r, c.supply, c.nav);
  }

  lemma {:induction false} BalanceSign(b: Book, user: nat)
    requires Sound(b, b.clock)
    ensures 0 <= Balance(b.shareEvents, user) <= Supply(b.shareEvents)
  {
    hide QueueSound, MarksSound, PayablesSound, CheckpointsSound, DepositsSound, FeesSound, HistorySound, BurnsMatched,
         LotBook;
    BalanceWithinSupply(b.shareEvents, b.lots, b.allocations, user);
  }

  // ---------------------------------------------------------------- all owners

  function ValueShown(view: Result<OwnerView, OwnerFault>): int {
    if view.Ok? && view.value.Shown? then view.value.value else 0
  }

  /** What the listed owners are shown, added up. */
  ghost function ValuesShown(b: Book, users: seq<nat>, age: int, maxAge: int): int {
    if users == [] then 0 else ValueShown(ViewOf(b, users[0], age, maxAge)) + ValuesShown(b, users[1..], age, maxAge)
  }

  function FloorOf(shares: int, supply: int, nav: int): int {
    if supply <= 0 then 0 else shares * nav / supply
  }

  function FloorsOf(shareEvents: seq<ShareEvent>, users: seq<nat>, supply: int, nav: int): int {
    if users == [] then 0
    else FloorOf(Balance(shareEvents, users[0]), supply, nav) + FloorsOf(shareEvents, users[1..], supply, nav)
  }

  lemma {:induction false} ViewsAreFloors(vault: nat, steps: seq<Step>, users: seq<nat>, age: int, maxAge: int)
    requires Run(vault, steps).closings != [] && 0 <= age <= maxAge
    ensures var b := Run(vault, steps);
            var c := b.closings[|b.closings| - 1];
            ValuesShown(b, users, age, maxAge) == FloorsOf(b.shareEvents, users, c.supply, c.nav)
  {
    hide Run, ViewOf, Balance;
    if users != [] {
      EveryOwnerIsShown(vault, steps, users[0], age, maxAge);
      ViewsAreFloors(vault, steps, users[1..], age, maxAge);
    }
  }

  function BalancesOf(shareEvents: seq<ShareEvent>, users: seq<nat>): int {
    if users == [] then 0 else Balance(shareEvents, users[0]) + BalancesOf(shareEvents, users[1..])
  }

  /** Every holder is listed, and nobody twice. */
  ghost predicate ListsHolders(shareEvents: seq<ShareEvent>, users: seq<nat>) {
    Distinct(users) && forall i :: 0 <= i < |shareEvents| ==> shareEvents[i].user in users
  }

  lemma {:induction false} OneMoreBalance(shareEvents: seq<ShareEvent>, e: ShareEvent, users: seq<nat>)
    requires Distinct(users)
    ensures BalancesOf(shareEvents + [e], users)
         == BalancesOf(shareEvents, users) + (if e.user in users then Signed(e) else 0)
  {
    if users != [] {
      OneMoreShareEvent(shareEvents, e, users[0]);
      OneMoreBalance(shareEvents, e, users[1..]);
      assert users == [users[0]] + users[1..];
    }
  }

  lemma {:induction false} NoBalances(users: seq<nat>)
    ensures BalancesOf([], users) == 0
  {
    if users != [] {
      NoBalances(users[1..]);
    }
  }

  /** The holders' balances add up to the supply. */
  lemma {:induction false} BalancesAddUp(shareEvents: seq<ShareEvent>, users: seq<nat>)
    requires ListsHolders(shareEvents, users)
    ensures BalancesOf(shareEvents, users) == Supply(shareEvents)
  {
    if shareEvents == [] {
      NoBalances(users);
    } else {
      var init, last := shareEvents[..|shareEvents| - 1], shareEvents[|shareEvents| - 1];
      BalancesAddUp(init, users);
      OneMoreBalance(init, last, users);
      assert shareEvents == init + [last];
    }
  }

  /** The floors of the listed balances stay within the worth of their sum, by less than one unit each. */
  lemma {:induction false} WorthNearSum(shareEvents: seq<ShareEvent>, users: seq<nat>, supply: Positive, nav: nat)
    requires forall i :: 0 <= i < |users| ==> 0 <= Balance(shareEvents, users[i])
    ensures var worth, held := FloorsOf(shareEvents, users, supply, nav), BalancesOf(shareEvents, users);
            worth * supply <= held * nav <= worth * supply + |users| * (supply - 1)
  {
    if users != [] {
      hide Balance;
      var rest, shares := users[1..], Balance(shareEvents, users[0]);
      WorthNearSum(shareEvents, rest, supply, nav);
      WorthStep(shares, FloorsOf(shareEvents, rest, supply, nav), BalancesOf(shareEvents, rest), |rest|, supply, nav);
    }
  }

  lemma {:induction false} WorthStep(shares: nat, worth: int, held: int, n: nat, supply: Positive, nav: nat)
    requires worth * supply <= held * nav <= worth * supply + n * (supply - 1)
    ensures var w := FloorOf(shares, supply, nav);
            (w + worth) * supply <= (shares + held) * nav <= (w + worth) * supply + (n + 1) * (supply - 1)
  {
    var w := FloorOf(shares, supply, nav);
    FloorBounds(shares * nav, supply);
    Distribute(w, worth, supply);
    Distribute(shares, held, nav);
    Distribute(n, 1, supply - 1);
  }

  lemma {:induction false} WithinUnits(worth: int, n: nat, supply: Positive, nav: nat)
    requires worth * supply <= supply * nav <= worth * supply + n * (supply - 1) && 0 < n
    ensures worth <= nav < worth + n
  {
    MulGap(nav, worth, supply);
    MulGap(worth + n - 1, nav, supply);
    Distribute(worth, n - 1, supply);
    assert n * (supply - 1) == (n - 1) * supply + supply - n;
  }

  lemma {:induction false} FloorsShareTheValue(b: Book, users: seq<nat>)
    requires Consistent(b) && b.closings != [] && users != [] && ListsHolders(b.shareEvents, users)
    ensures var c := b.closings[|b.closings| - 1];
            var floors := FloorsOf(b.shareEvents, users, c.supply, c.nav);
            floors <= c.nav < floors + |users|
  {
    hide Consistent, Sound, Supply, Balance, ListsHolders, BalancesOf, FloorsOf;
    LastClosing(b);
    var c := b.closings[|b.closings| - 1];
    BalancesAddUp(b.shareEvents, users);
    forall i | 0 <= i < |users|
      ensures 0 <= Balance(b.shareEvents, users[i])
    {
      BalanceSign(b, users[i]);
    }
    if c.supply == 0 {
      NoWorth(b.shareEvents, users, c.nav);
    } else {
      WorthNearSum(b.shareEvents, users, c.supply, c.nav);
      WithinUnits(FloorsOf(b.shareEvents, users, c.supply, c.nav), |users|, c.supply, c.nav);
    }
  }

  /** What the owners are shown adds up to no more than the closing value, and misses it by less than a unit each. */
  lemma {:induction false} OwnersShareTheValue(vault: nat, steps: seq<Step>, users: seq<nat>, age: int, maxAge: int)
    requires Run(vault, steps).closings != [] && users != [] && ListsHolders(Run(vault, steps).shareEvents, users)
    requires 0 <= age <= maxAge
    ensures var b := Run(vault, steps);
            var shown, nav := ValuesShown(b, users, age, maxAge), b.closings[|b.closings| - 1].nav;
            shown <= nav < shown + |users|
  {
    hide Run, Consistent, ListsHolders, FloorsOf, ValuesShown;
    VaultRuns.RunConsistent(vault, steps);
    ViewsAreFloors(vault, steps, users, age, maxAge);
    FloorsShareTheValue(Run(vault, steps), users);
  }

  lemma {:induction false} NoWorth(shareEvents: seq<ShareEvent>, users: seq<nat>, nav: int)
    ensures FloorsOf(shareEvents, users, 0, nav) == 0
  {
    if users != [] {
      NoWorth(shareEvents, users[1..], nav);
    }
  }
}
