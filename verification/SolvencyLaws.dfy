/** When the public view is available and what it then shows, and what the client's acceptance says of a snapshot. */
module SolvencyLaws {
  import opened Common
  import opened Doubles
  import opened MicroUnits
  import opened Solvency
  import opened SolvencyView

  // ---------------------------------------------------------------- what the server asks for

  predicate Whole(v: int) {
    0 <= v <= 9007199254740991
  }

  predicate Exact(v: int) {
    -9007199254740991 <= v <= 9007199254740991
  }

  /** A reconciliation that can be read, whose single asset row repeats its figures. */
  predicate Readable(r: Reconciliation) {
    && r.readable && |r.assets| == 1
    && Whole(r.blockNumber) && Whole(r.treasury) && Exact(r.custody) && Whole(r.userAvailable)
    && Whole(r.userClaimable) && Whole(r.userCheckout) && Whole(r.openStake) && Whole(r.openReserve)
    && Whole(r.withdrawals) && Exact(r.houseEquity) && Exact(r.custodyDelta) && Whole(r.metricTimestamp)
    && Whole(r.softStake) && Whole(r.softPayout) && Whole(r.softCount) && Whole(r.softCharge)
    && r.assets[0].balance == r.treasury && r.assets[0].blockNumber == r.blockNumber
    && r.assets[0].blockHash == r.blockHash && r.assets[0].timestamp == r.metricTimestamp
    && r.metricTimestamp * 1000 <= 9007199254740991 && r.metricTimestamp * 1000 <= r.created
  }

  predicate ScopedTo(r: Reconciliation, scope: nat)
    requires |r.assets| == 1
  {
    r.scope == Some(scope) && r.assets[0].scope == Some(scope)
  }

  predicate Trusted(r: Reconciliation)
    requires |r.assets| == 1
  {
    r.scope.Some? && r.assets[0].scope.Some? && r.assets[0].onchain
  }

  /** The house's equity and the custody difference are what the other figures make them. */
  predicate Balanced(r: Reconciliation) {
    && r.houseEquity + r.userAvailable + r.userClaimable + r.userCheckout + r.withdrawals + r.openStake + r.openReserve
       == r.treasury
    && r.custodyDelta + r.custody == r.treasury
  }

  /** `charge` covers the payouts and a quarter beyond the stakes, by less than one unit a basket too much. */
  predicate ChargeFits(stake: int, payout: int, count: int, charge: int) {
    && (count == 0 ==> stake == 0 && payout == 0)
    && 0 <= charge && payout * 125 <= (stake + charge) * 100
    && (0 < charge - (if 0 < count then count - 1 else 0) ==>
          (stake + charge - (if 0 < count then count - 1 else 0)) * 100 < payout * 125 + 100)
  }

  predicate Plausible(a: Accounting, vault: nat) {
    && a.vault == vault && 0 < a.bookVersion && 0 <= a.blockNumber && 0 <= a.grossAssets && 0 <= a.nav
    && 0 <= a.shares && 0 <= a.pending && 0 <= a.marked && 0 <= a.fallback && a.fallback <= a.gross
    && 0 <= a.coverageBps && a.coverageBps <= 10000 && (a.shares == 0 ==> a.nav == 0)
  }

  lemma {:induction false} ReadableMeans(r: Reconciliation)
    ensures Readable(r) <==> ReadsExactly(r) && Safe(ObservedMs(r)) && ObservedMs(r) <= r.created
    ensures Balanced(r) <==> BalancesAgree(r)
  {
  }

  lemma {:induction false} ChargeMeans(r: Reconciliation)
    ensures ChargeAccepted(r) <==> ChargeFits(r.softStake, r.softPayout, r.softCount, r.softCharge)
  {
    CeilMeans(r.softPayout * 125, 100, r.softStake + r.softCharge);
    CeilMeans(r.softPayout * 125, 100, r.softStake);
    CeilMeans(r.softPayout * 125, 100, r.softStake + r.softCharge - MaxExtra(r.softCount));
  }

  lemma {:induction false} PlausibleMeans(a: Accounting, vault: nat)
    ensures Plausible(a, vault) <==> AccountingAccepted(a, vault)
  {
  }

  // ---------------------------------------------------------------- what the view shows

  /** The figures that are sent as they are, and the gates. */
  ghost predicate ShowsFigures(s: Snapshot, r: Reconciliation, senior: int, gross: int, control: Option<Gate>) {
    && s.asOf == r.metricTimestamp * 1000 && s.processed == r.created && s.blockNumber == r.blockNumber
    && s.treasury == Usd(r.treasury) && s.senior == Usd(senior) && s.gross == Usd(gross)
    && s.reservedNet == Usd(r.openReserve) && s.hardCapital == Usd(r.treasury - senior - gross)
    && s.hardFloor == Usd(senior + gross) && s.custodyDelta == Usd(r.treasury - r.custody)
    && s.basketStake == Usd(r.softStake) && s.basketPayout == Usd(r.softPayout) && s.basketCount == r.softCount
    && s.basketCharge == Usd(r.softCharge)
    && (s.underwriting <==> r.launchReady && s.status == Healthy && control.None?)
    && (s.operations == GateBlocked <==> r.gate == GateBlocked || control == Some(GateBlocked))
    && (s.operations == GateOpen <==> r.gate == GateOpen && (control.None? || control == Some(GateOpen)))
  }

  /** The floors with a quarter of the open payouts, rounded up, and how the treasury stands to them. */
  ghost predicate ShowsFloors(s: Snapshot, r: Reconciliation, senior: int, gross: int) {
    var floor := senior + gross + (gross + 3) / 4 + r.softCharge;
    && s.coverageBuffer == Usd((gross + 3) / 4) && s.withdrawalFloor == Usd(floor)
    && s.aboveWithdrawal == Usd(if floor < r.treasury then r.treasury - floor else 0)
    && s.status == (if r.treasury < senior + gross then CollateralShortfall
                    else if r.treasury < floor then OperatingBufferBreached else Healthy)
  }

  ghost predicate ShowsCoverage(s: Snapshot, numerator: int, gross: int) {
    && (s.coverage.None? <==> gross == 0)
    && (s.coverage.Some? ==>
          exists ratio :: NearestMillionths(ratio, numerator, gross) && s.coverage.value == Usd(ratio))
  }

  /** Every figure of a snapshot, from the figures of its reconciliation. */
  ghost predicate Shows(s: Snapshot, r: Reconciliation, control: Option<Gate>) {
    var senior := r.userAvailable + r.userClaimable + r.userCheckout + r.withdrawals;
    var gross := r.openStake + r.openReserve;
    && ShowsFigures(s, r, senior, gross, control) && ShowsFloors(s, r, senior, gross)
    && ShowsCoverage(s, r.treasury - senior, gross)
  }

  /** A ratio in millionths, to the nearest. */
  predicate NearestMillionths(ratio: int, numerator: int, denominator: int) {
    && 2 * (ratio * denominator - numerator * 1000000) <= denominator
    && 2 * (numerator * 1000000 - ratio * denominator) <= denominator
  }

  /** The accounting that is published: a share is ten to the eighteenth units, and costs a dollar at first. */
  ghost predicate Publishes(p: PublicAccounting, a: Accounting) {
    && p.asOf == a.asOf && p.processed == a.processed && p.cutoffAt == a.cutoff * 86400000
    && p.bookVersion == a.bookVersion && p.blockNumber == a.blockNumber && p.nav == a.nav && p.shares == a.shares
    && p.pending == a.pending && p.estimated == a.estimated && p.finalized == a.finalized && p.marked == a.marked
    && p.fallback == a.fallback && p.coverageBps == a.coverageBps && p.shareUnits == 1000000000000000000
    && (if a.shares == 0 then p.sharePrice == 1000000
        else p.sharePrice * a.shares <= a.nav * 1000000000000000000 < p.sharePrice * a.shares + a.shares)
  }

  lemma {:induction false} FiguresShown(r: Reconciliation, e: Evaluation, control: Option<Gate>)
    requires ReadsExactly(r) && BalancesAgree(r) && Evaluate(SolvencyInput(r)) == Ok(e)
    ensures var senior, gross := r.userAvailable + r.userClaimable + r.userCheckout + r.withdrawals,
                                 r.openStake + r.openReserve;
            ShowsFigures(SnapshotOf(r, e, control), r, senior, gross, control)
  {
    hide Usd, RatioToSixDecimals, Ceil;
  }

  lemma {:induction false} FloorsShown(r: Reconciliation, e: Evaluation, control: Option<Gate>)
    requires ReadsExactly(r) && Evaluate(SolvencyInput(r)) == Ok(e)
    ensures var senior, gross := r.userAvailable + r.userClaimable + r.userCheckout + r.withdrawals,
                                 r.openStake + r.openReserve;
            ShowsFloors(SnapshotOf(r, e, control), r, senior, gross)
  {
    hide Usd, RatioToSixDecimals, Ceil;
    QuarterRoundedUp(GrossPayouts(r));
  }

  lemma {:induction false} CoverageShown(r: Reconciliation, e: Evaluation, control: Option<Gate>)
    requires ReadsExactly(r)
    ensures var senior, gross := r.userAvailable + r.userClaimable + r.userCheckout + r.withdrawals,
                                 r.openStake + r.openReserve;
            ShowsCoverage(SnapshotOf(r, e, control), r.treasury - senior, gross)
  {
    hide Usd;
    var numerator, gross := r.treasury - SeniorObligations(r), GrossPayouts(r);
    if 0 < gross {
      RatioIsNearest(numerator, gross);
      assert NearestMillionths(RatioToSixDecimals(numerator, gross).value, numerator, gross);
    } else {
      assert RatioToSixDecimals(numerator, gross) == None;
    }
    hide RatioToSixDecimals, NearestMillionths;
  }

  lemma {:induction false} SnapshotShows(r: Reconciliation, e: Evaluation, control: Option<Gate>)
    requires ReadsExactly(r) && BalancesAgree(r) && Evaluate(SolvencyInput(r)) == Ok(e)
    ensures Shows(SnapshotOf(r, e, control), r, control)
  {
    hide Usd, ShowsFigures, ShowsFloors, ShowsCoverage, Evaluate, SnapshotOf;
    FiguresShown(r, e, control);
    FloorsShown(r, e, control);
    CoverageShown(r, e, control);
  }

  lemma {:induction false} PublicPublishes(a: Accounting, vault: nat)
    requires AccountingAccepted(a, vault)
    ensures Publishes(PublicOf(a), a)
  {
    if a.shares != 0 {
      FloorBounds(a.nav * SHARE_UNITS, a.shares);
    }
  }

  lemma {:induction false} AlwaysEvaluated(r: Reconciliation)
    requires ReadsExactly(r)
    ensures Evaluate(SolvencyInput(r)).Ok?
  {
    hide Ceil;
  }

  /**
   How a public view is derived, in the order of its guards. It is available when the vault is configured, a readable,
   trusted, balanced and current reconciliation of its scope is there, and plausible, current accounting; and it then
   shows what these say.
   */
  lemma {:induction false} ViewEnds(vault: Option<Vault>, reconciliation: Option<Reconciliation>,
                                    accounting: Option<Accounting>, control: Option<Gate>, now: int)
    ensures var view := DeriveView(vault, reconciliation, accounting, control, now);
            if vault.None? then view == Unavailable(VaultUnconfigured)
            else if !vault.value.configured then view == Unavailable(VaultMisconfigured)
            else if reconciliation.None? then view == Unavailable(ReconciliationAbsent)
            else
              var v, r := vault.value, reconciliation.value;
              if !r.fromWorker then view == Unavailable(ReconciliationUntrusted)
              else if !Readable(r) then view == Unavailable(ReconciliationMalformed)
              else if !Trusted(r) then view == Unavailable(ReconciliationUntrusted)
              else if !ScopedTo(r, v.scope) then view == Unavailable(ReconciliationWrongScope)
              else if !Balanced(r) then view == Unavailable(ReconciliationMalformed)
              else if now < r.metricTimestamp * 1000 then view == Unavailable(ReconciliationFuture)
              else if now - r.metricTimestamp * 1000 > 300000 then view == Unavailable(ReconciliationStale)
              else if !ChargeFits(r.softStake, r.softPayout, r.softCount, r.softCharge)
              then view == Unavailable(ReconciliationMalformed)
              else if accounting.None? then view == Unavailable(AccountingAbsent)
              else if !Plausible(accounting.value, v.id) || now < accounting.value.asOf
              then view == Unavailable(AccountingMalformed)
              else if now - accounting.value.asOf > 93600000 then view == Unavailable(AccountingStale)
              else
                && view.Available? && Shows(view.snapshot, r, control)
                && Publishes(view.accounting, accounting.value)
  {
    hide ReadsExactly, BalancesAgree, ChargeAccepted, AccountingAccepted, Evaluate, SnapshotOf, PublicOf, Shows,
         Publishes, ChargeFits, Plausible, Balanced, Safe;
    if reconciliation.Some? {
      var r := reconciliation.value;
      ReadableMeans(r);
      ChargeMeans(r);
      if ReadsExactly(r) {
        AlwaysEvaluated(r);
        if BalancesAgree(r) {
          SnapshotShows(r, Evaluate(SolvencyInput(r)).value, control);
        }
      }
    }
    if vault.Some? && accounting.Some? {
      PlausibleMeans(accounting.value, vault.value.id);
      if AccountingAccepted(accounting.value, vault.value.id) {
        PublicPublishes(accounting.value, vault.value.id);
      }
    }
  }

  // ---------------------------------------------------------------- what the client's acceptance says

  /** The client reads every figure of the snapshot as `f` has it. */
  ghost predicate ReadsAs(s: Snapshot, f: Figures) {
    && ToMicroUnits(s.treasury) == Some(f.treasury) && ToMicroUnits(s.senior) == Some(f.senior)
    && ToMicroUnits(s.gross) == Some(f.gross) && ToMicroUnits(s.hardCapital) == Some(f.hardCapital)
    && ToMicroUnits(s.hardFloor) == Some(f.hardFloor) && ToMicroUnits(s.coverageBuffer) == Some(f.coverageBuffer)
    && ToMicroUnits(s.basketStake) == Some(f.basketStake) && ToMicroUnits(s.basketPayout) == Some(f.basketPayout)
    && ToMicroUnits(s.basketCharge) == Some(f.basketCharge)
    && ToMicroUnits(s.withdrawalFloor) == Some(f.withdrawalFloor)
    && ToMicroUnits(s.aboveWithdrawal) == Some(f.aboveWithdrawal)
  }

  /** The order of times and floors, and the signs of what cannot be negative. */
  predicate Ordered(s: Snapshot) {
    && s.asOf <= s.processed && 0 <= s.blockNumber && Whole(s.basketCount) && s.hardFloor <= s.withdrawalFloor
    && 0.0 <= s.treasury && 0.0 <= s.senior && 0.0 <= s.gross && 0.0 <= s.reservedNet && 0.0 <= s.hardFloor
    && 0.0 <= s.coverageBuffer && 0.0 <= s.basketStake && 0.0 <= s.basketPayout && 0.0 <= s.basketCharge
    && 0.0 <= s.aboveWithdrawal
  }

  /** Capital and floors follow from the other figures. */
  predicate FloorsFollow(f: Figures) {
    && f.hardFloor == f.senior + f.gross && f.hardCapital + f.hardFloor == f.treasury
    && f.gross <= 4 * f.coverageBuffer && 4 * f.coverageBuffer < f.gross + 4
    && f.withdrawalFloor == f.hardFloor + f.coverageBuffer + f.basketCharge
    && f.aboveWithdrawal == (if f.withdrawalFloor < f.treasury then f.treasury - f.withdrawalFloor else 0)
  }

  predicate StatusFollows(s: Snapshot, f: Figures) {
    && (s.status == CollateralShortfall <==> f.treasury < f.hardFloor)
    && (s.status == Healthy <==> f.hardFloor <= f.treasury && f.withdrawalFloor <= f.treasury)
    && (s.underwriting ==> s.status == Healthy)
  }

  predicate ChargeFollows(f: Figures, count: int) {
    var requirement := (f.basketPayout * 125 + 99) / 100;
    var least := if requirement > f.basketStake then requirement - f.basketStake else 0;
    && (count == 0 ==> f.basketStake == 0 && f.basketPayout == 0)
    && least <= f.basketCharge <= least + (if 0 < count then count - 1 else 0)
  }

  /** The coverage is sent within a millionth of the one that the client works out, and only if there are payouts. */
  ghost predicate CoverageFollows(s: Snapshot, f: Figures) {
    if f.gross <= 0 then f.gross == 0 && s.coverage == None
    else
      && s.coverage.Some?
      && exists ratio ::
           && NearestMillionths(ratio, f.treasury - f.senior, f.gross)
           && Magnitude(Nearest(s.coverage.value - Usd(ratio))) <= Nearest(0.000001)
  }

  lemma {:induction false} ReadMeans(s: Snapshot, f: Figures)
    ensures Read(s) == Some(f) <==> ReadsAs(s, f)
  {
    hide ToMicroUnits;
  }

  lemma {:induction false} RecomputedMeans(s: Snapshot, f: Figures)
    requires 0 <= f.gross
    ensures FiguresRecomputed(s, f) <==> FloorsFollow(f) && ChargeFollows(f, s.basketCount) && StatusFollows(s, f)
  {
  }

  lemma {:induction false} CoverageMeans(s: Snapshot, f: Figures)
    requires 0 <= f.gross && CoverageRecomputed(s, f)
    ensures CoverageFollows(s, f)
  {
    hide Usd, Nearest, Magnitude;
    if 0 < f.gross {
      var numerator := f.treasury - f.senior;
      RatioIsNearest(numerator, f.gross);
      var ratio := RatioToSixDecimals(numerator, f.gross).value;
      assert NearestMillionths(ratio, numerator, f.gross);
      assert numerator == 0 ==> ratio == 0;
      hide NearestMillionths;
    }
  }

  lemma {:induction false} GrossSign(s: Snapshot, f: Figures)
    requires ReadsAs(s, f) && 0.0 <= s.gross
    ensures 0 <= f.gross
  {
    hide NearestPositive;
    if s.gross * 1_000_000.0 != 0.0 {
      assert 0.0 < s.gross * 1_000_000.0;
    }
  }

  /**
   What the client accepts: a snapshot whose times, signs and floors are in order, whose figures can all be read, and
   whose capital, floors, charge, status and coverage follow from its treasury, obligations and baskets.
   */
  lemma {:induction false} AcceptanceMeans(s: Snapshot, f: Figures)
    requires ReadsAs(s, f)
    ensures IsSnapshot(s) ==>
              && Ordered(s) && FloorsFollow(f) && ChargeFollows(f, s.basketCount) && StatusFollows(s, f)
              && CoverageFollows(s, f)
    ensures Ordered(s) && FloorsFollow(f) && ChargeFollows(f, s.basketCount) && StatusFollows(s, f) ==>
              CoverageRecomputed(s, f) ==> IsSnapshot(s)
  {
    ReadMeans(s, f);
    hide FiguresRecomputed, CoverageRecomputed, FloorsFollow, ChargeFollows, StatusFollows, CoverageFollows, Read,
         ReadsAs;
    if Ordered(s) {
      GrossSign(s, f);
      RecomputedMeans(s, f);
      if CoverageRecomputed(s, f) {
        CoverageMeans(s, f);
      }
    }
  }

  lemma {:induction false} AcceptedIsRead(s: Snapshot)
    requires IsSnapshot(s)
    ensures exists f :: ReadsAs(s, f)
  {
    hide ToMicroUnits, StructureAccepted, FiguresRecomputed, CoverageRecomputed;
    ReadMeans(s, Read(s).value);
  }

  /** Two accepted snapshots that agree on treasury, obligations and baskets agree on every other figure. */
  lemma {:induction false} AcceptedSnapshotsAgree(s: Snapshot, t: Snapshot, f: Figures, g: Figures)
    requires IsSnapshot(s) && IsSnapshot(t) && ReadsAs(s, f) && ReadsAs(t, g)
    requires f.treasury == g.treasury && f.senior == g.senior && f.gross == g.gross
    requires f.basketStake == g.basketStake && f.basketPayout == g.basketPayout && f.basketCharge == g.basketCharge
    ensures f == g && s.status == t.status
  {
    AcceptanceMeans(s, f);
    AcceptanceMeans(t, g);
    hide IsSnapshot, ReadsAs, Ordered, ChargeFollows, CoverageFollows;
  }

  /** Published accounting that the client accepts: on a whole day, in order, and priced by its value and shares. */
  lemma {:induction false} AccountingMeans(a: PublicAccounting)
    ensures IsAccounting(a) <==>
              && (exists day :: a.cutoffAt == day * 86400000) && a.cutoffAt <= a.asOf && a.asOf <= a.processed
              && 0 <= a.bookVersion && 0 <= a.blockNumber && 0 <= a.nav && 0 <= a.shares && 0 <= a.pending
              && 0 <= a.fallback && a.fallback <= a.marked && 0 <= a.coverageBps && a.coverageBps <= 10000
              && a.shareUnits == 1000000000000000000
              && (if a.shares == 0 then a.nav == 0 && a.sharePrice == 1000000
                  else 0 <= a.sharePrice
                       && a.sharePrice * a.shares <= a.nav * 1000000000000000000
                       && a.nav * 1000000000000000000 < a.sharePrice * a.shares + a.shares)
  {
    if 0 < a.shares && 0 <= a.nav {
      var q := a.nav * SHARE_UNITS / a.shares;
      FloorBounds(a.nav * SHARE_UNITS, a.shares);
      if a.sharePrice * a.shares <= a.nav * SHARE_UNITS < a.sharePrice * a.shares + a.shares {
        FloorUnique(a.sharePrice, a.nav * SHARE_UNITS, a.shares);
      }
    }
    if day :| a.cutoffAt == day * 86400000 {
      assert a.cutoffAt % DAY == 0;
    }
    if a.cutoffAt % DAY == 0 {
      assert a.cutoffAt == a.cutoffAt / DAY * 86400000;
    }
  }
}
