/** The public vault view: the server derives it and sends doubles, the client reads and recomputes them. */
module SolvencyView {
  import opened Common
  import opened Doubles
  import opened MicroUnits
  import opened Solvency

  const DAY: Positive := 86400000
  const SNAPSHOT_MAX_AGE: int := 300000
  const ACCOUNTING_MAX_AGE: int := 93600000
  const SHARE_UNITS: Positive := 1000000000000000000
  const GENESIS_PRICE: int := 1000000
  const SCALE: int := 1000000

  predicate SafeNat(v: int) {
    0 <= v <= MAX_SAFE
  }

  // ---------------------------------------------------------------- what the server starts from

  datatype Gate = GateOpen | GateRestricted | GateBlocked

  /** `scope` stands for chain, currency, treasury and token. */
  datatype Vault = Vault(id: nat, configured: bool, scope: nat)

  datatype Asset = Asset(balance: int, blockNumber: int, blockHash: nat, timestamp: int, scope: Option<nat>,
                         onchain: bool)

  /** A stored reconciliation; `readable` says that every field was present and had its format. */
  datatype Reconciliation = Reconciliation(
    fromWorker: bool, readable: bool, blockNumber: int, blockHash: nat, created: int, treasury: int, custody: int,
    userAvailable: int, userClaimable: int, userCheckout: int, openStake: int, openReserve: int, withdrawals: int,
    houseEquity: int, custodyDelta: int, assets: seq<Asset>, metricTimestamp: int, softStake: int, softPayout: int,
    softCount: int, softCharge: int, launchReady: bool, gate: Gate, scope: Option<nat>)

  datatype Accounting = Accounting(
    vault: nat, bookVersion: int, blockNumber: int, cutoff: int, asOf: int, processed: int, grossAssets: int,
    nav: int, shares: int, pending: int, estimated: int, finalized: int, marked: int, gross: int, fallback: int,
    coverageBps: int)

  // ---------------------------------------------------------------- what the client receives

  /** Dollar figures are doubles. */
  datatype Snapshot = Snapshot(
    asOf: int, processed: int, blockNumber: int, treasury: real, senior: real, gross: real, reservedNet: real,
    hardCapital: real, hardFloor: real, coverageBuffer: real, basketStake: real, basketPayout: real, basketCount: int,
    basketCharge: real, withdrawalFloor: real, aboveWithdrawal: real, coverage: Option<real>, custodyDelta: real,
    status: Status, underwriting: bool, operations: Gate)

  /** The figures in micro-units, as the server has them and as the client reads them. */
  datatype Figures = Figures(treasury: int, senior: int, gross: int, hardCapital: int, hardFloor: int,
                             coverageBuffer: int, basketStake: int, basketPayout: int, basketCharge: int,
                             withdrawalFloor: int, aboveWithdrawal: int)

  datatype PublicAccounting = PublicAccounting(
    asOf: int, processed: int, cutoffAt: int, bookVersion: int, blockNumber: int, nav: int, sharePrice: int,
    shareUnits: int, shares: int, pending: int, estimated: int, finalized: int, marked: int, fallback: int,
    coverageBps: int)

  datatype Reason = VaultUnconfigured | VaultMisconfigured | ReconciliationAbsent | ReconciliationUntrusted
    | ReconciliationMalformed | ReconciliationWrongScope | ReconciliationFuture | ReconciliationStale
    | AccountingAbsent | AccountingMalformed | AccountingStale

  datatype View = Unavailable(reason: Reason) | Available(snapshot: Snapshot, accounting: PublicAccounting)

  // ---------------------------------------------------------------- ratios

  /** A ratio in millionths, rounded to the nearest, halves away from zero. */
  function RatioToSixDecimals(numerator: int, denominator: int): Option<int> {
    if denominator <= 0 then None
    else
      var rounded := (Size(numerator) * SCALE + denominator / 2) / denominator;
      Some(if numerator < 0 then -rounded else rounded)
  }

  lemma {:induction false} NearestRatio(a: nat, d: Positive)
    ensures var q := (a + d / 2) / d; 0 <= q && 0 <= 2 * (q * d - a) + d && 2 * (q * d - a) <= d
  {
    FloorBounds(a + d / 2, d);
    FloorBounds(d, 2);
  }

  lemma {:induction false} NegatedProduct(q: int, d: int)
    ensures -q * d == -(q * d)
  {
  }

  /** The rounded ratio is within half a millionth, and flipping the sign of the numerator flips the ratio. */
  lemma {:induction false} RatioIsNearest(numerator: int, denominator: int)
    requires 0 < denominator
    ensures RatioToSixDecimals(numerator, denominator).Some?
    ensures var r := RatioToSixDecimals(numerator, denominator).value;
            && 2 * (r * denominator - numerator * SCALE) <= denominator
            && 2 * (numerator * SCALE - r * denominator) <= denominator
            && RatioToSixDecimals(-numerator, denominator) == Some(-r)
  {
    var a := Size(numerator) * SCALE;
    NearestRatio(a, denominator);
    NegatedProduct((a + denominator / 2) / denominator, denominator);
  }

  // ---------------------------------------------------------------- the server

  predicate ReadsExactly(r: Reconciliation) {
    && r.readable && |r.assets| == 1
    && SafeNat(r.blockNumber) && SafeNat(r.treasury) && Safe(r.custody) && SafeNat(r.userAvailable)
    && SafeNat(r.userClaimable) && SafeNat(r.userCheckout) && SafeNat(r.openStake) && SafeNat(r.openReserve)
    && SafeNat(r.withdrawals) && Safe(r.houseEquity) && Safe(r.custodyDelta)
    && SafeNat(r.metricTimestamp) && SafeNat(r.softStake) && SafeNat(r.softPayout) && SafeNat(r.softCount)
    && SafeNat(r.softCharge)
    && (var a := r.assets[0];
        && SafeNat(a.balance) && SafeNat(a.blockNumber) && SafeNat(a.timestamp)
        && a.balance == r.treasury && a.blockNumber == r.blockNumber && a.blockHash == r.blockHash
        && a.timestamp == r.metricTimestamp)
  }

  function ObservedMs(r: Reconciliation): int
    requires |r.assets| == 1
  {
    r.assets[0].timestamp * 1000
  }

  function SeniorObligations(r: Reconciliation): int {
    r.userAvailable + r.userClaimable + r.userCheckout + r.withdrawals
  }

  function GrossPayouts(r: Reconciliation): int {
    r.openStake + r.openReserve
  }

  predicate BalancesAgree(r: Reconciliation) {
    && r.houseEquity == r.treasury - SeniorObligations(r) - GrossPayouts(r)
    && r.custodyDelta == r.treasury - r.custody
  }

  function MaxExtra(count: int): int {
    if 0 < count then count - 1 else 0
  }

  predicate ChargeAccepted(r: Reconciliation) {
    var least := AggregateCharge(r.softStake, r.softPayout);
    && (r.softCount == 0 ==> r.softStake == 0 && r.softPayout == 0)
    && least <= r.softCharge <= least + MaxExtra(r.softCount)
  }

  predicate AccountingAccepted(a: Accounting, vault: nat) {
    && a.vault == vault && 0 < a.bookVersion && 0 <= a.blockNumber
    && 0 <= a.grossAssets && 0 <= a.nav && 0 <= a.shares && 0 <= a.pending && 0 <= a.marked
    && 0 <= a.fallback <= a.gross && 0 <= a.coverageBps <= 10000
    && (a.shares == 0 ==> a.nav <= 0)
  }

  function Worse(a: Gate, b: Gate): Gate {
    if a.GateBlocked? || b.GateBlocked? then GateBlocked
    else if a.GateRestricted? || b.GateRestricted? then GateRestricted
    else GateOpen
  }

  function SolvencyInput(r: Reconciliation): Input {
    Input(r.treasury, SeniorObligations(r), GrossPayouts(r), Some(r.softStake), Some(r.softPayout), Some(r.softCharge),
          None, None, None, None)
  }

  /** The figures that the server has. */
  function FiguresOf(r: Reconciliation, e: Evaluation): Figures {
    Figures(r.treasury, SeniorObligations(r), GrossPayouts(r), r.houseEquity, e.hardFloor, e.coverageBuffer,
            r.softStake, r.softPayout, r.softCharge, e.withdrawalFloor, e.aboveWithdrawal)
  }

  function Sent(ratio: Option<int>): Option<real> {
    match ratio
    case None => None
    case Some(v) => Some(Usd(v))
  }

  function SnapshotOf(r: Reconciliation, e: Evaluation, control: Option<Gate>): Snapshot
    requires |r.assets| == 1
  {
    var f := FiguresOf(r, e);
    Snapshot(ObservedMs(r), r.created, r.blockNumber, Usd(f.treasury), Usd(f.senior), Usd(f.gross), Usd(r.openReserve),
             Usd(f.hardCapital), Usd(f.hardFloor), Usd(f.coverageBuffer), Usd(f.basketStake), Usd(f.basketPayout),
             r.softCount, Usd(f.basketCharge), Usd(f.withdrawalFloor), Usd(f.aboveWithdrawal),
             Sent(RatioToSixDecimals(f.treasury - f.senior, f.gross)), Usd(r.custodyDelta), e.status,
             r.launchReady && e.status == Healthy && control.None?,
             Worse(if control.Some? then control.value else GateOpen, r.gate))
  }

  function PublicOf(a: Accounting): PublicAccounting {
    PublicAccounting(a.asOf, a.processed, a.cutoff * DAY, a.bookVersion, a.blockNumber, a.nav,
                     if a.shares == 0 then GENESIS_PRICE else a.nav * SHARE_UNITS / a.shares,
                     SHARE_UNITS, a.shares, a.pending, a.estimated, a.finalized, a.marked, a.fallback, a.coverageBps)
  }

  function DeriveView(vault: Option<Vault>, reconciliation: Option<Reconciliation>, accounting: Option<Accounting>,
                      control: Option<Gate>, now: int): View
  {
    if vault.None? then Unavailable(VaultUnconfigured)
    else if !vault.value.configured then Unavailable(VaultMisconfigured)
    else if reconciliation.None? then Unavailable(ReconciliationAbsent)
    else
      var v, r := vault.value, reconciliation.value;
      if !r.fromWorker then Unavailable(ReconciliationUntrusted)
      else if !ReadsExactly(r) || !Safe(ObservedMs(r)) || r.created < ObservedMs(r) then
        Unavailable(ReconciliationMalformed)
      else if r.scope.None? || r.assets[0].scope.None? || !r.assets[0].onchain then Unavailable(ReconciliationUntrusted)
      else if r.scope.value != v.scope || r.assets[0].scope.value != v.scope then Unavailable(ReconciliationWrongScope)
      else if !BalancesAgree(r) then Unavailable(ReconciliationMalformed)
      else if now < ObservedMs(r) then Unavailable(ReconciliationFuture)
      else if now - ObservedMs(r) > SNAPSHOT_MAX_AGE then Unavailable(ReconciliationStale)
      else DeriveCurrent(v, r, accounting, control, now)
  }

  function DeriveCurrent(v: Vault, r: Reconciliation, accounting: Option<Accounting>, control: Option<Gate>, now: int)
    : View
    requires |r.assets| == 1
  {
    match Evaluate(SolvencyInput(r))
    case Err(_) => Unavailable(ReconciliationMalformed)
    case Ok(e) =>
      if !ChargeAccepted(r) then Unavailable(ReconciliationMalformed)
      else if accounting.None? then Unavailable(AccountingAbsent)
      else
        var a := accounting.value;
        if !AccountingAccepted(a, v.id) || now < a.asOf then Unavailable(AccountingMalformed)
        else if now - a.asOf > ACCOUNTING_MAX_AGE then Unavailable(AccountingStale)
        else Available(SnapshotOf(r, e, control), PublicOf(a))
  }

  // ---------------------------------------------------------------- the client

  /** What the client reads of the figures, if it reads all of them. */
  function Read(s: Snapshot): Option<Figures> {
    var treasury, senior, gross := ToMicroUnits(s.treasury), ToMicroUnits(s.senior), ToMicroUnits(s.gross);
    var capital, floor := ToMicroUnits(s.hardCapital), ToMicroUnits(s.hardFloor);
    var buffer, charge := ToMicroUnits(s.coverageBuffer), ToMicroUnits(s.basketCharge);
    var stake, payout := ToMicroUnits(s.basketStake), ToMicroUnits(s.basketPayout);
    var withdrawal, above := ToMicroUnits(s.withdrawalFloor), ToMicroUnits(s.aboveWithdrawal);
    Together(treasury, senior, gross, capital, floor, buffer, stake, payout, charge, withdrawal, above)
  }

  function Together(treasury: Option<int>, senior: Option<int>, gross: Option<int>, capital: Option<int>,
                    floor: Option<int>, buffer: Option<int>, stake: Option<int>, payout: Option<int>,
                    charge: Option<int>, withdrawal: Option<int>, above: Option<int>): Option<Figures>
  {
    if treasury.None? || senior.None? || gross.None? || capital.None? || floor.None? || buffer.None? || stake.None?
       || payout.None? || charge.None? || withdrawal.None? || above.None?
    then None
    else
      Some(Figures(treasury.value, senior.value, gross.value, capital.value, floor.value, buffer.value, stake.value,
                   payout.value, charge.value, withdrawal.value, above.value))
  }

  /** The client's own recomputation of every figure of a snapshot. */
  predicate IsSnapshot(s: Snapshot) {
    StructureAccepted(s) && Recomputed(s, Read(s))
  }

  predicate Recomputed(s: Snapshot, read: Option<Figures>) {
    read.Some? && FiguresRecomputed(s, read.value) && CoverageRecomputed(s, read.value)
  }

  predicate StructureAccepted(s: Snapshot) {
    && s.asOf <= s.processed && 0 <= s.blockNumber && 0.0 <= s.treasury && 0.0 <= s.senior && 0.0 <= s.gross
    && 0.0 <= s.reservedNet && 0.0 <= s.hardFloor && 0.0 <= s.coverageBuffer && 0.0 <= s.basketStake
    && 0.0 <= s.basketPayout && SafeNat(s.basketCount) && 0.0 <= s.basketCharge && s.hardFloor <= s.withdrawalFloor
    && 0.0 <= s.aboveWithdrawal
  }

  predicate FiguresRecomputed(s: Snapshot, f: Figures) {
    var hard, buffer := f.senior + f.gross, (f.gross + 3) / 4;
    var requirement := (f.basketPayout * 125 + 99) / 100;
    var least := if requirement > f.basketStake then requirement - f.basketStake else 0;
    var floor := hard + buffer + f.basketCharge;
    && f.hardCapital == f.treasury - hard && f.hardFloor == hard && f.coverageBuffer == buffer
    && !(s.basketCount == 0 && (f.basketStake != 0 || f.basketPayout != 0))
    && least <= f.basketCharge <= least + MaxExtra(s.basketCount)
    && f.withdrawalFloor == floor && f.aboveWithdrawal == (if f.treasury > floor then f.treasury - floor else 0)
    && s.status == (if f.treasury < hard then CollateralShortfall
                    else if f.treasury < floor then OperatingBufferBreached else Healthy)
    && (s.status != Healthy ==> !s.underwriting)
  }

  predicate CoverageRecomputed(s: Snapshot, f: Figures) {
    if f.gross == 0 then s.coverage == None
    else
      var rounded := if f.gross < 0 then 0 else (Size(f.treasury - f.senior) * SCALE + f.gross / 2) / f.gross;
      var expected := Usd(if f.treasury < f.senior then -rounded else rounded);
      s.coverage.Some? && Magnitude(Nearest(s.coverage.value - expected)) <= Nearest(0.000_001)
  }

  predicate IsAccounting(a: PublicAccounting) {
    && a.asOf <= a.processed && 0 <= a.bookVersion && 0 <= a.blockNumber && 0 <= a.nav && 0 <= a.sharePrice
    && a.shareUnits == SHARE_UNITS && 0 <= a.shares && 0 <= a.pending && 0 <= a.marked && 0 <= a.fallback
    && 0 <= a.coverageBps <= 10000 && a.cutoffAt % DAY == 0 && a.cutoffAt <= a.asOf
    && a.sharePrice == (if a.shares == 0 then GENESIS_PRICE else a.nav * SHARE_UNITS / a.shares)
    && (a.shares == 0 ==> a.nav == 0)
    && a.fallback <= a.marked
  }

  // ---------------------------------------------------------------- the client accepts what the server derives

  /** A quarter rounded up, as either side computes it. */
  lemma {:induction false} QuarterRoundedUp(gross: int)
    ensures Ceil(gross * 25, 100) == (gross + 3) / 4
  {
    CeilMeans(gross * 25, 100, (gross + 3) / 4);
    CeilMeans(gross, 4, Ceil(gross * 25, 100));
  }

  /** What a reconciliation asks to be kept back: every obligation, a quarter of the open payouts, the charge. */
  function KeptBack(r: Reconciliation): int {
    SeniorObligations(r) + GrossPayouts(r) + Ceil(GrossPayouts(r) * 25, 100) + r.softCharge
  }

  /** The figures to be sent, read off the reconciliation. */
  function FiguresDue(r: Reconciliation): Figures {
    var senior, gross := SeniorObligations(r), GrossPayouts(r);
    Figures(r.treasury, senior, gross, r.treasury - senior - gross, senior + gross, Ceil(gross * 25, 100), r.softStake,
            r.softPayout, r.softCharge, KeptBack(r), if KeptBack(r) < r.treasury then r.treasury - KeptBack(r) else 0)
  }

  function Amounts(f: Figures): seq<int> {
    [f.treasury, f.senior, f.gross, f.hardCapital, f.hardFloor, f.coverageBuffer, f.basketStake, f.basketPayout,
     f.basketCharge, f.withdrawalFloor, f.aboveWithdrawal]
  }

  /** What the client reads of the figures once they are sent, in whole micro-units. */
  function ReadFigures(f: Figures): Option<Figures> {
    Together(ReadAs(f.treasury), ReadAs(f.senior), ReadAs(f.gross), ReadAs(f.hardCapital), ReadAs(f.hardFloor),
             ReadAs(f.coverageBuffer), ReadAs(f.basketStake), ReadAs(f.basketPayout), ReadAs(f.basketCharge),
             ReadAs(f.withdrawalFloor), ReadAs(f.aboveWithdrawal))
  }

  /** Every figure is read as what it was. */
  predicate AllSurvive(f: Figures) {
    forall i :: 0 <= i < |Amounts(f)| ==> Survives(Amounts(f)[i])
  }

  /** Some figure is not read at all. */
  predicate SomeRefused(f: Figures) {
    exists i :: 0 <= i < |Amounts(f)| && Refused(Amounts(f)[i])
  }

  /** From `2^52` micro-units on, a safe amount that does not survive is read as its neighbour, or not at all. */
  predicate Refused(v: int) {
    !Survives(v) && (Size(v) < INT_52 || !Safe(v))
  }

  lemma {:induction false} FiguresAgree(r: Reconciliation, e: Evaluation, control: Option<Gate>)
    requires ReadsExactly(r) && BalancesAgree(r) && ChargeAccepted(r) && Evaluate(SolvencyInput(r)) == Ok(e)
    ensures FiguresOf(r, e) == FiguresDue(r) && FiguresRecomputed(SnapshotOf(r, e, control), FiguresOf(r, e))
    ensures 0 <= e.hardFloor <= e.withdrawalFloor && 0 <= e.coverageBuffer <= e.withdrawalFloor
    ensures 0 <= e.aboveWithdrawal <= r.treasury
  {
    hide Usd;
    QuarterRoundedUp(GrossPayouts(r));
    StatusMeans(SolvencyInput(r), e);
  }

  lemma {:induction false} NoDifference(x: real)
    ensures Magnitude(Nearest(x - x)) <= Nearest(0.000_001)
  {
    hide NearestPositive;
  }

  lemma {:induction false} CoverageAgrees(r: Reconciliation, e: Evaluation, control: Option<Gate>)
    requires ReadsExactly(r)
    ensures CoverageRecomputed(SnapshotOf(r, e, control), FiguresOf(r, e))
  {
    hide Usd, Nearest, Magnitude;
    var f := FiguresOf(r, e);
    if 0 < f.gross {
      NoDifference(Usd(RatioToSixDecimals(f.treasury - f.senior, f.gross).value));
    }
  }

  lemma {:induction false} UsdMono(v: int, w: int)
    requires 0 <= v <= w
    ensures 0.0 <= Usd(v) <= Usd(w)
  {
    hide Nearest;
    NearestMono(v as real, w as real);
    NearestMono(Nearest(v as real) / 1_000_000.0, Nearest(w as real) / 1_000_000.0);
  }

  lemma {:induction false} StructureAgrees(r: Reconciliation, e: Evaluation, control: Option<Gate>)
    requires ReadsExactly(r) && BalancesAgree(r) && ChargeAccepted(r) && Evaluate(SolvencyInput(r)) == Ok(e)
    requires ObservedMs(r) <= r.created
    ensures StructureAccepted(SnapshotOf(r, e, control))
  {
    FiguresAgree(r, e, control);
    hide Usd, FiguresRecomputed, Evaluate, ChargeAccepted, BalancesAgree;
    var f := FiguresOf(r, e);
    UsdMono(0, f.treasury);
    UsdMono(0, f.senior);
    UsdMono(0, f.gross);
    UsdMono(0, r.openReserve);
    UsdMono(0, f.coverageBuffer);
    UsdMono(0, f.basketStake);
    UsdMono(0, f.basketPayout);
    UsdMono(0, f.basketCharge);
    UsdMono(f.hardFloor, f.withdrawalFloor);
    UsdMono(0, f.aboveWithdrawal);
  }

  lemma {:induction false} ReadsFigures(r: Reconciliation, e: Evaluation, control: Option<Gate>)
    requires |r.assets| == 1
    ensures Read(SnapshotOf(r, e, control)) == ReadFigures(FiguresOf(r, e))
  {
    hide Usd, ToMicroUnits, ReadAs, Together;
    var f := FiguresOf(r, e);
    ReadsBack(f.treasury);
    ReadsBack(f.senior);
    ReadsBack(f.gross);
    ReadsBack(f.hardCapital);
    ReadsBack(f.hardFloor);
    ReadsBack(f.coverageBuffer);
    ReadsBack(f.basketStake);
    ReadsBack(f.basketPayout);
    ReadsBack(f.basketCharge);
    ReadsBack(f.withdrawalFloor);
    ReadsBack(f.aboveWithdrawal);
  }

  /** Figures that survive are read as they were, and one that is refused leaves nothing to read. */
  lemma {:induction false} SurvivingFigures(f: Figures)
    ensures AllSurvive(f) ==> ReadFigures(f) == Some(f)
    ensures SomeRefused(f) ==> ReadFigures(f) == None
  {
    hide Survives;
    var amounts := Amounts(f);
    assert amounts[0] == f.treasury && amounts[1] == f.senior && amounts[2] == f.gross && amounts[3] == f.hardCapital;
    assert amounts[4] == f.hardFloor && amounts[5] == f.coverageBuffer && amounts[6] == f.basketStake;
    assert amounts[7] == f.basketPayout && amounts[8] == f.basketCharge && amounts[9] == f.withdrawalFloor;
    assert amounts[10] == f.aboveWithdrawal;
  }

  /**
   The client accepts a derived snapshot exactly when the figures of its reconciliation, each read as `ReadAs` says,
   recompute: it does when every figure survives being sent, and does not when some figure is not read at all.
   */
  lemma {:induction false} SnapshotAccepted(r: Reconciliation, e: Evaluation, control: Option<Gate>)
    requires ReadsExactly(r) && BalancesAgree(r) && ChargeAccepted(r) && Evaluate(SolvencyInput(r)) == Ok(e)
    requires ObservedMs(r) <= r.created
    ensures var s := SnapshotOf(r, e, control);
            && (IsSnapshot(s) <==> Recomputed(s, ReadFigures(FiguresDue(r))))
            && (AllSurvive(FiguresDue(r)) ==> IsSnapshot(s))
            && (SomeRefused(FiguresDue(r)) ==> !IsSnapshot(s))
  {
    FiguresAgree(r, e, control);
    CoverageAgrees(r, e, control);
    StructureAgrees(r, e, control);
    ReadsFigures(r, e, control);
    SurvivingFigures(FiguresDue(r));
    hide FiguresRecomputed, CoverageRecomputed, StructureAccepted, Read, AllSurvive, SomeRefused, FiguresOf, FiguresDue,
         SnapshotOf, ReadsExactly, Evaluate, ReadFigures;
  }

  /** No sum of the reconciliation reaches a given bound. */
  predicate Below(r: Reconciliation, bound: int) {
    r.treasury < bound && KeptBack(r) < bound && r.softStake < bound && r.softPayout < bound
  }

  lemma {:induction false} FiguresBelow(r: Reconciliation, bound: int)
    requires ReadsExactly(r) && Below(r, bound)
    ensures forall i :: 0 <= i < |Amounts(FiguresDue(r))| ==> Size(Amounts(FiguresDue(r))[i]) < bound
  {
    QuarterRoundedUp(GrossPayouts(r));
  }

  /** Below `2^33` micro-units everything survives, and below `2^52` what does not survive is not read at all. */
  lemma {:induction false} BelowSurvives(r: Reconciliation)
    requires ReadsExactly(r)
    ensures Below(r, TWO_33) ==> AllSurvive(FiguresDue(r))
    ensures Below(r, INT_52) ==> AllSurvive(FiguresDue(r)) || SomeRefused(FiguresDue(r))
  {
    hide ReadsExactly, KeptBack, FiguresDue;
    if Below(r, INT_52) {
      FiguresBelow(r, INT_52);
    }
    if Below(r, TWO_33) {
      FiguresBelow(r, TWO_33);
    }
  }

  /** The order of times and figures that a close gives its accounting, which the server does not check again. */
  predicate WellOrdered(a: Accounting) {
    a.cutoff * DAY <= a.asOf <= a.processed && a.fallback <= a.marked
  }

  lemma {:induction false} AccountingRecomputed(a: Accounting, vault: nat)
    requires AccountingAccepted(a, vault)
    ensures IsAccounting(PublicOf(a)) <==> WellOrdered(a)
  {
    if a.shares != 0 {
      MulMono(0, a.nav, SHARE_UNITS);
      FloorBounds(a.nav * SHARE_UNITS, a.shares);
    }
  }

  /** How the client's answer to a derived snapshot is decided by the reconciliation. */
  ghost predicate PassesBy(s: Snapshot, r: Reconciliation) {
    && (IsSnapshot(s) <==> Recomputed(s, ReadFigures(FiguresDue(r))))
    && (AllSurvive(FiguresDue(r)) ==> IsSnapshot(s))
    && (SomeRefused(FiguresDue(r)) ==> !IsSnapshot(s))
    && (Below(r, INT_52) ==> (IsSnapshot(s) <==> AllSurvive(FiguresDue(r))))
    && (Below(r, TWO_33) ==> IsSnapshot(s))
  }

  /**
   An available view passes the client's recomputation exactly when the figures of the reconciliation recompute as they
   are read, as all that survive being sent do, and the accounting has the order that a close gives it.
   */
  lemma {:induction false} AvailableViewPasses(vault: Option<Vault>, reconciliation: Option<Reconciliation>,
                                               accounting: Option<Accounting>, control: Option<Gate>, now: int)
    requires DeriveView(vault, reconciliation, accounting, control, now).Available?
    ensures var view := DeriveView(vault, reconciliation, accounting, control, now);
            && reconciliation.Some? && PassesBy(view.snapshot, reconciliation.value)
            && accounting.Some? && (IsAccounting(view.accounting) <==> WellOrdered(accounting.value))
  {
    hide ReadsExactly, IsSnapshot, IsAccounting, ChargeAccepted, AccountingAccepted, BalancesAgree, Evaluate,
         WellOrdered, Safe, AllSurvive, SomeRefused, FiguresDue, Below, SnapshotOf;
    var r := reconciliation.value;
    SingleAsset(r);
    var e := Evaluate(SolvencyInput(r)).value;
    SnapshotAccepted(r, e, control);
    BelowSurvives(r);
    AccountingRecomputed(accounting.value, vault.value.id);
  }

  lemma {:induction false} SingleAsset(r: Reconciliation)
    requires ReadsExactly(r)
    ensures |r.assets| == 1
  {
  }

  // ---------------------------------------------------------------- views that are refused

  /** A reconciliation with two obligations, beside a treasury. */
  function Plain(treasury: int, available: int, claimable: int): Reconciliation {
    Reconciliation(true, true, 1, 1, 1000, treasury, treasury, available, claimable, 0, 0, 0, 0,
                   treasury - available - claimable, 0, [Asset(treasury, 1, 1, 1, Some(0), true)], 1, 0, 0, 0, 0, true,
                   GateOpen, Some(0))
  }

  lemma {:induction false} PlainFigures(treasury: int, available: int, claimable: int)
    requires SafeNat(treasury) && SafeNat(available) && SafeNat(claimable)
    requires Safe(treasury - available - claimable)
    ensures var r, senior := Plain(treasury, available, claimable), available + claimable;
            && ReadsExactly(r) && BalancesAgree(r) && ChargeAccepted(r) && |r.assets| == 1
            && ObservedMs(r) == r.created == 1000 && Evaluate(SolvencyInput(r)).Ok?
            && FiguresDue(r) == Figures(treasury, senior, 0, treasury - senior, senior, 0, 0, 0, 0, senior,
                                        if senior < treasury then treasury - senior else 0)
  {
    CeilMeans(0, 100, 0);
    assert FirstNegative(SolvencyInput(Plain(treasury, available, claimable))) == None;
  }

  /** The view of such a reconciliation, with any plausible accounting. */
  lemma {:induction false} PlainView(treasury: int, available: int, claimable: int, accounting: Accounting)
    requires SafeNat(treasury) && SafeNat(available) && SafeNat(claimable)
    requires Safe(treasury - available - claimable) && AccountingAccepted(accounting, 0) && accounting.asOf == 1000
    ensures var r := Plain(treasury, available, claimable);
            var view := DeriveView(Some(Vault(0, true, 0)), Some(r), Some(accounting), None, 1000);
            && view.Available? && PassesBy(view.snapshot, r) && |r.assets| == 1
            && Evaluate(SolvencyInput(r)).Ok? && view.snapshot == SnapshotOf(r, Evaluate(SolvencyInput(r)).value, None)
  {
    hide ReadsExactly, BalancesAgree, ChargeAccepted, Evaluate, SolvencyInput, AccountingAccepted, PassesBy, SnapshotOf,
         FiguresDue;
    PlainFigures(treasury, available, claimable);
    AvailableViewPasses(Some(Vault(0, true, 0)), Some(Plain(treasury, available, claimable)), Some(accounting), None,
                        1000);
  }

  lemma {:induction false} TreasuryStatus(amount: int)
    requires SafeNat(amount)
    ensures Evaluate(SolvencyInput(Plain(amount, 0, 0))).Ok?
    ensures Evaluate(SolvencyInput(Plain(amount, 0, 0))).value.status == Healthy
  {
    hide Usd;
    var r := Plain(amount, 0, 0);
    PlainFigures(amount, 0, 0);
    hide Evaluate, FiguresDue;
    StatusMeans(SolvencyInput(r), Evaluate(SolvencyInput(r)).value);
    FiguresAgree(r, Evaluate(SolvencyInput(r)).value, None);
  }

  /** What the client makes of a treasury without obligations, if its amount is read as `read`. */
  lemma {:induction false} TreasuryRecomputed(s: Snapshot, read: int)
    requires s.status == Healthy && s.coverage == None && s.basketCount == 0 && 0 <= read
    ensures Recomputed(s, Some(Figures(read, 0, 0, read, 0, 0, 0, 0, 0, 0, read)))
  {
    hide Usd, Nearest, Magnitude;
  }

  lemma {:induction false} OneAmountRead(amount: int)
    requires SafeNat(amount)
    ensures ReadFigures(Figures(amount, 0, 0, amount, 0, 0, 0, 0, 0, 0, if 0 < amount then amount else 0))
         == if ReadAs(amount).None? then None
            else var read := ReadAs(amount).value;
                 Some(Figures(read, 0, 0, read, 0, 0, 0, 0, 0, 0, read))
    ensures ReadAs(amount).Some? ==> 0 <= ReadAs(amount).value && (0 < amount <==> 0 < ReadAs(amount).value)
    ensures amount < INT_52 ==> (ReadAs(amount).Some? <==> Survives(amount))
  {
    hide Shifted, Cancels;
    assert ReadAs(0) == Some(0);
  }

  /**
   A treasury without obligations: its view is served as available, and the client accepts it exactly when it reads the
   amount, be it as its neighbour. Below `2^52` micro-units this means that the amount survives being sent, and
   seventeen thousand dollars can be too much.
   */
  lemma {:induction false} TreasuryView(amount: int, accounting: Accounting)
    requires SafeNat(amount) && AccountingAccepted(accounting, 0) && accounting.asOf == 1000
    ensures var view := DeriveView(Some(Vault(0, true, 0)), Some(Plain(amount, 0, 0)), Some(accounting), None, 1000);
            && view.Available? && (IsSnapshot(view.snapshot) <==> ReadAs(amount).Some?)
            && (amount < INT_52 ==> (IsSnapshot(view.snapshot) <==> Survives(amount)))
            && (amount == 17_009_283_511 ==> !IsSnapshot(view.snapshot))
  {
    PlainFigures(amount, 0, 0);
    PlainView(amount, 0, 0, accounting);
    OrdinaryAmountsRefused();
    OneAmountRead(amount);
    hide Survives, IsSnapshot, DeriveView, FiguresDue, Evaluate, ReadsExactly, ChargeAccepted, BalancesAgree, ReadAs,
         ReadFigures, SnapshotOf, SolvencyInput;
    TreasuryStatus(amount);
    if ReadAs(amount).Some? {
      var e := Evaluate(SolvencyInput(Plain(amount, 0, 0))).value;
      TreasurySent(amount, e);
      TreasuryRecomputed(SnapshotOf(Plain(amount, 0, 0), e, None), ReadAs(amount).value);
    }
  }

  lemma {:induction false} TreasurySent(amount: int, e: Evaluation)
    ensures |Plain(amount, 0, 0).assets| == 1
    ensures var s := SnapshotOf(Plain(amount, 0, 0), e, None);
            s.status == e.status && s.coverage == None && s.basketCount == 0
  {
    hide Usd;
  }

  /** Two obligations that do not add up to a safe integer: the view is served as available and refused. */
  lemma {:induction false} IndebtedView(amount: int, accounting: Accounting)
    requires 0 <= amount <= MAX_SAFE < 2 * amount && AccountingAccepted(accounting, 0) && accounting.asOf == 1000
    ensures var view := DeriveView(Some(Vault(0, true, 0)), Some(Plain(amount, amount, amount)), Some(accounting), None,
                                   1000);
            view.Available? && !IsSnapshot(view.snapshot)
  {
    hide Survives, IsSnapshot, DeriveView, FiguresDue, Evaluate, ReadsExactly, ChargeAccepted, BalancesAgree, Plain,
         Below, AllSurvive, SomeRefused, AccountingAccepted, ObservedMs, SolvencyInput;
    PlainFigures(amount, amount, amount);
    PlainView(amount, amount, amount, accounting);
    SumRefused(FiguresDue(Plain(amount, amount, amount)));
  }

  lemma {:induction false} SumRefused(f: Figures)
    requires MAX_SAFE < f.senior
    ensures SomeRefused(f)
  {
    hide Shifted;
    assert Amounts(f)[1] == f.senior && Refused(Amounts(f)[1]);
  }

  /** The charges that the server adds up over quoted baskets are always accepted. */
  lemma {:induction false} OwnChargesAccepted(r: Reconciliation, baskets: seq<Basket>)
    requires r.softCount == |baskets| && r.softStake == Stakes(baskets) && r.softPayout == Payouts(baskets)
    requires r.softCharge == Charges(baskets) && OffersCoverStakes(baskets)
    ensures ChargeAccepted(r)
  {
    ChargesNearAggregate(baskets);
  }
}
