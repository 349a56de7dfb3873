/** The replay as a whole: the log folded on its own, then held against every table. */
module VaultAudit {
  import opened Common
  import opened VaultTables
  import opened VaultReplay
  import VaultConsistency

  datatype Report = Report(events: nat, lastClosed: nat, tail: int, checkpoints: nat, shareEvents: nat, minted: int,
                           burned: int, supply: int, closingSupply: int, nav: int, gross: int, deductions: int)

  // ---------------------------------------------------------------- what is asked of the tables

  /** The event that a row claims exists and is exactly what the row says. */
  predicate Recorded(events: seq<Event>, p: Projection) {
    1 <= p.event <= |events| && Projected(events[p.event - 1]) == p
  }

  function References(rows: seq<Projection>, version: nat): nat {
    if rows == [] then 0
    else References(rows[..|rows| - 1], version) + (if rows[|rows| - 1].event == version then 1 else 0)
  }

  function DirectCount(events: seq<Event>): nat {
    if events == [] then 0
    else DirectCount(events[..|events| - 1]) + (if Direct(KindOf(events[|events| - 1].payload)) then 1 else 0)
  }

  function RowCount(b: Book): nat {
    |RowsOf(b, InceptionKind)| + |b.cycles| + |b.deposits| + |b.requests| + |b.waiting| + |b.reserves| + |b.fees|
    + |b.recognitions| + |b.ticketMarks| + |b.liabilities| + |b.checkpoints| + |b.reserveMarks| + |b.liquidity|
    + |b.closings|
  }

  ghost predicate DirectProjected(b: Book) {
    && (forall k, i :: Direct(k) && 0 <= i < |RowsOf(b, k)| ==>
          Recorded(b.events, RowsOf(b, k)[i]) && KindOf(RowsOf(b, k)[i].payload) == k)
    && (forall i :: 0 <= i < |b.events| && Direct(KindOf(b.events[i].payload)) ==>
          References(RowsOf(b, KindOf(b.events[i].payload)), b.events[i].version) == 1)
    && RowCount(b) == DirectCount(b.events)
  }

  ghost predicate SharesProjected(b: Book, counted: nat) {
    && |b.shareEvents| == counted
    && (forall i :: 0 <= i < |b.shareEvents| ==>
          var p := ShareProjection(b.shareEvents[i], i, b.lots, b.allocations, b.payables);
          p.Some? && Recorded(b.events, p.value))
  }

  ghost predicate HistoryProjected(b: Book) {
    && (forall r: nat :: StatusesOf(b.events, r) != [] <==> r < |b.requests| && TransitionsOf(b.history, r) != [])
    && (forall r: nat :: StatusesOf(b.events, r) != [] ==>
          multiset(TransitionsOf(b.history, r)) == multiset(Transitions(StatusesOf(b.events, r))))
  }

  function ClosedCycles(cycles: seq<Cycle>): nat {
    if cycles == [] then 0
    else ClosedCycles(cycles[..|cycles| - 1]) + (if cycles[|cycles| - 1].status == Closed then 1 else 0)
  }

  predicate CountsProjected(b: Book, s: Replayed) {
    && |b.checkpoints| == s.checkpointCount && |b.shareEvents| == s.shareEvents
    && Minted(b.shareEvents) == s.minted && Burned(b.shareEvents) == s.burned && Supply(b.shareEvents) == s.supply
    && ClosedCycles(b.cycles) == |s.closes| == |b.closings|
  }

  /** A closing row against what the replay made of its event, its checkpoint and its liability. */
  predicate ClosingProjected(b: Book, s: Replayed, i: nat)
    requires i < |b.closings| && i < |s.closes|
  {
    var c, replayed := b.closings[i], s.closes[i];
    && c.checkpoint < |b.checkpoints| && b.checkpoints[c.checkpoint].liability < |b.liabilities|
    && replayed.checkpoint in s.checkpoints
    && var cp, point := b.checkpoints[c.checkpoint], s.checkpoints[replayed.checkpoint];
       && i == replayed.entity && c.event == replayed.version && c.checkpoint == replayed.checkpoint
       && c.nav == replayed.nav && c.supply == replayed.supply && cp.gross == replayed.gross
       && b.liabilities[cp.liability].deductions == point.deductions
       && cp.nav == point.nav && cp.supply == point.supply
       && cp.nav + c.activated - c.matured - c.dust == c.nav
  }

  ghost predicate ClosingsProjected(b: Book, s: Replayed) {
    |s.closes| == |b.closings| && forall i :: 0 <= i < |b.closings| ==> ClosingProjected(b, s, i)
  }

  ghost predicate QuietTail(events: seq<Event>, version: nat) {
    forall i :: version <= i < |events| ==> VaultConsistency.NonValuing(events[i].payload)
  }

  // ---------------------------------------------------------------- the replay

  ghost function Replay(b: Book): Result<Report, Fault> {
    if b.events == [] then Err(EventsMissing)
    else
      match FoldAll(b.vault, b.events)
      case Err(fault) => Err(fault)
      case Ok(s) =>
        if s.closes == [] then Err(CheckpointMissing)
        else
          var last := s.closes[|s.closes| - 1];
          if !QuietTail(b.events, last.version) then Err(ValuingEventAfterClose)
          else if s.supply != last.supply then Err(PostCloseSupplyMismatch)
          else if !ClosingsProjected(b, s) || !CountsProjected(b, s) then Err(ProjectionMismatch)
          else if !SharesProjected(b, s.shareEvents) then Err(ShareProjectionMismatch)
          else if !DirectProjected(b) then Err(DirectProjectionMismatch)
          else if !LifecycleMatched(b.events, |b.requests|, b.reserves, b.payables)
          then Err(LifecycleProjectionMismatch)
          else if !HistoryProjected(b) then Err(HistoryMismatch)
          else
            Ok(Report(|b.events|, last.version, |b.events| - last.version, s.checkpointCount, s.shareEvents, s.minted,
                      s.burned, s.supply, last.supply, last.nav, last.gross, last.deductions))
  }

  // ---------------------------------------------------------------- the log determines its rows

  lemma {:induction false} OfKindSound(vault: nat, events: seq<Event>, k: Kind, i: nat)
    requires FoldAll(vault, events).Ok? && i < |OfKind(events, k)|
    ensures Recorded(events, OfKind(events, k)[i]) && KindOf(OfKind(events, k)[i].payload) == k
  {
    var init := events[..|events| - 1];
    if i < |OfKind(init, k)| {
      OfKindSound(vault, init, k, i);
      assert events[OfKind(init, k)[i].event - 1] == init[OfKind(init, k)[i].event - 1];
    }
  }

  lemma {:induction false} NoReferences(rows: seq<Projection>, version: nat)
    requires forall i :: 0 <= i < |rows| ==> rows[i].event != version
    ensures References(rows, version) == 0
  {
    if rows != [] {
      NoReferences(rows[..|rows| - 1], version);
    }
  }

  lemma {:induction false} OneMoreReference(rows: seq<Projection>, p: Projection, version: nat)
    ensures References(rows + [p], version) == References(rows, version) + (if p.event == version then 1 else 0)
  {
    assert (rows + [p])[..|rows|] == rows;
  }

  lemma {:induction false} OneMoreEvent(events: seq<Event>, k: Kind, version: nat)
    requires events != []
    ensures var init, last := events[..|events| - 1], events[|events| - 1];
            && |OfKind(events, k)| == |OfKind(init, k)| + (if KindOf(last.payload) == k then 1 else 0)
            && References(OfKind(events, k), version) == References(OfKind(init, k), version)
               + (if KindOf(last.payload) == k && last.version == version then 1 else 0)
  {
    var init, last := events[..|events| - 1], events[|events| - 1];
    if KindOf(last.payload) == k {
      OneMoreReference(OfKind(init, k), Projected(last), version);
    } else {
      assert OfKind(events, k) == OfKind(init, k);
    }
  }

  lemma {:induction false} NotYetReferenced(vault: nat, events: seq<Event>, k: Kind, version: nat)
    requires FoldAll(vault, events).Ok? && |events| < version
    ensures References(OfKind(events, k), version) == 0
  {
    hide FoldAll, OfKind;
    var rows := OfKind(events, k);
    forall i | 0 <= i < |rows|
      ensures rows[i].event != version
    {
      OfKindSound(vault, events, k, i);
    }
    NoReferences(rows, version);
  }

  /** Every event is referenced once among the rows of its kind. */
  lemma {:induction false} ReferencedOnce(vault: nat, events: seq<Event>, n: nat)
    requires FoldAll(vault, events).Ok? && n < |events|
    ensures References(OfKind(events, KindOf(events[n].payload)), events[n].version) == 1
  {
    hide OfKind, References, KindOf, Fold;
    var init, last := events[..|events| - 1], events[|events| - 1];
    OneMoreEvent(events, KindOf(events[n].payload), events[n].version);
    if n < |init| {
      ReferencedOnce(vault, init, n);
      VersionAt(vault, init, n);
    } else {
      NotYetReferenced(vault, init, KindOf(last.payload), last.version);
    }
  }

  lemma {:induction false} VersionAt(vault: nat, events: seq<Event>, n: nat)
    requires FoldAll(vault, events).Ok? && n < |events|
    ensures events[n].version == n + 1
  {
    if n < |events| - 1 {
      VersionAt(vault, events[..|events| - 1], n);
    }
  }

  function OfKinds(events: seq<Event>): nat {
    |OfKind(events, InceptionKind)| + |OfKind(events, CycleKind)| + |OfKind(events, DepositKind)|
    + |OfKind(events, RequestKind)| + |OfKind(events, WaitingKind)| + |OfKind(events, ReserveKind)|
    + |OfKind(events, FeeKind)| + |OfKind(events, RecognitionKind)| + |OfKind(events, TicketMarkKind)|
    + |OfKind(events, LiabilityKind)| + |OfKind(events, CheckpointKind)| + |OfKind(events, ReserveMarkKind)|
    + |OfKind(events, LiquidityKind)| + |OfKind(events, ClosingKind)|
  }

  lemma {:induction false} NoEvents()
    ensures forall k :: OfKind([], k) == []
  {
  }

  lemma {:induction false} KindsCount(events: seq<Event>)
    ensures OfKinds(events) == DirectCount(events)
  {
    hide OfKind, References, KindOf;
    if events == [] {
      NoEvents();
    } else {
      KindsCount(events[..|events| - 1]);
      OneMoreEvent(events, InceptionKind, 0);
      OneMoreEvent(events, CycleKind, 0);
      OneMoreEvent(events, DepositKind, 0);
      OneMoreEvent(events, RequestKind, 0);
      OneMoreEvent(events, WaitingKind, 0);
      OneMoreEvent(events, ReserveKind, 0);
      OneMoreEvent(events, FeeKind, 0);
      OneMoreEvent(events, RecognitionKind, 0);
      OneMoreEvent(events, TicketMarkKind, 0);
      OneMoreEvent(events, LiabilityKind, 0);
      OneMoreEvent(events, CheckpointKind, 0);
      OneMoreEvent(events, ReserveMarkKind, 0);
      OneMoreEvent(events, LiquidityKind, 0);
      OneMoreEvent(events, ClosingKind, 0);
    }
  }

  // ---------------------------------------------------------------- what consistency gives the replay

  lemma {:induction false} RowsMatch(b: Book, k: Kind)
    requires DirectMatched(b) && Direct(k)
    ensures OfKind(b.events, k) == RowsOf(b, k)
  {
  }

  lemma {:induction false} RowsCount(b: Book)
    requires DirectMatched(b)
    ensures OfKinds(b.events) == RowCount(b)
  {
    hide DirectMatched, OfKind;
    RowsMatch(b, InceptionKind);
    RowsMatch(b, CycleKind);
    RowsMatch(b, DepositKind);
    RowsMatch(b, RequestKind);
    RowsMatch(b, WaitingKind);
    RowsMatch(b, ReserveKind);
    RowsMatch(b, FeeKind);
    RowsMatch(b, RecognitionKind);
    RowsMatch(b, TicketMarkKind);
    RowsMatch(b, LiabilityKind);
    RowsMatch(b, CheckpointKind);
    RowsMatch(b, ReserveMarkKind);
    RowsMatch(b, LiquidityKind);
    RowsMatch(b, ClosingKind);
  }

  lemma {:induction false} MatchedDirect(b: Book)
    requires FoldAll(b.vault, b.events).Ok? && DirectMatched(b)
    ensures DirectProjected(b)
  {
    hide FoldAll, DirectMatched, OfKind, RowsOf, Recorded, References, RowCount, DirectCount;
    forall k, i | Direct(k) && 0 <= i < |RowsOf(b, k)|
      ensures Recorded(b.events, RowsOf(b, k)[i]) && KindOf(RowsOf(b, k)[i].payload) == k
    {
      RowsMatch(b, k);
      OfKindSound(b.vault, b.events, k, i);
    }
    forall i | 0 <= i < |b.events| && Direct(KindOf(b.events[i].payload))
      ensures References(RowsOf(b, KindOf(b.events[i].payload)), b.events[i].version) == 1
    {
      RowsMatch(b, KindOf(b.events[i].payload));
      ReferencedOnce(b.vault, b.events, i);
    }
    RowsCount(b);
    KindsCount(b.events);
  }

  lemma {:induction false} MatchedShares(b: Book)
    requires FoldAll(b.vault, b.events).Ok?
    requires SharesMatched(b.events, b.shareEvents, b.lots, b.allocations, b.payables)
    ensures SharesProjected(b, |b.shareEvents|)
  {
    hide FoldAll, OfKind, Recorded, ShareProjection;
    forall i | 0 <= i < |b.shareEvents|
      ensures var p := ShareProjection(b.shareEvents[i], i, b.lots, b.allocations, b.payables);
              p.Some? && Recorded(b.events, p.value)
    {
      OfKindSound(b.vault, b.events, ShareKind, i);
      assert ShareProjection(b.shareEvents[i], i, b.lots, b.allocations, b.payables)
          == Some(OfKind(b.events, ShareKind)[i]);
    }
  }

  lemma {:induction false} MatchedHistory(b: Book)
    requires HistoryMatched(b.events, b.history, b.requests)
    ensures HistoryProjected(b)
  {
    hide StatusesOf, TransitionsOf;
    forall r: nat
      ensures StatusesOf(b.events, r) != [] <==> r < |b.requests| && TransitionsOf(b.history, r) != []
      ensures TransitionsOf(b.history, r) == Transitions(StatusesOf(b.events, r))
    {
      assert RequestHistory(b.events, b.history, b.requests, r);
    }
  }
}
