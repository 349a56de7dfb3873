/** What an accepted replay says of the tables beside the log, of whatever book. */
module VaultBinding {
  import opened Common
  import opened VaultTables
  import opened VaultReplay
  import opened VaultAudit
  import opened VaultReplayed
  import VaultLinks

  // ---------------------------------------------------------------- one log, one set of rows

  /** The number of a row is the entity of its event; the inception's is the vault. */
  lemma {:induction false} EntityOfRow(b: Book, k: Kind, i: nat)
    requires i < |RowsOf(b, k)| && k != InceptionKind
    ensures RowsOf(b, k)[i].entity == i
  {
    match k
    case CycleKind => VaultLinks.RowAt(b.cycles, i, OfCycle);
    case DepositKind => VaultLinks.RowAt(b.deposits, i, OfDeposit);
    case RequestKind => VaultLinks.RowAt(b.requests, i, OfRequest);
    case WaitingKind => VaultLinks.RowAt(b.waiting, i, OfWaiting);
    case ReserveKind => VaultLinks.RowAt(b.reserves, i, OfReserve);
    case FeeKind => VaultLinks.RowAt(b.fees, i, OfFee);
    case RecognitionKind => VaultLinks.RowAt(b.recognitions, i, OfRecognition);
    case TicketMarkKind => VaultLinks.RowAt(b.ticketMarks, i, OfTicketMark);
    case LiabilityKind => VaultLinks.RowAt(b.liabilities, i, OfLiability);
    case CheckpointKind => VaultLinks.RowAt(b.checkpoints, i, OfCheckpoint);
    case ReserveMarkKind => VaultLinks.RowAt(b.reserveMarks, i, OfReserveMark);
    case LiquidityKind => VaultLinks.RowAt(b.liquidity, i, OfLiquidity);
    case ClosingKind => VaultLinks.RowAt(b.closings, i, OfClosing);
    case _ =>
  }

  lemma {:induction false} SomeReference(rows: seq<Projection>, version: nat) returns (j: nat)
    requires References(rows, version) != 0
    ensures j < |rows| && rows[j].event == version
  {
    var n := |rows| - 1;
    if rows[n].event == version {
      j := n;
    } else {
      j := SomeReference(rows[..n], version);
    }
  }

  lemma {:induction false} ProjectedRow(b: Book, k: Kind, i: nat)
    requires DirectProjected(b) && Direct(k) && i < |RowsOf(b, k)|
    ensures Recorded(b.events, RowsOf(b, k)[i]) && KindOf(RowsOf(b, k)[i].payload) == k
  {
    hide RowsOf, Recorded, KindOf, References, RowCount, DirectCount;
  }

  lemma {:induction false} ReferencedEvent(b: Book, i: nat)
    requires DirectProjected(b) && i < |b.events| && Direct(KindOf(b.events[i].payload))
    ensures References(RowsOf(b, KindOf(b.events[i].payload)), b.events[i].version) == 1
  {
    hide RowsOf, Recorded, KindOf, References, RowCount, DirectCount;
  }

  /** A row of one book is the row of the other with the same number. */
  lemma {:induction false} SameRow(a: Book, b: Book, k: Kind, i: nat)
    requires DirectProjected(a) && DirectProjected(b) && a.events == b.events && a.vault == b.vault
    requires Direct(k) && i < |RowsOf(a, k)|
    ensures i < |RowsOf(b, k)| && RowsOf(b, k)[i] == RowsOf(a, k)[i]
  {
    hide DirectProjected, RowsOf, KindOf;
    var p := RowsOf(a, k)[i];
    ProjectedRow(a, k, i);
    ReferencedEvent(b, p.event - 1);
    var j := SomeReference(RowsOf(b, k), p.event);
    ProjectedRow(b, k, j);
    assert RowsOf(b, k)[j] == p;
    if k == InceptionKind {
      InceptionRow(a);
      InceptionRow(b);
    } else {
      EntityOfRow(a, k, i);
      EntityOfRow(b, k, j);
    }
  }

  lemma {:induction false} InceptionRow(b: Book)
    ensures |RowsOf(b, InceptionKind)| <= 1
  {
  }

  lemma {:induction false} SameRows(a: Book, b: Book, k: Kind)
    requires DirectProjected(a) && DirectProjected(b) && a.events == b.events && a.vault == b.vault && Direct(k)
    ensures RowsOf(a, k) == RowsOf(b, k)
  {
    hide DirectProjected, RowsOf;
    var s, t := RowsOf(a, k), RowsOf(b, k);
    if |s| < |t| {
      SameRow(b, a, k, |s|);
    }
    if |t| < |s| {
      SameRow(a, b, k, |t|);
    }
    forall i | 0 <= i < |s|
      ensures s[i] == t[i]
    {
      SameRow(a, b, k, i);
    }
  }

  /** What the parts of an accepted replay are. */
  lemma {:induction false} AcceptedParts(b: Book)
    requires Replay(b).Ok?
    ensures FoldAll(b.vault, b.events).Ok?
    ensures var s := FoldAll(b.vault, b.events).value;
            && s.closes != [] && ClosingsProjected(b, s) && CountsProjected(b, s) && SharesProjected(b, s.shareEvents)
            && DirectProjected(b) && HistoryProjected(b)
            && LifecycleMatched(b.events, |b.requests|, b.reserves, b.payables)
            && (forall i :: s.closes[|s.closes| - 1].version <= i < |b.events| ==>
                  var p := b.events[i].payload;
                  p.DepositPending? || p.RedemptionRequested? || p.RedemptionWaiting? || p.RedemptionAdmitted?
                  || p.RedemptionRedeeming?)
  {
    hide FoldAll, ClosingsProjected, CountsProjected, SharesProjected, DirectProjected, LifecycleMatched,
         HistoryProjected;
  }

  lemma {:induction false} AllRows(a: Book, b: Book)
    requires DirectProjected(a) && DirectProjected(b) && a.events == b.events && a.vault == b.vault
    ensures forall k :: Direct(k) ==> RowsOf(a, k) == RowsOf(b, k)
  {
    hide DirectProjected, RowsOf;
    forall k | Direct(k)
      ensures RowsOf(a, k) == RowsOf(b, k)
    {
      SameRows(a, b, k);
    }
  }

  lemma {:induction false} SameTransitions(a: Book, b: Book, r: nat)
    requires HistoryProjected(a) && HistoryProjected(b) && a.events == b.events && r < |a.requests| == |b.requests|
    ensures multiset(TransitionsOf(a.history, r)) == multiset(TransitionsOf(b.history, r))
  {
    hide TransitionsOf, StatusesOf;
  }

  lemma {:induction false} AsManyRequests(a: Book, b: Book)
    requires RowsOf(a, RequestKind) == RowsOf(b, RequestKind)
    ensures |a.requests| == |b.requests|
  {
    assert |RowsOf(a, RequestKind)| == |a.requests| && |RowsOf(b, RequestKind)| == |b.requests|;
  }

  /**
   The last hash binds the tables: two books that the replay accepts and whose logs end in the same hash have the same
   row under every number of every table that the log records row by row, and as many transitions of every kind in the
   history of each request.
   */
  lemma {:induction false} LastHashBindsTheTables(a: Book, b: Book)
    requires Replay(a).Ok? && Replay(b).Ok? && a.vault == b.vault && LastDigest(a.events) == LastDigest(b.events)
    ensures forall k :: Direct(k) ==> RowsOf(a, k) == RowsOf(b, k)
    ensures |a.requests| == |b.requests|
    ensures forall r: nat :: r < |a.requests| ==>
              multiset(TransitionsOf(a.history, r)) == multiset(TransitionsOf(b.history, r))
  {
    ReplayBindsTheLog(a, b);
    AcceptedParts(a);
    AcceptedParts(b);
    hide *;
    AllRows(a, b);
    assert Direct(RequestKind);
    AsManyRequests(a, b);
    forall r: nat | r < |a.requests|
      ensures multiset(TransitionsOf(a.history, r)) == multiset(TransitionsOf(b.history, r))
    {
      SameTransitions(a, b, r);
    }
  }

  // ---------------------------------------------------------------- what is reported

  /**
   Whatever book the replay accepts, it reports the counts, the shares and the last closing figures of the tables, and
   every closing state continues its checkpoint, whose value is its assets less its liability's deductions.
   */
  lemma {:induction false} AcceptedReports(b: Book)
    requires Replay(b).Ok?
    ensures b.closings != [] && b.closings[|b.closings| - 1].checkpoint < |b.checkpoints|
    ensures Replay(b).value == ReportOf(b)
    ensures forall i :: 0 <= i < |b.closings| ==>
              var q := b.closings[i];
              && q.checkpoint < |b.checkpoints|
              && q.nav == b.checkpoints[q.checkpoint].nav + q.activated - q.matured - q.dust
  {
    AcceptedParts(b);
    var s := FoldAll(b.vault, b.events).value;
    ClosesDeduct(b.vault, b.events);
    ReportFields(b, s);
    ClosingsContinue(b, s);
    hide *;
    LastReported(b, s);
  }

  lemma {:induction false} ClosingsContinue(b: Book, s: Replayed)
    requires ClosingsProjected(b, s)
    ensures forall i :: 0 <= i < |b.closings| ==>
              var q := b.closings[i];
              && q.checkpoint < |b.checkpoints|
              && q.nav == b.checkpoints[q.checkpoint].nav + q.activated - q.matured - q.dust
  {
    forall i | 0 <= i < |b.closings|
      ensures b.closings[i].checkpoint < |b.checkpoints|
      ensures var q := b.closings[i];
              q.nav == b.checkpoints[q.checkpoint].nav + q.activated - q.matured - q.dust
    {
      assert ClosingProjected(b, s, i);
    }
  }

  lemma {:induction false} LastReported(b: Book, s: Replayed)
    requires ClosingsProjected(b, s) && CountsProjected(b, s) && s.closes != []
    requires s.closes[|s.closes| - 1].deductions == s.closes[|s.closes| - 1].gross - s.closes[|s.closes| - 1].nav
    requires Replay(b).Ok?
             && var last := s.closes[|s.closes| - 1];
                Replay(b).value == Report(|b.events|, last.version, |b.events| - last.version, s.checkpointCount,
                                          s.shareEvents, s.minted, s.burned, s.supply, last.supply, last.nav,
                                          last.gross, last.deductions)
    ensures b.closings != [] && b.closings[|b.closings| - 1].checkpoint < |b.checkpoints|
    ensures Replay(b).value == ReportOf(b)
  {
    hide Replay, Minted, Burned, Supply, ClosedCycles;
    assert ClosingProjected(b, s, |b.closings| - 1);
  }

  lemma {:induction false} ClosesDeduct(vault: nat, events: seq<Event>)
    requires FoldAll(vault, events).Ok?
    ensures var closes := FoldAll(vault, events).value.closes;
            forall i :: 0 <= i < |closes| ==> closes[i].deductions == closes[i].gross - closes[i].nav
  {
    if events != [] {
      ClosesDeduct(vault, events[..|events| - 1]);
    }
  }

  lemma {:induction false} ReportFields(b: Book, s: Replayed)
    requires FoldAll(b.vault, b.events) == Ok(s) && Replay(b).Ok? && s.closes != []
    ensures var last := s.closes[|s.closes| - 1];
            && s.supply == last.supply
            && Replay(b).value
               == Report(|b.events|, last.version, |b.events| - last.version, s.checkpointCount, s.shareEvents,
                         s.minted, s.burned, s.supply, last.supply, last.nav, last.gross, last.deductions)
  {
    hide FoldAll, SharesProjected, DirectProjected, LifecycleMatched, HistoryProjected, CountsProjected,
         ClosingsProjected, QuietTail;
  }
}
