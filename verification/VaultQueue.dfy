/** The redemption queue, its reserves and its history, one change at a time. */
module VaultQueue {
  import opened Common
  import opened VaultTables
  import opened VaultInvariant

  // ---------------------------------------------------------------- history

  lemma {:induction false} OneMoreStatusAt(history: seq<Move>, move: Move, r: nat, at: int)
    ensures StatusAt(history + [move], r, at)
         == if move.request == r && move.at <= at then Some(move.target) else StatusAt(history, r, at)
  {
    Snoc(history, move);
  }

  lemma {:induction false} HistoryLater(history: seq<Move>, requests: seq<Request>, t: int, now: int)
    requires HistorySound(history, requests, t) && t <= now
    ensures HistorySound(history, requests, now)
  {
  }

  lemma {:induction false} ChangeInHistory(history: seq<Move>, requests: seq<Request>, after: seq<Request>, move: Move)
    requires HistorySound(history, requests, move.at)
    requires |requests| <= |after| && move.request < |after| && after[move.request].status == move.target
    requires |after| == |requests| || (|after| == |requests| + 1 && move.request == |requests|)
    requires forall i :: 0 <= i < |requests| && i != move.request ==> after[i].status == requests[i].status
    ensures HistorySound(history + [move], after, move.at)
  {
    forall r: nat, at: int | move.at <= at
      ensures StatusAt(history + [move], r, at) == if r < |after| then Some(after[r].status) else None
    {
      OneMoreStatusAt(history, move, r, at);
    }
  }

  /** A move that reserves nothing, or one of a request that ends up redeeming. */
  lemma {:induction false} ReservedSinceKept(history: seq<Move>, requests: seq<Request>, after: seq<Request>,
                                             move: Move, t: int)
    requires ReservedSince(history, requests, t) && |requests| <= |after| && move.request < |after|
    requires forall i :: 0 <= i < |requests| && i != move.request ==> after[i].status == requests[i].status
    requires || after[move.request].status == Redeeming
             || (!Reserved(move.target)
                 && (move.request < |requests| ==> requests[move.request].status != Redeeming))
    ensures ReservedSince(history + [move], after, t)
  {
    forall r: nat, at: int | t <= at && ReservedAt(history + [move], r, at)
      ensures r < |after| && after[r].status == Redeeming
    {
      OneMoreStatusAt(history, move, r, at);
      if r != move.request || at < move.at {
        assert ReservedAt(history, r, at);
      }
    }
  }

  // ---------------------------------------------------------------- reserves

  lemma {:induction false} OneMoreReserve(reserves: seq<Reserve>, reserve: Reserve, r: nat)
    ensures ReserveOf(reserves + [reserve], r)
         == if reserve.request == r then Some(|reserves|) else ReserveOf(reserves, r)
  {
    Snoc(reserves, reserve);
  }

  lemma {:induction false} ReserveFound(reserves: seq<Reserve>, r: nat)
    ensures ReserveOf(reserves, r).None? ==> forall k :: 0 <= k < |reserves| ==> reserves[k].request != r
  {
    if reserves != [] {
      ReserveFound(reserves[..|reserves| - 1], r);
    }
  }

  lemma {:induction false} ReservedIsPositive(reserves: seq<Reserve>, requests: seq<Request>, user: nat)
    requires forall k :: 0 <= k < |reserves| ==> 0 < reserves[k].shares
    ensures 0 <= ReservedShares(reserves, requests, user)
  {
    if reserves != [] {
      ReservedIsPositive(reserves[..|reserves| - 1], requests, user);
    }
  }

  // ---------------------------------------------------------------- the queue

  /** A new request within the unreserved holding, from a user with none open. */
  lemma {:induction false} RequestJoins(requests: seq<Request>, reserves: seq<Reserve>, shareEvents: seq<ShareEvent>,
                                        r: Request)
    requires QueueSound(requests, reserves, shareEvents)
    requires r.status == Queued && 0 < r.shares
    requires r.shares <= Balance(shareEvents, r.user) - ReservedShares(reserves, requests, r.user)
    requires forall i :: 0 <= i < |requests| && requests[i].user == r.user ==> !Unfinished(requests[i].status)
    ensures QueueSound(requests + [r], reserves, shareEvents)
  {
    ReservedIsPositive(reserves, requests, r.user);
    assert ReserveOf(reserves, |requests|).None?;
    forall i | 0 <= i < |requests| + 1
      ensures RequestSound((requests + [r])[i], i, reserves, shareEvents)
    {
      if i < |requests| {
        assert RequestSound(requests[i], i, reserves, shareEvents);
      }
    }
  }

  /** The head of the queue is postponed or admitted; nothing behind it moves. */
  ghost predicate HeadMove(requests: seq<Request>, reserves: seq<Reserve>, r: nat, next: Request, more: seq<Reserve>) {
    && r < |requests| && InQueue(requests[r].status)
    && (forall i :: 0 <= i < r ==> !InQueue(requests[i].status))
    && next.user == requests[r].user && next.shares == requests[r].shares
    && (|| (next.status == WaitingLiquidity && more == reserves)
        || (&& next.status == Redeeming && next.endsAt == next.startsAt + REDEMPTION_WINDOW_MS
            && |more| == |reserves| + 1 && more[..|reserves|] == reserves
            && more[|reserves|].request == r && more[|reserves|].shares == next.shares))
  }

  lemma {:induction false} ReservesAfterMove(requests: seq<Request>, reserves: seq<Reserve>, r: nat, next: Request,
                                             more: seq<Reserve>, i: nat)
    requires HeadMove(requests, reserves, r, next, more)
    ensures ReserveOf(more, i)
         == if i == r && next.status == Redeeming then Some(|reserves|) else ReserveOf(reserves, i)
    ensures forall k :: 0 <= k < |reserves| ==> more[k] == reserves[k]
  {
    if next.status == Redeeming {
      assert more == reserves + [more[|reserves|]];
      OneMoreReserve(reserves, more[|reserves|], i);
    }
  }

  lemma {:induction false} RequestsAfterMove(requests: seq<Request>, reserves: seq<Reserve>,
                                             shareEvents: seq<ShareEvent>,
                                             r: nat, next: Request, more: seq<Reserve>)
    requires HeadMove(requests, reserves, r, next, more) && RequestsSound(requests, reserves, shareEvents)
    ensures RequestsSound(requests[r := next], more, shareEvents)
  {
    var after := requests[r := next];
    forall i | 0 <= i < |requests|
      ensures RequestSound(after[i], i, more, shareEvents)
    {
      hide Balance, ReserveOf;
      assert RequestSound(requests[i], i, reserves, shareEvents);
      ReservesAfterMove(requests, reserves, r, next, more, i);
    }
  }

  lemma {:induction false} ReservesStaySound(requests: seq<Request>, reserves: seq<Reserve>,
                                             shareEvents: seq<ShareEvent>,
                                             r: nat, next: Request, more: seq<Reserve>)
    requires HeadMove(requests, reserves, r, next, more) && RequestsSound(requests, reserves, shareEvents)
    requires ReservesSound(reserves, |requests|)
    ensures ReservesSound(more, |requests|)
  {
    hide Balance;
    assert RequestSound(requests[r], r, reserves, shareEvents);
    ReserveFound(reserves, r);
    ReservesAfterMove(requests, reserves, r, next, more, r);
  }

  lemma {:induction false} HeadMoves(requests: seq<Request>, reserves: seq<Reserve>, shareEvents: seq<ShareEvent>,
                                     r: nat,
                                     next: Request, more: seq<Reserve>)
    requires QueueSound(requests, reserves, shareEvents) && HeadMove(requests, reserves, r, next, more)
    ensures QueueSound(requests[r := next], more, shareEvents)
  {
    hide RequestsSound, ReservesSound;
    RequestsAfterMove(requests, reserves, shareEvents, r, next, more);
    ReservesStaySound(requests, reserves, shareEvents, r, next, more);
  }

  /** A redeeming request is paid and its shares are burned. */
  lemma {:induction false} RequestPaid(requests: seq<Request>, reserves: seq<Reserve>, shareEvents: seq<ShareEvent>,
                                       r: nat,
                    burn: ShareEvent)
    requires QueueSound(requests, reserves, shareEvents) && r < |requests| && requests[r].status == Redeeming
    requires forall user: nat :: user != requests[r].user ==>
      Balance(shareEvents + [burn], user) == Balance(shareEvents, user)
    ensures QueueSound(requests[r := requests[r].(status := Claimable)], reserves, shareEvents + [burn])
  {
    var after := requests[r := requests[r].(status := Claimable)];
    forall i | 0 <= i < |requests|
      ensures RequestSound(after[i], i, reserves, shareEvents + [burn])
    {
      assert RequestSound(requests[i], i, reserves, shareEvents);
    }
  }

  /** A mint only raises balances. */
  lemma {:induction false} QueueAfterMint(requests: seq<Request>, reserves: seq<Reserve>,
                                          shareEvents: seq<ShareEvent>, mint: ShareEvent)
    requires QueueSound(requests, reserves, shareEvents)
    requires forall user: nat :: Balance(shareEvents, user) <= Balance(shareEvents + [mint], user)
    ensures QueueSound(requests, reserves, shareEvents + [mint])
  {
    forall i | 0 <= i < |requests|
      ensures RequestSound(requests[i], i, reserves, shareEvents + [mint])
    {
      assert RequestSound(requests[i], i, reserves, shareEvents);
    }
  }

  // ---------------------------------------------------------------- marks and payables

  /** Marks outlast a change of a request that keeps its shares. */
  lemma {:induction false} MarksKept(marks: seq<ReserveMark>, requests: seq<Request>, after: seq<Request>,
                                     checkpoints: seq<Checkpoint>)
    requires MarksSound(marks, requests, checkpoints) && |requests| <= |after|
    requires forall i :: 0 <= i < |requests| ==> after[i].shares == requests[i].shares
    ensures MarksSound(marks, after, checkpoints)
  {
    forall k | 0 <= k < |marks|
      ensures MarkSound(marks[k], after, checkpoints)
    {
      assert MarkSound(marks[k], requests, checkpoints);
    }
  }

  /** So do payables, while no paid request changes. */
  lemma {:induction false} PayablesKept(payables: seq<Payable>, marks: seq<ReserveMark>, more: seq<ReserveMark>,
                                        requests: seq<Request>,
                     after: seq<Request>)
    requires PayablesSound(payables, marks, requests) && |requests| <= |after|
    requires |marks| <= |more| && more[..|marks|] == marks
    requires forall i :: 0 <= i < |requests| && requests[i].status == Claimable ==> after[i] == requests[i]
    requires forall i :: 0 <= i < |after| && after[i].status == Claimable ==> i < |requests| && after[i] == requests[i]
    ensures PayablesSound(payables, more, after)
  {
    forall k | 0 <= k < |payables|
      ensures PayableSound(payables[k], more, after)
    {
      assert PayableSound(payables[k], marks, requests);
      assert more[payables[k].mark] == more[..|marks|][payables[k].mark];
    }
  }

  lemma {:induction false} NewestPayable(payables: seq<Payable>, p: Payable, r: nat)
    ensures PayableOf(payables + [p], r) == if p.request == r then Some(|payables|) else PayableOf(payables, r)
  {
    Snoc(payables, p);
  }

  lemma {:induction false} OnePayableMore(payables: seq<Payable>, marks: seq<ReserveMark>, requests: seq<Request>,
                                          p: Payable)
    requires PayablesSound(payables, marks, requests)
    requires p.mark < |marks| && marks[p.mark].request == p.request < |requests|
    requires p.shares == requests[p.request].shares && 0 <= p.amount == marks[p.mark].amount
    requires requests[p.request].status != Claimable
    ensures PayablesSound(payables + [p], marks, requests[p.request := requests[p.request].(status := Claimable)])
  {
    var after := requests[p.request := requests[p.request].(status := Claimable)];
    forall k | 0 <= k < |payables|
      ensures PayableSound(payables[k], marks, after) && payables[k].request != p.request
    {
      assert PayableSound(payables[k], marks, requests);
    }
    forall r | 0 <= r < |after| && after[r].status == Claimable
      ensures PayableOf(payables + [p], r).Some?
    {
      NewestPayable(payables, p, r);
    }
  }

  /** A request is unpaid exactly when it is not yet claimable, and is paid once. */
  lemma {:induction false} PaidOnce(payables: seq<Payable>, r: nat)
    requires forall j, k :: 0 <= j < k < |payables| ==> payables[j].request != payables[k].request
    ensures PayablesFor(payables, r) == if PayableOf(payables, r).Some? then 1 else 0
  {
    if payables != [] {
      var init := payables[..|payables| - 1];
      PaidOnce(init, r);
      var before := PayableOf(init, r);
      if before.Some? {
        assert payables[before.value].request == r;
      }
    }
  }
}
