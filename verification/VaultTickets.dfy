/** Which tickets a close accrues, recognizes and marks, and the rows that it writes for them. */
module VaultTickets {
  import opened VaultTables
  import opened VaultSteps

  // ---------------------------------------------------------------- which tickets

  /** A fee that was earned since the inception and up to the snapshot, and not accrued before. */
  ghost predicate FeeIsDue(t: Ticket, fees: seq<FeeAccrual>, from: int, through: int) {
    && 0 < t.fee && from <= t.created && t.created <= through
    && forall k :: 0 <= k < |fees| ==> fees[k].ticket != t.id
  }

  /** A settlement after the inception and up to the snapshot, and not recognized before. */
  ghost predicate SettlementIsDue(t: Ticket, recognitions: seq<Recognition>, from: int, through: int) {
    && t.settlement.Some? && from < t.settlement.value.at && t.settlement.value.at <= through
    && forall k :: 0 <= k < |recognitions| ==> recognitions[k].ticket != t.id
  }

  /** A ticket that had been sold and not been settled by a given time. */
  predicate StillOpen(t: Ticket, at: int) {
    t.created <= at && (t.settlement.None? || at < t.settlement.value.at)
  }

  /** What stands at the places, in order, is all that has the property. */
  ghost predicate StandsAt(picked: seq<Ticket>, tickets: seq<Ticket>, p: Ticket -> bool, places: seq<nat>) {
    && |places| == |picked| && (forall i, j :: 0 <= i < j < |places| ==> places[i] < places[j])
    && (forall i :: 0 <= i < |places| ==> places[i] < |tickets| && picked[i] == tickets[places[i]])
    && (forall k: nat :: k < |tickets| ==> (p(tickets[k]) <==> k in places))
  }

  /** The tickets that have a property, each in its place. */
  ghost predicate Picks(picked: seq<Ticket>, tickets: seq<Ticket>, p: Ticket -> bool) {
    exists places :: StandsAt(picked, tickets, p, places)
  }

  lemma {:induction false} NothingPicked(p: Ticket -> bool)
    ensures Picks([], [], p)
  {
    assert StandsAt([], [], p, []);
  }

  lemma {:induction false} OneMoreStands(picked: seq<Ticket>, init: seq<Ticket>, t: Ticket, p: Ticket -> bool,
                                         places: seq<nat>)
    requires StandsAt(picked, init, p, places) && p(t)
    ensures StandsAt(picked + [t], init + [t], p, places + [|init|])
  {
    var all, tickets := places + [|init|], init + [t];
    forall k: nat | k < |tickets|
      ensures p(tickets[k]) <==> k in all
    {
      if k < |init| {
        assert tickets[k] == init[k] && (k in all <==> k in places);
      } else {
        assert all[|places|] == k;
      }
    }
  }

  lemma {:induction false} PickedSoFar(picked: seq<Ticket>, init: seq<Ticket>, t: Ticket, more: seq<Ticket>,
                                       p: Ticket -> bool)
    requires Picks(picked, init, p) && more == if p(t) then [t] else []
    ensures Picks(picked + more, init + [t], p)
  {
    var places :| StandsAt(picked, init, p, places);
    if p(t) {
      OneMoreStands(picked, init, t, p, places);
    } else {
      assert picked + more == picked;
      assert |init| !in places;
      assert StandsAt(picked, init + [t], p, places);
    }
  }

  /** The accrued fees are those that are due, in the order of the tickets. */
  lemma {:induction false} FeesPicked(fees: seq<FeeAccrual>, tickets: seq<Ticket>, from: int, through: int)
    ensures Picks(FeesDue(fees, tickets, from, through), tickets, t => FeeIsDue(t, fees, from, through))
  {
    if tickets == [] {
      NothingPicked(t => FeeIsDue(t, fees, from, through));
    } else {
      var init, t := tickets[..|tickets| - 1], tickets[|tickets| - 1];
      FeesPicked(fees, init, from, through);
      assert tickets == init + [t];
      assert FeeIsDue(t, fees, from, through)
        <==> 0 < t.fee && from <= t.created <= through && !Accrued(fees, t.id);
      hide Picks, FeeIsDue;
      PickedSoFar(FeesDue(fees, init, from, through), init, t,
                  if 0 < t.fee && from <= t.created <= through && !Accrued(fees, t.id) then [t] else [],
                  t => FeeIsDue(t, fees, from, through));
    }
  }

  /** The recognized settlements are those that are due, in the order of the tickets. */
  lemma {:induction false} SettlementsPicked(recognitions: seq<Recognition>, tickets: seq<Ticket>, from: int,
                                             through: int)
    ensures Picks(SettlementsDue(recognitions, tickets, from, through), tickets,
                  t => SettlementIsDue(t, recognitions, from, through))
  {
    if tickets == [] {
      NothingPicked(t => SettlementIsDue(t, recognitions, from, through));
    } else {
      var init, t := tickets[..|tickets| - 1], tickets[|tickets| - 1];
      SettlementsPicked(recognitions, init, from, through);
      assert tickets == init + [t];
      assert SettlementIsDue(t, recognitions, from, through)
        <==> t.settlement.Some? && from < t.settlement.value.at <= through && !Recognized(recognitions, t.id);
      hide Picks, SettlementIsDue;
      PickedSoFar(SettlementsDue(recognitions, init, from, through), init, t,
                  if t.settlement.Some? && from < t.settlement.value.at <= through && !Recognized(recognitions, t.id)
                  then [t] else [],
                  t => SettlementIsDue(t, recognitions, from, through));
    }
  }

  /** The marked tickets are those still open, in their order. */
  lemma {:induction false} OpenPicked(tickets: seq<Ticket>, at: int)
    ensures Picks(OpenTickets(tickets, at), tickets, t => StillOpen(t, at))
  {
    if tickets == [] {
      NothingPicked(t => StillOpen(t, at));
    } else {
      var init, t := tickets[..|tickets| - 1], tickets[|tickets| - 1];
      OpenPicked(init, at);
      assert tickets == init + [t];
      hide Picks;
      PickedSoFar(OpenTickets(init, at), init, t,
                  if t.created <= at && (t.settlement.None? || at < t.settlement.value.at) then [t] else [],
                  t => StillOpen(t, at));
    }
  }

  // ---------------------------------------------------------------- which rows

  /** One row more for every ticket, recorded in consecutive events. */
  ghost predicate FeeRows(before: seq<FeeAccrual>, after: seq<FeeAccrual>, due: seq<Ticket>, event: nat) {
    && |after| == |before| + |due| && before <= after
    && forall k :: 0 <= k < |due| ==>
         after[|before| + k] == FeeAccrual(due[k].id, due[k].reserve, due[k].fee, due[k].created, event + k)
  }

  /** A settled ticket brings its stake and costs its payout. */
  ghost predicate RecognitionRows(before: seq<Recognition>, after: seq<Recognition>, cycle: nat, due: seq<Ticket>,
                                  event: nat) {
    && |after| == |before| + |due| && before <= after
    && forall k :: 0 <= k < |due| ==>
         && due[k].settlement.Some?
         && var s := due[k].settlement.value;
            after[|before| + k]
            == Recognition(cycle, due[k].id, s.summary, due[k].stake, s.payout, due[k].stake - s.payout, event + k)
  }

  /** An open ticket is marked at its full payout. */
  ghost predicate MarkRows(before: seq<TicketMark>, after: seq<TicketMark>, cycle: nat, open: seq<Ticket>, event: nat) {
    && |after| == |before| + |open| && before <= after
    && forall k :: 0 <= k < |open| ==>
         after[|before| + k]
         == TicketMark(cycle, open[k].id, open[k].stake, open[k].payout, open[k].payout, event + k)
  }

  lemma {:induction false} FeesWritten(b: Book, due: seq<Ticket>)
    ensures var after := AccrueFees(b, due);
            && after == b.(events := after.events, fees := after.fees) && |after.events| == |b.events| + |due|
            && FeeRows(b.fees, after.fees, due, |b.events| + 1)
  {
    if due != [] {
      FeesWritten(b, due[..|due| - 1]);
    }
  }

  lemma {:induction false} RecognitionsWritten(b: Book, cycle: nat, due: seq<Ticket>)
    requires Settled(due)
    ensures var after := RecognizeSettlements(b, cycle, due);
            && after == b.(events := after.events, recognitions := after.recognitions)
            && |after.events| == |b.events| + |due|
            && RecognitionRows(b.recognitions, after.recognitions, cycle, due, |b.events| + 1)
  {
    if due != [] {
      RecognitionsWritten(b, cycle, due[..|due| - 1]);
    }
  }

  lemma {:induction false} MarksWritten(b: Book, cycle: nat, open: seq<Ticket>, marks: seq<MarkWrite>, at: int)
    requires MarkTickets(b, cycle, open, marks, at).Ok?
    ensures var after := MarkTickets(b, cycle, open, marks, at).value;
            && after == b.(events := after.events, ticketMarks := after.ticketMarks)
            && |after.events| == |b.events| + |open|
            && MarkRows(b.ticketMarks, after.ticketMarks, cycle, open, |b.events| + 1)
  {
    if open != [] {
      MarksWritten(b, cycle, open[..|open| - 1], marks, at);
    }
  }

  // ---------------------------------------------------------------- sums over rows

  /** What a figure adds up to over all rows. */
  ghost function Sum<T(!new)>(rows: seq<T>, figure: T -> int): int {
    if rows == [] then 0 else Sum(rows[..|rows| - 1], figure) + figure(rows[|rows| - 1])
  }

  lemma {:induction false} SumsOfTickets(open: seq<Ticket>)
    ensures GrossPayout(open) == Sum(open, (t: Ticket) => t.payout as int)
    ensures OpenStake(open) == Sum(open, (t: Ticket) => t.stake as int)
  {
    if open != [] {
      SumsOfTickets(open[..|open| - 1]);
    }
  }
}
