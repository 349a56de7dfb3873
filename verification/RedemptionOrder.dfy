/** Neither the order of redemption requests nor splitting one owner's request changes what a batch pays. */
module RedemptionOrder {
  import opened Common
  import opened OwnerClaims
  import opened ShareRedemption

  /** Requests that can be grouped: positive figures, and one holding per owner. */
  ghost predicate Groupable(requests: seq<RedemptionRequest>) {
    && (forall i :: 0 <= i < |requests| ==> 0 < requests[i].shares && 0 < requests[i].available)
    && (forall i, j :: 0 <= i < |requests| && 0 <= j < |requests| && requests[i].owner == requests[j].owner ==>
          requests[i].available == requests[j].available)
  }

  ghost predicate HoldingsOf(requests: seq<RedemptionRequest>, m: map<nat, Holding>) {
    && (forall i :: 0 <= i < |requests| ==>
          requests[i].owner in m && m[requests[i].owner].available == requests[i].available)
    && (forall o :: o in m ==> exists i :: 0 <= i < |requests| && requests[i].owner == o)
  }

  lemma {:induction false} AddedHoldings(init: seq<RedemptionRequest>, r: RedemptionRequest, m: map<nat, Holding>)
    requires HoldingsOf(init, m) && AddRedemption(m, r).Ok?
    ensures HoldingsOf(init + [r], AddRedemption(m, r).value)
  {
    var all, after := init + [r], AddRedemption(m, r).value;
    assert all[|init|] == r;
    forall o | o in after
      ensures exists i :: 0 <= i < |all| && all[i].owner == o
    {
      if o in m {
        var i :| 0 <= i < |init| && init[i].owner == o;
        assert all[i].owner == o;
      }
    }
  }

  lemma {:induction false} GroupablePrefix(init: seq<RedemptionRequest>, r: RedemptionRequest)
    requires Groupable(init + [r])
    ensures Groupable(init) && 0 < r.shares && 0 < r.available
    ensures forall i :: 0 <= i < |init| && init[i].owner == r.owner ==> init[i].available == r.available
  {
    var all := init + [r];
    assert all[|init|] == r;
    assert forall i :: 0 <= i < |init| ==> all[i] == init[i];
  }

  lemma {:induction false} GroupableMore(init: seq<RedemptionRequest>, r: RedemptionRequest)
    requires Groupable(init) && 0 < r.shares && 0 < r.available
    requires forall i :: 0 <= i < |init| && init[i].owner == r.owner ==> init[i].available == r.available
    ensures Groupable(init + [r])
  {
  }

  /** Grouping succeeds exactly for groupable requests, and keeps each owner's one holding. */
  lemma {:induction false} GroupsWhen(requests: seq<RedemptionRequest>)
    ensures GroupRedemptions(requests).Ok? <==> Groupable(requests)
    ensures GroupRedemptions(requests).Ok? ==> HoldingsOf(requests, GroupRedemptions(requests).value)
  {
    if requests != [] {
      var init, r := requests[..|requests| - 1], requests[|requests| - 1];
      assert requests == init + [r];
      GroupsWhen(init);
      if Groupable(requests) {
        GroupablePrefix(init, r);
        var m := GroupRedemptions(init).value;
        AddedHoldings(init, r, m);
      }
      if GroupRedemptions(requests).Ok? {
        AddedHoldings(init, r, GroupRedemptions(init).value);
        GroupableMore(init, r);
      }
    }
  }

  /** Requests of the same owners, with the same totals and holdings, are one group. */
  lemma {:induction false} SameGroup(a: seq<RedemptionRequest>, b: seq<RedemptionRequest>)
    requires Groupable(a) && Groupable(b)
    requires forall o: nat :: SumFor(ShareEntries(a), o) == SumFor(ShareEntries(b), o)
    requires forall i, j :: 0 <= i < |a| && 0 <= j < |b| && a[i].owner == b[j].owner ==>
                              a[i].available == b[j].available
    ensures GroupRedemptions(a) == GroupRedemptions(b)
  {
    GroupsWhen(a);
    GroupsWhen(b);
    GroupMeaning(a);
    GroupMeaning(b);
    SameTotals(ShareEntries(a), ShareEntries(b));
    SameHoldings(a, b, GroupRedemptions(a).value, GroupRedemptions(b).value);
  }

  lemma {:induction false} SameHoldings(a: seq<RedemptionRequest>, b: seq<RedemptionRequest>, m: map<nat, Holding>,
                                        n: map<nat, Holding>)
    requires HoldingsOf(a, m) && HoldingsOf(b, n) && Weights(m) == Weights(n)
    requires forall i, j :: 0 <= i < |a| && 0 <= j < |b| && a[i].owner == b[j].owner ==>
                              a[i].available == b[j].available
    ensures m == n
  {
    assert m.Keys == Weights(m).Keys == Weights(n).Keys == n.Keys;
    forall o | o in m
      ensures m[o] == n[o]
    {
      var i :| 0 <= i < |a| && a[i].owner == o;
      var j :| 0 <= j < |b| && b[j].owner == o;
      assert Weights(m)[o] == Weights(n)[o];
    }
  }

  /** A group decides the batch, whatever its requests were. */
  lemma {:induction false} GroupDecides(nav: int, supply: int, a: seq<RedemptionRequest>, b: seq<RedemptionRequest>)
    requires (a == []) == (b == []) && GroupRedemptions(a) == GroupRedemptions(b)
    ensures FinalizeRedemptions(nav, supply, a) == FinalizeRedemptions(nav, supply, b)
  {
  }

  lemma {:induction false} OnlyGroupable(nav: int, supply: int, requests: seq<RedemptionRequest>)
    requires FinalizeRedemptions(nav, supply, requests).Ok?
    ensures Groupable(requests)
  {
    GroupsWhen(requests);
  }

  // ---------------------------------------------------------------- the order of the requests

  lemma {:induction false} EntriesOf(requests: seq<RedemptionRequest>, e: Entry)
    ensures multiset(ShareEntries(requests))[e] == CountOf(requests, e)
  {
    if requests == [] {
      assert ShareEntries(requests) == [];
    } else {
      var init, r := requests[..|requests| - 1], requests[|requests| - 1];
      EntriesOf(init, e);
      assert ShareEntries(requests) == ShareEntries(init) + [Entry(r.owner, r.shares)];
    }
  }

  function CountOf(requests: seq<RedemptionRequest>, e: Entry): nat {
    if requests == [] then 0
    else
      var last := requests[|requests| - 1];
      CountOf(requests[..|requests| - 1], e) + (if Entry(last.owner, last.shares) == e then 1 else 0)
  }

  lemma {:induction false} CountWithout(requests: seq<RedemptionRequest>, k: nat, e: Entry)
    requires k < |requests|
    ensures CountOf(requests, e) == CountOf(Without(requests, k), e)
                                    + (if Entry(requests[k].owner, requests[k].shares) == e then 1 else 0)
  {
    var n := |requests| - 1;
    if k == n {
      assert Without(requests, k) == requests[..n];
    } else {
      var rest := Without(requests, k);
      CountWithout(requests[..n], k, e);
      assert rest[..|rest| - 1] == Without(requests[..n], k) && rest[|rest| - 1] == requests[n];
    }
  }

  lemma {:induction false} PermutedCount(a: seq<RedemptionRequest>, b: seq<RedemptionRequest>, e: Entry)
    requires multiset(a) == multiset(b)
    ensures CountOf(a, e) == CountOf(b, e)
  {
    if a == [] {
      assert |multiset(b)| == 0;
    } else {
      var n := |a| - 1;
      assert a[n] in multiset(b);
      var k :| 0 <= k < |b| && b[k] == a[n];
      SameWithout(a, b, n, k);
      assert Without(a, n) == a[..n];
      PermutedCount(a[..n], Without(b, k), e);
      CountWithout(b, k, e);
    }
  }

  lemma {:induction false} PermutedEntries(a: seq<RedemptionRequest>, b: seq<RedemptionRequest>)
    requires multiset(a) == multiset(b)
    ensures multiset(ShareEntries(a)) == multiset(ShareEntries(b))
  {
    forall e: Entry
      ensures multiset(ShareEntries(a))[e] == multiset(ShareEntries(b))[e]
    {
      EntriesOf(a, e);
      EntriesOf(b, e);
      PermutedCount(a, b, e);
    }
  }

  lemma {:induction false} PermutedGroupable(a: seq<RedemptionRequest>, b: seq<RedemptionRequest>)
    requires multiset(a) == multiset(b) && Groupable(a)
    ensures Groupable(b)
    ensures forall i, j :: 0 <= i < |a| && 0 <= j < |b| && a[i].owner == b[j].owner ==> a[i].available == b[j].available
  {
    forall j | 0 <= j < |b|
      ensures exists i :: 0 <= i < |a| && a[i] == b[j]
    {
      assert b[j] in multiset(a);
    }
  }

  /** Permuted requests are accepted alike and paid alike; grouped ones even meet the same fault. */
  lemma {:induction false} RedemptionIgnoresOrder(nav: int, supply: int, a: seq<RedemptionRequest>,
                                                  b: seq<RedemptionRequest>)
    requires multiset(a) == multiset(b)
    ensures FinalizeRedemptions(nav, supply, a).Ok? <==> FinalizeRedemptions(nav, supply, b).Ok?
    ensures FinalizeRedemptions(nav, supply, a).Ok? || Groupable(a) ==>
              FinalizeRedemptions(nav, supply, a) == FinalizeRedemptions(nav, supply, b)
  {
    hide Groupable, FinalizeRedemptions;
    if Groupable(a) {
      PermutedPays(nav, supply, a, b);
    } else {
      if FinalizeRedemptions(nav, supply, a).Ok? {
        OnlyGroupable(nav, supply, a);
      }
      if FinalizeRedemptions(nav, supply, b).Ok? {
        OnlyGroupable(nav, supply, b);
        PermutedGroupable(b, a);
      }
    }
  }

  lemma {:induction false} PermutedPays(nav: int, supply: int, a: seq<RedemptionRequest>, b: seq<RedemptionRequest>)
    requires multiset(a) == multiset(b) && Groupable(a)
    ensures FinalizeRedemptions(nav, supply, a) == FinalizeRedemptions(nav, supply, b)
  {
    hide FinalizeRedemptions;
    assert |multiset(a)| == |a| && |multiset(b)| == |b|;
    PermutedGroupable(a, b);
    PermutedEntries(a, b);
    forall o: nat
      ensures SumFor(ShareEntries(a), o) == SumFor(ShareEntries(b), o)
    {
      PermutedSumFor(ShareEntries(a), ShareEntries(b), o);
    }
    SameGroup(a, b);
    GroupDecides(nav, supply, a, b);
  }

  // ---------------------------------------------------------------- splitting one request

  lemma {:induction false} EntriesConcat(a: seq<RedemptionRequest>, b: seq<RedemptionRequest>)
    ensures ShareEntries(a + b) == ShareEntries(a) + ShareEntries(b)
  {
  }

  lemma {:induction false} SplitSums(before: seq<RedemptionRequest>, mid: seq<RedemptionRequest>,
                                     after: seq<RedemptionRequest>, o: nat)
    ensures SumFor(ShareEntries(before + mid + after), o)
         == SumFor(ShareEntries(before), o) + SumFor(ShareEntries(mid), o) + SumFor(ShareEntries(after), o)
  {
    EntriesConcat(before + mid, after);
    EntriesConcat(before, mid);
    SumForConcat(ShareEntries(before) + ShareEntries(mid), ShareEntries(after), o);
    SumForConcat(ShareEntries(before), ShareEntries(mid), o);
  }

  lemma {:induction false} TwoAsOne(owner: nat, x: Positive, y: Positive, available: int, o: nat)
    ensures SumFor(ShareEntries([RedemptionRequest(owner, x, available), RedemptionRequest(owner, y, available)]), o)
         == SumFor(ShareEntries([RedemptionRequest(owner, x + y, available)]), o)
  {
    var two := [Entry(owner, x), Entry(owner, y)];
    assert ShareEntries([RedemptionRequest(owner, x, available), RedemptionRequest(owner, y, available)]) == two;
    assert ShareEntries([RedemptionRequest(owner, x + y, available)]) == [Entry(owner, x + y)];
    assert two[..1] == [Entry(owner, x)];
    assert [Entry(owner, x)][..0] == [] && [Entry(owner, x + y)][..0] == [];
    assert SumFor([Entry(owner, x)], o) == if owner == o then x else 0;
  }

  /** Who asks, and with what holding. */
  function Holders(requests: seq<RedemptionRequest>): set<(nat, int)> {
    set i | 0 <= i < |requests| :: (requests[i].owner, requests[i].available)
  }

  ghost predicate PositiveShares(requests: seq<RedemptionRequest>) {
    forall i :: 0 <= i < |requests| ==> 0 < requests[i].shares
  }

  ghost predicate OneHoldingEach(holders: set<(nat, int)>) {
    && (forall h :: h in holders ==> 0 < h.1)
    && (forall g, h :: g in holders && h in holders && g.0 == h.0 ==> g.1 == h.1)
  }

  lemma {:induction false} GroupableByHolders(requests: seq<RedemptionRequest>)
    ensures Groupable(requests) <==> PositiveShares(requests) && OneHoldingEach(Holders(requests))
  {
    var holders := Holders(requests);
    assert forall i :: 0 <= i < |requests| ==> (requests[i].owner, requests[i].available) in holders;
  }

  lemma {:induction false} SameHolders(a: seq<RedemptionRequest>, b: seq<RedemptionRequest>)
    requires Holders(a) == Holders(b) && OneHoldingEach(Holders(a))
    ensures forall i, j :: 0 <= i < |a| && 0 <= j < |b| && a[i].owner == b[j].owner ==> a[i].available == b[j].available
  {
    assert forall i :: 0 <= i < |a| ==> (a[i].owner, a[i].available) in Holders(a);
    assert forall j :: 0 <= j < |b| ==> (b[j].owner, b[j].available) in Holders(b);
  }

  lemma {:induction false} HoldersConcat(a: seq<RedemptionRequest>, b: seq<RedemptionRequest>)
    ensures Holders(a + b) == Holders(a) + Holders(b)
    ensures PositiveShares(a + b) <==> PositiveShares(a) && PositiveShares(b)
  {
    var all := a + b;
    assert forall i :: 0 <= i < |a| ==> all[i] == a[i];
    assert forall j :: 0 <= j < |b| ==> all[|a| + j] == b[j];
  }

  lemma {:induction false} HoldersOfTwo(owner: nat, x: Positive, y: Positive, available: int)
    ensures var pair := [RedemptionRequest(owner, x, available), RedemptionRequest(owner, y, available)];
            var single := [RedemptionRequest(owner, x + y, available)];
            Holders(pair) == Holders(single) && PositiveShares(pair) && PositiveShares(single)
  {
    var pair := [RedemptionRequest(owner, x, available), RedemptionRequest(owner, y, available)];
    var single := [RedemptionRequest(owner, x + y, available)];
    assert pair[0].owner == single[0].owner;
    assert Holders(pair) == {(owner, available)};
    assert Holders(single) == {(owner, available)};
  }

  lemma {:induction false} SplitGroupable(before: seq<RedemptionRequest>, pair: seq<RedemptionRequest>,
                                          single: seq<RedemptionRequest>, after: seq<RedemptionRequest>)
    requires Holders(pair) == Holders(single) && PositiveShares(pair) && PositiveShares(single)
    ensures var two, one := before + pair + after, before + single + after;
            && (Groupable(two) <==> Groupable(one))
            && (Groupable(two) ==>
                  forall i, j :: 0 <= i < |two| && 0 <= j < |one| && two[i].owner == one[j].owner ==>
                    two[i].available == one[j].available)
  {
    var two, one := before + pair + after, before + single + after;
    hide Groupable, Holders, PositiveShares, OneHoldingEach;
    HoldersConcat(before + pair, after);
    HoldersConcat(before, pair);
    HoldersConcat(before + single, after);
    HoldersConcat(before, single);
    GroupableByHolders(two);
    GroupableByHolders(one);
    if Groupable(two) {
      SameHolders(two, one);
    }
  }

  /** One owner's request made in two parts is accepted and paid as one request. */
  lemma {:induction false} RedemptionIgnoresEntrySplit(nav: int, supply: int, before: seq<RedemptionRequest>,
                                                       owner: nat, x: Positive, y: Positive, available: int,
                                                       after: seq<RedemptionRequest>)
    ensures var two := before + [RedemptionRequest(owner, x, available), RedemptionRequest(owner, y, available)]
                       + after;
            var one := before + [RedemptionRequest(owner, x + y, available)] + after;
            && (FinalizeRedemptions(nav, supply, two).Ok? <==> FinalizeRedemptions(nav, supply, one).Ok?)
            && (FinalizeRedemptions(nav, supply, two).Ok? || Groupable(two) ==>
                  FinalizeRedemptions(nav, supply, two) == FinalizeRedemptions(nav, supply, one))
  {
    var pair := [RedemptionRequest(owner, x, available), RedemptionRequest(owner, y, available)];
    var single := [RedemptionRequest(owner, x + y, available)];
    var two, one := before + pair + after, before + single + after;
    hide FinalizeRedemptions, Groupable, Holders, PositiveShares;
    HoldersOfTwo(owner, x, y, available);
    SplitGroupable(before, pair, single, after);
    if Groupable(two) {
      forall o: nat
        ensures SumFor(ShareEntries(two), o) == SumFor(ShareEntries(one), o)
      {
        SplitSums(before, pair, after, o);
        SplitSums(before, single, after, o);
        TwoAsOne(owner, x, y, available, o);
      }
      SameGroup(two, one);
      GroupDecides(nav, supply, two, one);
    } else {
      if FinalizeRedemptions(nav, supply, two).Ok? {
        OnlyGroupable(nav, supply, two);
      }
      if FinalizeRedemptions(nav, supply, one).Ok? {
        OnlyGroupable(nav, supply, one);
      }
    }
  }
}
