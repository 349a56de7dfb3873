/** Dividing one owner's mint over that owner's deposits by largest remainder. */
module DepositSplit {
  import opened Common

  datatype Fault = InvalidAllocation | ConservationFailure

  datatype Part = Part(id: nat, amount: int)

  datatype Piece = Piece(id: nat, shares: nat, remainder: nat)

  function Total(parts: seq<Part>): int {
    if parts == [] then 0 else parts[0].amount + Total(parts[1..])
  }

  predicate Splittable(minted: int, parts: seq<Part>) {
    0 < minted && parts != [] && forall i :: 0 <= i < |parts| ==> 0 < parts[i].amount
  }

  predicate DistinctIds(parts: seq<Part>) {
    forall i, j :: 0 <= i < j < |parts| ==> parts[i].id != parts[j].id
  }

  function PieceOf(minted: nat, total: Positive, part: Part): Piece
    requires 0 < part.amount
  {
    Piece(part.id, minted * part.amount / total, minted * part.amount % total)
  }

  function Pieces(minted: nat, total: Positive, parts: seq<Part>): seq<Piece>
    requires forall i :: 0 <= i < |parts| ==> 0 < parts[i].amount
  {
    if parts == [] then [] else [PieceOf(minted, total, parts[0])] + Pieces(minted, total, parts[1..])
  }

  // ---------------------------------------------------------------- remainder order

  predicate Before(a: Piece, b: Piece) {
    b.remainder < a.remainder || (a.remainder == b.remainder && a.id <= b.id)
  }

  function Insert(p: Piece, s: seq<Piece>): seq<Piece> {
    if s == [] || Before(p, s[0]) then [p] + s else [s[0]] + Insert(p, s[1..])
  }

  function Sort(s: seq<Piece>): seq<Piece> {
    if s == [] then [] else Insert(s[0], Sort(s[1..]))
  }

  ghost predicate Sorted(s: seq<Piece>) {
    forall i, j :: 0 <= i < j < |s| ==> Before(s[i], s[j])
  }

  lemma {:induction false} InsertMembers(p: Piece, s: seq<Piece>)
    ensures multiset(Insert(p, s)) == multiset{p} + multiset(s)
  {
    if s != [] && !Before(p, s[0]) {
      InsertMembers(p, s[1..]);
      assert s == [s[0]] + s[1..];
    }
  }

  lemma {:induction false} InsertSums(p: Piece, s: seq<Piece>)
    ensures SumShares(Insert(p, s)) == p.shares + SumShares(s)
    ensures SumRemainders(Insert(p, s)) == p.remainder + SumRemainders(s)
  {
    if s != [] && !Before(p, s[0]) {
      InsertSums(p, s[1..]);
    }
  }

  lemma {:induction false} InsertSorted(p: Piece, s: seq<Piece>)
    requires Sorted(s)
    ensures Sorted(Insert(p, s))
  {
    if s != [] && !Before(p, s[0]) {
      var tail := Insert(p, s[1..]);
      InsertSorted(p, s[1..]);
      InsertMembers(p, s[1..]);
      forall j | 0 <= j < |tail|
        ensures Before(s[0], tail[j])
      {
        assert tail[j] in multiset(tail);
        assert tail[j] == p || tail[j] in multiset(s[1..]);
      }
    }
  }

  lemma {:induction false} SortKeeps(s: seq<Piece>)
    ensures multiset(Sort(s)) == multiset(s) && |Sort(s)| == |s|
    ensures SumShares(Sort(s)) == SumShares(s) && SumRemainders(Sort(s)) == SumRemainders(s)
    ensures Sorted(Sort(s))
  {
    if s != [] {
      SortKeeps(s[1..]);
      InsertMembers(s[0], Sort(s[1..]));
      InsertSums(s[0], Sort(s[1..]));
      InsertSorted(s[0], Sort(s[1..]));
      assert s == [s[0]] + s[1..];
    }
    assert |multiset(Sort(s))| == |Sort(s)| && |multiset(s)| == |s|;
  }

  // ---------------------------------------------------------------- conservation

  function SumShares(s: seq<Piece>): nat {
    if s == [] then 0 else s[0].shares + SumShares(s[1..])
  }

  function SumRemainders(s: seq<Piece>): nat {
    if s == [] then 0 else s[0].remainder + SumRemainders(s[1..])
  }

  lemma {:induction false} PiecesConserve(minted: nat, total: Positive, parts: seq<Part>)
    requires forall i :: 0 <= i < |parts| ==> 0 < parts[i].amount
    ensures var s := Pieces(minted, total, parts);
            && |s| == |parts|
            && (forall i :: 0 <= i < |s| ==> s[i] == PieceOf(minted, total, parts[i]))
            && minted * Total(parts) == SumShares(s) * total + SumRemainders(s)
  {
    if parts != [] {
      var rest := Pieces(minted, total, parts[1..]);
      PiecesConserve(minted, total, parts[1..]);
      Distribute(parts[0].amount, Total(parts[1..]), minted);
      FloorStep(minted * parts[0].amount, minted * Total(parts[1..]), SumShares(rest), SumRemainders(rest), total);
    }
  }

  lemma {:induction false} RemaindersBelow(s: seq<Piece>, total: Positive, k: nat)
    requires k <= |s|
    requires forall i :: 0 <= i < |s| ==> s[i].remainder < total
    requires forall i :: k <= i < |s| ==> s[i].remainder == 0
    ensures SumRemainders(s) <= k * (total - 1)
  {
    if s != [] {
      if k == 0 {
        RemaindersBelow(s[1..], total, 0);
      } else {
        RemaindersBelow(s[1..], total, k - 1);
        assert k * (total - 1) == (k - 1) * (total - 1) + (total - 1);
      }
    }
  }

  /** The unassigned units, fewer than the deposits, all fall on nonzero remainders. */
  lemma {:induction false} UnassignedFits(s: seq<Piece>, total: Positive, unassigned: int)
    requires s != [] && Sorted(s)
    requires forall i :: 0 <= i < |s| ==> s[i].remainder < total
    requires SumRemainders(s) == unassigned * total
    ensures 0 <= unassigned < |s|
    ensures forall k :: 0 <= k < unassigned ==> 0 < s[k].remainder
  {
    MulGap(unassigned, 0, total);
    Short(s, total, unassigned, |s|);
    forall k | 0 <= k < unassigned
      ensures 0 < s[k].remainder
    {
      if s[k].remainder == 0 {
        assert forall j :: k < j < |s| ==> Before(s[k], s[j]);
        Short(s, total, unassigned, k);
      }
    }
  }

  lemma {:induction false} Short(s: seq<Piece>, total: Positive, unassigned: int, k: nat)
    requires k <= |s| && SumRemainders(s) == unassigned * total
    requires forall i :: 0 <= i < |s| ==> s[i].remainder < total
    requires forall i :: k <= i < |s| ==> s[i].remainder == 0
    ensures unassigned < k || (unassigned == k == 0)
  {
    RemaindersBelow(s, total, k);
    assert k * (total - 1) == k * total - k;
    MulGap(k, unassigned, total);
  }

  // ---------------------------------------------------------------- the split

  /** The sorted deposits, with one extra share for each of the first `unassigned`. */
  function Grant(s: seq<Piece>, unassigned: int): map<nat, nat> {
    if s == [] then map[]
    else
      var last := |s| - 1;
      Grant(s[..last], unassigned)[s[last].id := s[last].shares + (if last < unassigned then 1 else 0)]
  }

  function Unassigned(minted: nat, parts: seq<Part>): int
    requires Splittable(minted, parts)
  {
    TotalPositive(parts);
    minted - SumShares(Pieces(minted, Total(parts), parts))
  }

  lemma {:induction false} TotalPositive(parts: seq<Part>)
    requires forall i :: 0 <= i < |parts| ==> 0 < parts[i].amount
    ensures |parts| <= Total(parts)
  {
    if parts != [] {
      TotalPositive(parts[1..]);
    }
  }

  function Ordered(minted: nat, parts: seq<Part>): seq<Piece>
    requires Splittable(minted, parts)
  {
    TotalPositive(parts);
    Sort(Pieces(minted, Total(parts), parts))
  }

  function Split(minted: nat, parts: seq<Part>): map<nat, nat>
    requires Splittable(minted, parts)
  {
    Grant(Ordered(minted, parts), Unassigned(minted, parts))
  }

  lemma {:induction false} NoGrant(unassigned: int)
    ensures Grant([], unassigned) == map[]
  {
  }

  lemma {:induction false} GrantNext(s: seq<Piece>, k: nat, unassigned: int)
    requires k < |s|
    ensures Grant(s[..k + 1], unassigned)
         == Grant(s[..k], unassigned)[s[k].id := s[k].shares + (if k < unassigned then 1 else 0)]
  {
    assert s[..k + 1][..k] == s[..k];
  }

  method AllocateOwnerMintAcrossDeposits(minted: int, parts: seq<Part>) returns (r: Result<map<nat, nat>, Fault>)
    ensures !Splittable(minted, parts) ==> r == Err(InvalidAllocation)
    ensures r == Err(InvalidAllocation)
       <==> minted <= 0 || parts == [] || exists i :: 0 <= i < |parts| && parts[i].amount <= 0
    ensures Splittable(minted, parts) ==> r == Ok(Split(minted, parts))
  {
    if !Splittable(minted, parts) {
      return Err(InvalidAllocation);
    }
    OrderedFacts(minted, parts);
    var split := Ordered(minted, parts);
    var unassigned := Unassigned(minted, parts);
    ghost var extras := unassigned;
    hide Ordered, Unassigned, Sorted, Grant;
    var result: map<nat, nat> := map[];
    NoGrant(extras);
    for k := 0 to |split|
      invariant unassigned == if k < extras then extras - k else 0
      invariant result == Grant(split[..k], extras)
    {
      GrantNext(split, k, extras);
      var extra := if 0 < unassigned then 1 else 0;
      result := result[split[k].id := split[k].shares + extra];
      unassigned := unassigned - extra;
    }
    assert split[..|split|] == split;
    if unassigned != 0 {
      // The loop has handed out every unit: there are fewer of them than deposits.
      assert false;
    }
    return Ok(result);
  }

  lemma {:induction false} OrderedFacts(minted: nat, parts: seq<Part>)
    requires Splittable(minted, parts)
    ensures var s, u := Ordered(minted, parts), Unassigned(minted, parts);
            && Sorted(s) && |s| == |parts| && 0 <= u < |s|
            && (forall k :: 0 <= k < u ==> 0 < s[k].remainder)
            && SumShares(s) + u == minted
  {
    TotalPositive(parts);
    var total, pieces := Total(parts), Pieces(minted, Total(parts), parts);
    PiecesConserve(minted, total, parts);
    SortKeeps(pieces);
    SortedRemainders(minted, total, parts);
    UnassignedTotal(minted, total, SumShares(pieces), SumRemainders(pieces));
    UnassignedFits(Sort(pieces), total, minted - SumShares(pieces));
  }

  lemma {:induction false} UnassignedTotal(minted: nat, total: Positive, shares: nat, remainders: nat)
    requires minted * total == shares * total + remainders
    ensures remainders == (minted - shares) * total
  {
  }

  lemma {:induction false} SortedRemainders(minted: nat, total: Positive, parts: seq<Part>)
    requires forall i :: 0 <= i < |parts| ==> 0 < parts[i].amount
    ensures var s := Sort(Pieces(minted, total, parts));
            forall i :: 0 <= i < |s| ==> s[i].remainder < total
  {
    var pieces := Pieces(minted, total, parts);
    PiecesConserve(minted, total, parts);
    SortKeeps(pieces);
    forall i | 0 <= i < |Sort(pieces)|
      ensures Sort(pieces)[i].remainder < total
    {
      assert Sort(pieces)[i] in multiset(pieces);
    }
  }

  // ---------------------------------------------------------------- what the split promises

  ghost predicate DistinctPieces(s: seq<Piece>) {
    forall i, j :: 0 <= i < j < |s| ==> s[i].id != s[j].id
  }

  lemma {:induction false} GrantAt(s: seq<Piece>, unassigned: int)
    requires DistinctPieces(s)
    ensures Grant(s, unassigned).Keys == set k | 0 <= k < |s| :: s[k].id
    ensures forall k :: 0 <= k < |s| ==>
      Grant(s, unassigned)[s[k].id] == s[k].shares + (if k < unassigned then 1 else 0)
  {
    if s != [] {
      GrantAt(s[..|s| - 1], unassigned);
    }
  }

  lemma {:induction false} InsertIds(p: Piece, s: seq<Piece>)
    requires DistinctPieces(s) && forall i :: 0 <= i < |s| ==> s[i].id != p.id
    ensures DistinctPieces(Insert(p, s))
  {
    if s != [] && !Before(p, s[0]) {
      InsertIds(p, s[1..]);
      InsertMembers(p, s[1..]);
      var tail := Insert(p, s[1..]);
      forall j | 0 <= j < |tail|
        ensures tail[j].id != s[0].id
      {
        assert tail[j] in multiset(tail);
        assert tail[j] == p || tail[j] in multiset(s[1..]);
      }
    }
  }

  lemma {:induction false} SortIds(s: seq<Piece>)
    requires DistinctPieces(s)
    ensures DistinctPieces(Sort(s))
  {
    if s != [] {
      SortIds(s[1..]);
      SortKeeps(s[1..]);
      forall i | 0 <= i < |s| - 1
        ensures Sort(s[1..])[i].id != s[0].id
      {
        assert Sort(s[1..])[i] in multiset(s[1..]);
      }
      InsertIds(s[0], Sort(s[1..]));
    }
  }

  /** Where the `i`-th deposit stands in remainder order. */
  lemma {:induction false} Rank(minted: nat, parts: seq<Part>, i: nat) returns (k: nat)
    requires Splittable(minted, parts) && i < |parts|
    ensures 0 < Total(parts)
    ensures k < |Ordered(minted, parts)|
    ensures Ordered(minted, parts)[k] == PieceOf(minted, Total(parts), parts[i])
  {
    TotalPositive(parts);
    PiecesConserve(minted, Total(parts), parts);
    var pieces := Pieces(minted, Total(parts), parts);
    SortKeeps(pieces);
    assert pieces[i] in multiset(Sort(pieces));
    k :| 0 <= k < |Sort(pieces)| && Sort(pieces)[k] == pieces[i];
  }

  lemma {:induction false} OrderedIds(minted: nat, parts: seq<Part>)
    requires Splittable(minted, parts) && DistinctIds(parts)
    ensures DistinctPieces(Ordered(minted, parts))
  {
    TotalPositive(parts);
    PiecesConserve(minted, Total(parts), parts);
    SortIds(Pieces(minted, Total(parts), parts));
  }

  function Floor(minted: nat, parts: seq<Part>, i: nat): nat
    requires Splittable(minted, parts) && i < |parts|
  {
    TotalPositive(parts);
    minted * parts[i].amount / Total(parts)
  }

  function Remainder(minted: nat, parts: seq<Part>, i: nat): nat
    requires Splittable(minted, parts) && i < |parts|
  {
    TotalPositive(parts);
    minted * parts[i].amount % Total(parts)
  }

  /** Every deposit gets its floor or one more, and one more only on a nonzero remainder. */
  lemma {:induction false} SplitOfDeposit(minted: nat, parts: seq<Part>, i: nat)
    requires Splittable(minted, parts) && DistinctIds(parts) && i < |parts|
    ensures parts[i].id in Split(minted, parts)
    ensures var got := Split(minted, parts)[parts[i].id] - Floor(minted, parts, i);
            got == 0 || (got == 1 && 0 < Remainder(minted, parts, i))
  {
    OrderedFacts(minted, parts);
    OrderedIds(minted, parts);
    GrantAt(Ordered(minted, parts), Unassigned(minted, parts));
    var k := Rank(minted, parts, i);
  }

  /** No deposit is passed over for one behind it in remainder order. */
  lemma {:induction false} SplitInRemainderOrder(minted: nat, parts: seq<Part>, i: nat, j: nat)
    requires Splittable(minted, parts) && DistinctIds(parts) && i < |parts| && j < |parts|
    requires parts[i].id in Split(minted, parts) && parts[j].id in Split(minted, parts)
    requires Split(minted, parts)[parts[i].id] == Floor(minted, parts, i) + 1
    requires Split(minted, parts)[parts[j].id] == Floor(minted, parts, j)
    ensures Remainder(minted, parts, j) < Remainder(minted, parts, i)
         || (Remainder(minted, parts, j) == Remainder(minted, parts, i) && parts[i].id < parts[j].id)
  {
    OrderedFacts(minted, parts);
    OrderedIds(minted, parts);
    GrantAt(Ordered(minted, parts), Unassigned(minted, parts));
    var a := Rank(minted, parts, i);
    var b := Rank(minted, parts, j);
    assert Before(Ordered(minted, parts)[a], Ordered(minted, parts)[b]);
  }

  // ---------------------------------------------------------------- sums of the split

  /** The sum over all deposits of what `m` gives them. */
  function SumOver(parts: seq<Part>, m: map<nat, nat>): int {
    if parts == [] then 0 else (if parts[0].id in m then m[parts[0].id] else 0) + SumOver(parts[1..], m)
  }

  function SumPieces(s: seq<Piece>, m: map<nat, nat>): int {
    if s == [] then 0 else (if s[0].id in m then m[s[0].id] else 0) + SumPieces(s[1..], m)
  }

  lemma {:induction false} SumAsPieces(minted: nat, total: Positive, parts: seq<Part>, m: map<nat, nat>)
    requires forall i :: 0 <= i < |parts| ==> 0 < parts[i].amount
    ensures SumOver(parts, m) == SumPieces(Pieces(minted, total, parts), m)
  {
    if parts != [] {
      SumAsPieces(minted, total, parts[1..], m);
    }
  }

  lemma {:induction false} SumInserted(p: Piece, s: seq<Piece>, m: map<nat, nat>)
    ensures SumPieces(Insert(p, s), m) == (if p.id in m then m[p.id] else 0) + SumPieces(s, m)
  {
    if s != [] && !Before(p, s[0]) {
      SumInserted(p, s[1..], m);
    }
  }

  lemma {:induction false} SumSorted(s: seq<Piece>, m: map<nat, nat>)
    ensures SumPieces(Sort(s), m) == SumPieces(s, m)
  {
    if s != [] {
      SumSorted(s[1..], m);
      SumInserted(s[0], Sort(s[1..]), m);
    }
  }

  lemma {:induction false} SumGranted(s: seq<Piece>, from: nat, unassigned: nat, m: map<nat, nat>)
    requires forall k :: 0 <= k < |s| ==>
      s[k].id in m && m[s[k].id] == s[k].shares + (if from + k < unassigned then 1 else 0)
    ensures SumPieces(s, m) == SumShares(s)
      + (if unassigned <= from then 0 else if unassigned - from <= |s| then unassigned - from else |s|)
  {
    if s != [] {
      SumGranted(s[1..], from + 1, unassigned, m);
    }
  }

  /** The deposits' shares add up to the owner's mint exactly. */
  lemma {:induction false} SplitConserves(minted: nat, parts: seq<Part>)
    requires Splittable(minted, parts) && DistinctIds(parts)
    ensures SumOver(parts, Split(minted, parts)) == minted
  {
    var m := Split(minted, parts);
    OrderedFacts(minted, parts);
    OrderedIds(minted, parts);
    GrantAt(Ordered(minted, parts), Unassigned(minted, parts));
    SumGranted(Ordered(minted, parts), 0, Unassigned(minted, parts), m);
    TotalPositive(parts);
    SumAsPieces(minted, Total(parts), parts, m);
    SumSorted(Pieces(minted, Total(parts), parts), m);
  }

  lemma {:induction false} GrantedIds(s: seq<Piece>, unassigned: int, id: nat)
    requires id in Grant(s, unassigned)
    ensures exists k :: 0 <= k < |s| && s[k].id == id
  {
    var last := |s| - 1;
    if s[last].id != id {
      GrantedIds(s[..last], unassigned, id);
      var k :| 0 <= k < last && s[..last][k].id == id;
      assert s[k].id == id;
    }
  }

  /** Nothing is handed to any other deposit. */
  lemma {:induction false} SplitIds(minted: nat, parts: seq<Part>, id: nat)
    requires Splittable(minted, parts) && id in Split(minted, parts)
    ensures exists i :: 0 <= i < |parts| && parts[i].id == id
  {
    TotalPositive(parts);
    var pieces := Pieces(minted, Total(parts), parts);
    PiecesConserve(minted, Total(parts), parts);
    SortKeeps(pieces);
    GrantedIds(Ordered(minted, parts), Unassigned(minted, parts), id);
    var k :| 0 <= k < |Sort(pieces)| && Sort(pieces)[k].id == id;
    assert Sort(pieces)[k] in multiset(Sort(pieces));
    var i :| 0 <= i < |pieces| && pieces[i] == Sort(pieces)[k];
    assert parts[i].id == id;
  }

  lemma {:induction false} SumOverConcat(a: seq<Part>, b: seq<Part>, m: map<nat, nat>)
    ensures SumOver(a + b, m) == SumOver(a, m) + SumOver(b, m)
  {
    if a == [] {
      assert a + b == b;
    } else {
      SumOverConcat(a[1..], b, m);
      assert (a + b)[1..] == a[1..] + b;
    }
  }

  lemma {:induction false} SumOverAlike(parts: seq<Part>, m: map<nat, nat>, n: map<nat, nat>)
    requires forall i :: 0 <= i < |parts| ==>
      (parts[i].id in m <==> parts[i].id in n) && (parts[i].id in m ==> m[parts[i].id] == n[parts[i].id])
    ensures SumOver(parts, m) == SumOver(parts, n)
  {
    if parts != [] {
      SumOverAlike(parts[1..], m, n);
    }
  }
}
