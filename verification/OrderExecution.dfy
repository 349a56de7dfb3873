/** The quoted execution of a request against an order book. */
module OrderExecution {
  import opened Common
  import opened OrderBook
  import opened OrderFill

  // ---------------------------------------------------------------- levels in another order

  function With<T>(s: seq<T>, k: nat, x: T): seq<T>
    requires k <= |s|
  {
    s[..k] + [x] + s[k..]
  }

  lemma {:induction false} TotalWith(bought: seq<real>, k: nat, x: real)
    requires k <= |bought|
    ensures Total(With(bought, k, x)) == x + Total(bought)
  {
    if k > 0 {
      TotalWith(bought[1..], k - 1, x);
      assert With(bought, k, x)[1..] == With(bought[1..], k - 1, x);
    } else {
      assert With(bought, k, x)[1..] == bought;
    }
  }

  lemma {:induction false} CostWith(asks: seq<Level>, bought: seq<real>, k: nat, x: real)
    requires k < |asks| && |bought| == |asks| - 1
    ensures Cost(asks, With(bought, k, x)) == Paid(asks[k], x) + Cost(Without(asks, k), bought)
  {
    hide Paid;
    if k > 0 {
      CostWith(asks[1..], bought[1..], k - 1, x);
      assert With(bought, k, x)[1..] == With(bought[1..], k - 1, x);
      assert Without(asks, k)[1..] == Without(asks[1..], k - 1);
    } else {
      assert With(bought, k, x)[1..] == bought && Without(asks, k) == asks[1..];
    }
  }

  lemma {:induction false} FeasibleWith(asks: seq<Level>, bought: seq<real>, k: nat, x: real)
    requires k < |asks| && Feasible(Without(asks, k), bought) && 0.0 <= x <= asks[k].size
    ensures Feasible(asks, With(bought, k, x))
  {
    forall i | 0 <= i < |asks|
      ensures 0.0 <= With(bought, k, x)[i] <= asks[i].size
    {
      if i < k {
        assert Without(asks, k)[i] == asks[i];
      } else if i > k {
        assert Without(asks, k)[i - 1] == asks[i];
      }
    }
  }

  /** Whatever can be bought from some levels can be bought from the same levels in another order. */
  lemma {:induction false} Rearranged(s: seq<Level>, t: seq<Level>, bought: seq<real>) returns (other: seq<real>)
    requires multiset(s) == multiset(t) && Feasible(s, bought)
    ensures Feasible(t, other) && Cost(t, other) == Cost(s, bought) && Total(other) == Total(bought)
  {
    if s == [] {
      assert |multiset(t)| == 0;
      other := [];
    } else {
      assert s[0] in multiset(t);
      var k :| 0 <= k < |t| && t[k] == s[0];
      SameWithout(s, t, 0, k);
      assert Without(s, 0) == s[1..];
      var rest := Rearranged(s[1..], Without(t, k), bought[1..]);
      other := With(rest, k, bought[0]);
      FeasibleWith(t, rest, k, bought[0]);
      CostWith(t, rest, k, bought[0]);
      TotalWith(rest, k, bought[0]);
      Unfold(s, bought);
    }
  }

  lemma {:induction false} CostWithinDepth(asks: seq<Level>, bought: seq<real>)
    requires AllValid(asks) && Feasible(asks, bought)
    ensures Cost(asks, bought) <= Depth(asks)
  {
    if asks != [] {
      FeasibleParts(asks, bought);
      Unfold(asks, bought);
      hide Cost, Feasible, Notional, Paid;
      CostWithinDepth(asks[1..], bought[1..]);
    }
  }

  lemma {:induction false} NoMoreDepth(s: seq<Level>, t: seq<Level>)
    requires AllValid(s) && AllValid(t) && multiset(s) == multiset(t)
    ensures Depth(s) <= Depth(t)
  {
    hide Cost, Feasible, Total, Greedy, Depth, Shares;
    GreedySpends(s, 0.0);
    GreedySpends(s, Depth(s));
    GreedyIsFeasible(s, Depth(s));
    var other := Rearranged(s, t, Greedy(s, Depth(s)));
    CostWithinDepth(t, other);
  }

  lemma {:induction false} NoMoreShares(s: seq<Level>, t: seq<Level>, x: real)
    requires AllValid(s) && AllValid(t) && Ascending(t) && multiset(s) == multiset(t) && 0.0 <= x
    ensures Shares(s, x) <= Shares(t, x)
  {
    hide Cost, Feasible, Total, Greedy, Depth, Shares, Ascending;
    GreedyIsFeasible(s, x);
    GreedySpends(s, x);
    var other := Rearranged(s, t, Greedy(s, x));
    GreedyIsBest(t, other, x);
  }

  lemma {:induction false} BestIsCheapest(asks: seq<Level>, l: Level)
    requires Ascending(asks) && l in asks
    ensures asks[0].price <= l.price
  {
  }

  lemma {:induction false} SameBest(s: seq<Level>, t: seq<Level>)
    requires Ascending(s) && Ascending(t) && s != [] && multiset(s) == multiset(t)
    ensures t != [] && s[0].price == t[0].price
  {
    assert s[0] in multiset(t);
    assert t[0] in multiset(s);
    BestIsCheapest(s, t[0]);
    BestIsCheapest(t, s[0]);
  }

  // ---------------------------------------------------------------- rounding

  const TOLERANCE: real := 0.000001

  /** The nearest millionth, halves upwards. */
  function RoundPrice(x: real): real {
    (x * 1_000_000.0 + 0.5).Floor as real / 1_000_000.0
  }

  lemma {:induction false} RoundNear(x: real)
    ensures RoundPrice(x) - 0.000_000_5 <= x < RoundPrice(x) + 0.000_000_5
  {
  }

  lemma {:induction false} RoundMono(x: real, y: real)
    requires x <= y
    ensures RoundPrice(x) <= RoundPrice(y)
  {
    var a, b := x * 1_000_000.0 + 0.5, y * 1_000_000.0 + 0.5;
    WholesMono(a, b);
    DivideMono(a.Floor as real, b.Floor as real, 1_000_000.0);
  }

  lemma {:induction false} WholesMono(a: real, b: real)
    requires a <= b
    ensures a.Floor as real <= b.Floor as real
  {
    assert a.Floor <= b.Floor;
  }

  // ---------------------------------------------------------------- the execution

  /** Neither the rounded depth nor the depth itself falls short of the request by more than the tolerance. */
  predicate Takes(depth: real, x: real) {
    x <= RoundPrice(depth) + TOLERANCE && x <= depth + TOLERANCE
  }

  function Quote(asks: seq<Level>, notional: Option<real>): Option<Execution>
    requires AllValid(asks)
  {
    if asks == [] then None
    else
      var best, available := asks[0].price, RoundPrice(Depth(asks));
      if notional.None? || notional.value <= 0.0 then
        Some(Execution(best, Some(best), None, None, available, true, ClobAsk))
      else
        var spent, filled := Min(notional.value, Depth(asks)), Shares(asks, notional.value);
        if available + TOLERANCE < notional.value || filled <= 0.0 || spent + TOLERANCE < notional.value then
          Some(Execution(best, None, None, notional, available, false, ClobVwap))
        else
          var vwap := RoundPrice(spent / filled);
          Some(Execution(best, Some(vwap), Some(vwap), notional, available, true, ClobVwap))
  }

  function ExecutionOf(book: seq<RawLevel>, notional: Option<real>): Option<Execution> {
    AsksAreSorted(book);
    Quote(ValidAskLevels(book), notional)
  }

  /** The quote does not depend on the order in which the venue lists its levels. */
  lemma {:induction false} OrderDoesNotMatter(a: seq<RawLevel>, b: seq<RawLevel>, notional: Option<real>)
    requires multiset(a) == multiset(b)
    ensures ExecutionOf(a, notional) == ExecutionOf(b, notional)
  {
    SameBookSameAsks(a, b);
    AsksAreSorted(a);
    AsksAreSorted(b);
    var s, t := ValidAskLevels(a), ValidAskLevels(b);
    hide ValidAskLevels, Depth, Shares, Ascending, AllValid, RoundPrice;
    NoMoreDepth(s, t);
    NoMoreDepth(t, s);
    if s == [] {
      assert |multiset(t)| == 0;
    } else {
      SameBest(s, t);
      if notional.Some? && 0.0 < notional.value {
        NoMoreShares(s, t, notional.value);
        NoMoreShares(t, s, notional.value);
      }
    }
  }

  lemma {:induction false} SomethingIsBought(asks: seq<Level>, x: real)
    requires AllValid(asks) && asks != [] && 0.0 < x
    ensures 0.0 < Shares(asks, x)
  {
    var take := Min(x, Notional(asks[0]));
    NotionalPositive(asks[0]);
    Undo(take, asks[0].price);
    SharesOfNothing(asks[1..]);
    if x > take {
      assert AtLeast(asks[1..], 0.0);
      SharesNonNegative(asks[1..], x - take);
    }
    PositiveQuotient(take, asks[0].price);
  }

  lemma {:induction false} PositiveQuotient(a: real, p: real)
    requires 0.0 < a && 0.0 < p
    ensures 0.0 < a / p
  {
  }

  lemma {:induction false} SharesNonNegative(asks: seq<Level>, x: real)
    requires AllValid(asks) && 0.0 <= x
    ensures 0.0 <= Shares(asks, x)
  {
    if asks != [] {
      var take := Min(x, Notional(asks[0]));
      NotionalPositive(asks[0]);
      DivideMono(0.0, take, asks[0].price);
      SharesNonNegative(asks[1..], x - take);
    }
  }

  /**
   A request is refused exactly when the book is too shallow for it: when it exceeds the rounded depth, or the depth
   itself, by more than the tolerance. Whatever is within the depth is quoted, at the rounded average price of what is
   spent.
   */
  lemma {:induction false} RefusedOnlyForDepth(book: seq<RawLevel>, x: real)
    requires 0.0 < x && ValidAskLevels(book) != []
    ensures AllValid(ValidAskLevels(book)) && ExecutionOf(book, Some(x)).Some?
    ensures var asks, e := ValidAskLevels(book), ExecutionOf(book, Some(x)).value;
            && (e.sufficient <==> Takes(Depth(asks), x)) && (x <= Depth(asks) ==> e.sufficient)
            && (e.sufficient <==> e.vwap.Some?) && 0.0 < Shares(asks, x)
            && (e.vwap.Some? ==> e.vwap.value == RoundPrice(Min(x, Depth(asks)) / Shares(asks, x)))
  {
    AsksAreSorted(book);
    hide ValidAskLevels, RoundPrice, Shares, Depth;
    SomethingIsBought(ValidAskLevels(book), x);
    RoundNear(Depth(ValidAskLevels(book)));
  }

  /** A request that passes the check against the rounded depth, and not the one against what was spent. */
  predicate MissedByRounding(depth: real, x: real) {
    x <= RoundPrice(depth) + TOLERANCE && depth + TOLERANCE < x
  }

  /**
   The second check on the depth is not implied by the first: some request is refused by it alone exactly when the
   depth was rounded up. This book is worth half a millionth, and a request for two millionths is such a request.
   */
  lemma {:induction false} RoundingHidesAShortfall(depth: real)
    ensures (exists x :: MissedByRounding(depth, x)) <==> depth < RoundPrice(depth)
    ensures MissedByRounding(Depth([Level(0.5, TOLERANCE)]), 2.0 * TOLERANCE)
  {
    if depth < RoundPrice(depth) {
      assert MissedByRounding(depth, RoundPrice(depth) + TOLERANCE);
    }
    assert Depth([Level(0.5, TOLERANCE)][1..]) == 0.0;
  }

  lemma {:induction false} LastTouched(bought: seq<real>) returns (last: nat)
    requires 0.0 < Total(bought) && forall i :: 0 <= i < |bought| ==> 0.0 <= bought[i]
    ensures last < |bought| && 0.0 < bought[last] && forall i :: last < i < |bought| ==> bought[i] == 0.0
  {
    var rest := bought[1..];
    assert forall i :: 0 <= i < |rest| ==> rest[i] == bought[i + 1];
    if 0.0 < Total(rest) {
      var k := LastTouched(rest);
      last := k + 1;
      assert forall i :: last < i < |bought| ==> bought[i] == rest[i - 1];
    } else {
      NothingTouched(rest);
      last := 0;
      assert forall i :: last < i < |bought| ==> bought[i] == rest[i - 1];
    }
  }

  lemma {:induction false} NothingTouched(bought: seq<real>)
    requires Total(bought) <= 0.0 && forall i :: 0 <= i < |bought| ==> 0.0 <= bought[i]
    ensures Total(bought) == 0.0 && forall i :: 0 <= i < |bought| ==> bought[i] == 0.0
  {
    if bought != [] {
      TotalNonNegative(bought[1..]);
      NothingTouched(bought[1..]);
    }
  }

  lemma {:induction false} TotalNonNegative(bought: seq<real>)
    requires forall i :: 0 <= i < |bought| ==> 0.0 <= bought[i]
    ensures 0.0 <= Total(bought)
  {
    if bought != [] {
      TotalNonNegative(bought[1..]);
    }
  }

  /**
   A quoted request is spent in full, or all the book holds when that is within the tolerance. No way of spending the
   request on this book buys more, and the quote is the rounded average price, which lies between the best ask and the
   last level touched.
   */
  lemma {:induction false} QuoteIsBest(book: seq<RawLevel>, x: real, vwap: real)
      returns (asks: seq<Level>, bought: seq<real>, last: nat)
    requires 0.0 < x && ExecutionOf(book, Some(x)).Some? && ExecutionOf(book, Some(x)).value.vwap == Some(vwap)
    ensures asks == ValidAskLevels(book) && Feasible(asks, bought) && 0.0 < Total(bought)
    ensures x - TOLERANCE <= Cost(asks, bought) <= x && (x <= Depth(asks) ==> Cost(asks, bought) == x)
    ensures vwap == RoundPrice(Cost(asks, bought) / Total(bought))
    ensures forall other :: Feasible(asks, other) && Cost(asks, other) <= x ==> Total(other) <= Total(bought)
    ensures last < |asks| && 0.0 < bought[last] && forall i :: last < i < |asks| ==> bought[i] == 0.0
    ensures asks[0].price <= Cost(asks, bought) / Total(bought) <= asks[last].price
  {
    hide ValidAskLevels, Feasible, Cost, Total, Greedy, Shares, Depth, Ascending, AllValid, RoundPrice;
    asks := ValidAskLevels(book);
    AsksAreSorted(book);
    SomeAsks(book, x);
    RefusedOnlyForDepth(book, x);
    bought := Greedy(asks, x);
    last := GreedyOutcome(asks, x);
    NoneBuysMore(asks, x);
  }

  lemma {:induction false} SomeAsks(book: seq<RawLevel>, x: real)
    requires ExecutionOf(book, Some(x)).Some?
    ensures ValidAskLevels(book) != []
  {
  }

  lemma {:induction false} NoneBuysMore(asks: seq<Level>, x: real)
    requires AllValid(asks) && Ascending(asks) && 0.0 <= x
    ensures forall other :: Feasible(asks, other) && Cost(asks, other) <= x ==> Total(other) <= Total(Greedy(asks, x))
  {
    hide Cost, Total, Greedy, Shares, Ascending, AllValid;
    GreedyIsFeasible(asks, x);
    forall other | Feasible(asks, other) && Cost(asks, other) <= x
      ensures Total(other) <= Total(Greedy(asks, x))
    {
      GreedyIsBest(asks, other, x);
    }
  }

  lemma {:induction false} FeasibleIsNonNegative(asks: seq<Level>, bought: seq<real>)
    requires Feasible(asks, bought)
    ensures |bought| == |asks| && forall i :: 0 <= i < |bought| ==> 0.0 <= bought[i]
  {
  }

  lemma {:induction false} GreedyOutcome(asks: seq<Level>, x: real) returns (last: nat)
    requires AllValid(asks) && Ascending(asks) && asks != [] && 0.0 < x
    ensures var bought := Greedy(asks, x);
            && Feasible(asks, bought) && Cost(asks, bought) == Min(x, Depth(asks))
            && 0.0 < Total(bought) == Shares(asks, x)
            && last < |asks| && 0.0 < bought[last] && (forall i :: last < i < |asks| ==> bought[i] == 0.0)
            && asks[0].price <= Cost(asks, bought) / Total(bought) <= asks[last].price
  {
    hide Feasible, Cost, Total, Greedy, Shares, Depth, Ascending, AllValid;
    var bought := Greedy(asks, x);
    GreedyIsFeasible(asks, x);
    GreedySpends(asks, x);
    SomethingIsBought(asks, x);
    FeasibleIsNonNegative(asks, bought);
    last := LastTouched(bought);
    Undo(Cost(asks, bought), Total(bought));
    PriceBetween(asks, bought, last, Cost(asks, bought) / Total(bought));
  }

  lemma {:induction false} SortedPrices(asks: seq<Level>, i: nat, j: nat)
    requires Ascending(asks) && i <= j < |asks|
    ensures asks[i].price <= asks[j].price
  {
    if 0 < i {
      SortedPrices(asks[1..], i - 1, j - 1);
    }
  }

  /** The average price lies between the best ask and the last level touched. */
  lemma {:induction false} PriceBetween(asks: seq<Level>, bought: seq<real>, k: nat, vwap: real)
    requires Ascending(asks) && Feasible(asks, bought) && k < |asks|
    requires forall i :: k < i < |asks| ==> bought[i] == 0.0
    requires 0.0 < Total(bought) && vwap * Total(bought) == Cost(asks, bought)
    ensures asks[0].price <= vwap <= asks[k].price
  {
    hide Total, Cost;
    forall i | 0 <= i < |asks| && 0.0 < bought[i]
      ensures asks[0].price <= asks[i].price <= asks[k].price
    {
      SortedPrices(asks, 0, i);
      SortedPrices(asks, i, k);
    }
    CostBetweenPrices(asks, bought, asks[0].price, asks[k].price);
    AverageBetween(asks[0].price, asks[k].price, vwap, Total(bought), Cost(asks, bought));
  }

  lemma {:induction false} AverageBetween(low: real, high: real, average: real, total: real, cost: real)
    requires 0.0 < total && average * total == cost && low * total <= cost <= high * total
    ensures low <= average <= high
  {
    DivideMono(low * total, cost, total);
    DivideMono(cost, high * total, total);
    assert low * total / total == low && high * total / total == high && average * total / total == average;
  }

  /** Beyond the depth nothing more is bought. */
  lemma {:induction false} SharesWithinDepth(asks: seq<Level>, x: real)
    requires AllValid(asks) && 0.0 <= x
    ensures Shares(asks, x) == Shares(asks, Min(x, Depth(asks))) && 0.0 <= Depth(asks)
  {
    if asks != [] {
      var take := Min(x, Notional(asks[0]));
      NotionalPositive(asks[0]);
      SharesWithinDepth(asks[1..], x - take);
    }
  }

  /** A larger request is never quoted at a lower price. */
  lemma {:induction false} PriceNeverFalls(book: seq<RawLevel>, x: real, y: real)
    requires 0.0 < x <= y && ExecutionOf(book, Some(y)).Some? && ExecutionOf(book, Some(y)).value.sufficient
    ensures ExecutionOf(book, Some(x)).Some? && ExecutionOf(book, Some(x)).value.sufficient
    ensures ExecutionOf(book, Some(x)).value.vwap.Some? && ExecutionOf(book, Some(y)).value.vwap.Some?
    ensures ExecutionOf(book, Some(x)).value.vwap.value <= ExecutionOf(book, Some(y)).value.vwap.value
  {
    hide ExecutionOf, ValidAskLevels, Shares, Depth, AllValid, Ascending, RoundPrice;
    SomeAsks(book, y);
    RefusedOnlyForDepth(book, x);
    RefusedOnlyForDepth(book, y);
    AsksAreSorted(book);
    var asks := ValidAskLevels(book);
    var s, t := Min(x, Depth(asks)), Min(y, Depth(asks));
    SharesWithinDepth(asks, x);
    SharesWithinDepth(asks, y);
    AveragePriceGrows(asks, s, t);
    Averages(s, t, Shares(asks, x), Shares(asks, y));
    RoundMono(s / Shares(asks, x), t / Shares(asks, y));
  }

  lemma {:induction false} Averages(x: real, y: real, g: real, h: real)
    requires 0.0 < g && 0.0 < h && x * h <= y * g
    ensures x / g <= y / h
  {
    DivideMono(x * h, y * g, g);
    assert y * g / g == y;
    DivideMono(x * h / g, y, h);
    assert x * h / g / h == x / g;
  }

  // ---------------------------------------------------------------- the loops

  lemma {:induction false} DepthOfPrefix(asks: seq<Level>, i: nat)
    requires i < |asks|
    ensures Depth(asks[..i + 1]) == Depth(asks[..i]) + Notional(asks[i])
  {
    hide Notional;
    if i == 0 {
      assert asks[..1] == [asks[0]] && asks[..0] == [] && [asks[0]][1..] == [];
    } else {
      DepthOfPrefix(asks[1..], i - 1);
      assert asks[..i + 1][1..] == asks[1..][..i] && asks[..i][1..] == asks[1..][..i - 1];
    }
  }

  method TotalNotional(asks: seq<Level>) returns (total: real)
    ensures total == Depth(asks)
  {
    hide Depth;
    total := 0.0;
    DepthOfNothing();
    for i := 0 to |asks|
      invariant total == Depth(asks[..i])
    {
      DepthOfPrefix(asks, i);
      total := total + asks[i].price * asks[i].size;
    }
    assert asks[..|asks|] == asks;
  }

  lemma {:induction false} DepthOfNothing()
    ensures Depth([]) == 0.0
  {
  }

  /** One turn of the fill loop. */
  lemma {:induction false} FillStep(asks: seq<Level>, i: nat, remaining: real)
    requires AllValid(asks) && i < |asks| && 0.0 <= remaining
    ensures var take := Min(remaining, Notional(asks[i]));
            && 0.0 <= take <= remaining
            && Shares(asks[i..], remaining) == take / asks[i].price + Shares(asks[i + 1..], remaining - take)
            && Min(remaining, Depth(asks[i..])) == take + Min(remaining - take, Depth(asks[i + 1..]))
  {
    NotionalPositive(asks[i]);
    assert asks[i..][0] == asks[i] && asks[i..][1..] == asks[i + 1..];
    GreedySpends(asks[i + 1..], 0.0);
  }

  method Fill(asks: seq<Level>, requested: real) returns (filled: real, spent: real)
    requires AllValid(asks) && 0.0 < requested
    ensures filled == Shares(asks, requested) && spent == Min(requested, Depth(asks))
  {
    hide Shares, Depth;
    var remaining, i := requested, 0;
    filled, spent := 0.0, 0.0;
    assert asks[0..] == asks;
    while i < |asks| && 0.0 < remaining
      invariant 0 <= i <= |asks|
      invariant 0.0 <= remaining && spent + Min(remaining, Depth(asks[i..])) == Min(requested, Depth(asks))
      invariant filled + Shares(asks[i..], remaining) == Shares(asks, requested)
    {
      FillStep(asks, i, remaining);
      var take := Min(remaining, asks[i].price * asks[i].size);
      filled := filled + take / asks[i].price;
      spent := spent + take;
      remaining := remaining - take;
      i := i + 1;
    }
    if i == |asks| {
      assert asks[i..] == [];
      DepthOfNothing();
      SharesOfEmpty(remaining);
    } else {
      SharesOfNothing(asks[i..]);
      GreedySpends(asks[i..], 0.0);
    }
  }

  method AskSideExecution(book: seq<RawLevel>, notional: Option<real>) returns (r: Option<Execution>)
    ensures r == ExecutionOf(book, notional)
  {
    var asks := ValidAskLevels(book);
    AsksAreSorted(book);
    hide ValidAskLevels, Depth, Shares, RoundPrice;
    if |asks| == 0 {
      return None;
    }
    var best := asks[0].price;
    var depth := TotalNotional(asks);
    var available := RoundPrice(depth);
    if notional.None? || notional.value <= 0.0 {
      return Some(Execution(best, Some(best), None, None, available, true, ClobAsk));
    }
    var requested := notional.value;
    if available + TOLERANCE < requested {
      return Some(Execution(best, None, None, Some(requested), available, false, ClobVwap));
    }
    var filled, spent := Fill(asks, requested);
    if filled <= 0.0 || spent + TOLERANCE < requested {
      return Some(Execution(best, None, None, Some(requested), available, false, ClobVwap));
    }
    var vwap := RoundPrice(spent / filled);
    return Some(Execution(best, Some(vwap), Some(vwap), Some(requested), available, true, ClobVwap));
  }
}
