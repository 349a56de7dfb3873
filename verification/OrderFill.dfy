/** The greedy fill of sorted asks is the best way to spend a notional, at a price that only grows with it. */
module OrderFill {
  import opened OrderBook

  function Min(a: real, b: real): real {
    if a < b then a else b
  }

  function Notional(l: Level): real {
    l.price * l.size
  }

  /** What the whole ask side would cost. */
  function Depth(asks: seq<Level>): real {
    if asks == [] then 0.0 else Notional(asks[0]) + Depth(asks[1..])
  }

  /** The shares that a notional buys when every level is emptied before the next one is touched. */
  function Shares(asks: seq<Level>, notional: real): real
    requires AllValid(asks)
  {
    if asks == [] then 0.0
    else
      var take := Min(notional, Notional(asks[0]));
      take / asks[0].price + Shares(asks[1..], notional - take)
  }

  // ---------------------------------------------------------------- arbitrary ways to buy

  /** `bought[i]` shares are taken from level `i`, never more than it offers. */
  ghost predicate Feasible(asks: seq<Level>, bought: seq<real>) {
    |bought| == |asks| && forall i :: 0 <= i < |asks| ==> 0.0 <= bought[i] <= asks[i].size
  }

  ghost function Paid(l: Level, bought: real): real {
    l.price * bought
  }

  ghost function Cost(asks: seq<Level>, bought: seq<real>): real
    requires |bought| == |asks|
  {
    if asks == [] then 0.0 else Paid(asks[0], bought[0]) + Cost(asks[1..], bought[1..])
  }

  ghost function Total(bought: seq<real>): real {
    if bought == [] then 0.0 else bought[0] + Total(bought[1..])
  }

  /** The greedy choice itself. */
  ghost function Greedy(asks: seq<Level>, notional: real): (bought: seq<real>)
    requires AllValid(asks)
    ensures |bought| == |asks|
  {
    if asks == [] then []
    else
      var take := Min(notional, Notional(asks[0]));
      [take / asks[0].price] + Greedy(asks[1..], notional - take)
  }

  lemma {:induction false} Unfold(asks: seq<Level>, bought: seq<real>)
    requires asks != [] && |bought| == |asks|
    ensures Cost(asks, bought) == Paid(asks[0], bought[0]) + Cost(asks[1..], bought[1..])
    ensures Total(bought) == bought[0] + Total(bought[1..])
  {
  }

  lemma {:induction false} UnfoldGreedy(asks: seq<Level>, notional: real)
    requires asks != [] && AllValid(asks)
    ensures var take := Min(notional, Notional(asks[0]));
            && Paid(asks[0], Greedy(asks, notional)[0]) == take
            && Greedy(asks, notional)[1..] == Greedy(asks[1..], notional - take)
  {
    Undo(Min(notional, Notional(asks[0])), asks[0].price);
  }

  // ---------------------------------------------------------------- single levels

  lemma {:induction false} Times(a: real, b: real)
    requires 0.0 <= a && 0.0 <= b
    ensures 0.0 <= a * b && (0.0 < a && 0.0 < b ==> 0.0 < a * b)
  {
  }

  lemma {:induction false} TimesMono(a: real, b: real, c: real)
    requires a <= b && 0.0 <= c
    ensures a * c <= b * c && c * a <= c * b
  {
    Times(b - a, c);
  }

  lemma {:induction false} Undo(a: real, p: real)
    requires 0.0 < p
    ensures a / p * p == a && p * (a / p) == a
  {
  }

  lemma {:induction false} DivideMono(a: real, b: real, p: real)
    requires a <= b && 0.0 < p
    ensures a / p <= b / p
  {
    DivideSum(a, b - a, p);
  }

  lemma {:induction false} DivideSum(a: real, b: real, p: real)
    requires 0.0 < p
    ensures (a + b) / p == a / p + b / p
  {
  }

  /** A dearer price buys no more. */
  lemma {:induction false} DearerBuysLess(a: real, p: real, q: real)
    requires 0.0 <= a && 0.0 < p <= q
    ensures 0.0 <= a / q <= a / p
  {
    Undo(a, p);
    Undo(a, q);
    DivideMono(0.0, a, q);
    TimesMono(p, q, a / q);
    DivideMono(a / q * p, a, p);
    assert a / q * p / p == a / q;
  }

  lemma {:induction false} NotionalPositive(l: Level)
    requires Valid(l)
    ensures 0.0 < Notional(l) && Notional(l) / l.price == l.size
  {
    Times(l.price, l.size);
  }

  // ---------------------------------------------------------------- the greedy fill, level by level

  lemma {:induction false} SharesOfNothing(asks: seq<Level>)
    requires AllValid(asks)
    ensures Shares(asks, 0.0) == 0.0
  {
    if asks != [] {
      NotionalPositive(asks[0]);
      SharesOfNothing(asks[1..]);
      assert 0.0 / asks[0].price == 0.0;
    }
  }

  /** Spending `more` on top buys at least nothing and at most `more` at the cheapest price. */
  lemma {:induction false} SharesGrowSlowly(asks: seq<Level>, x: real, more: real, p: real)
    requires AllValid(asks) && AtLeast(asks, p) && 0.0 < p && 0.0 <= x && 0.0 <= more
    ensures Shares(asks, x) <= Shares(asks, x + more) <= Shares(asks, x) + more / p
  {
    DearerBuysLess(more, p, p);
    if asks != [] {
      var q, n := asks[0].price, Notional(asks[0]);
      var t, u := Min(x, n), Min(x + more, n);
      NotionalPositive(asks[0]);
      SharesGrowSlowly(asks[1..], x - t, more - (u - t), p);
      DivideSum(t, u - t, q);
      DivideSum(u - t, more - (u - t), p);
      DearerBuysLess(u - t, p, q);
      assert x - t + (more - (u - t)) == x + more - u;
    }
  }

  /** The greedy fill never buys more than a level offers, spends everything it can, and buys `Shares`. */
  lemma {:induction false} GreedyIsFeasible(asks: seq<Level>, x: real)
    requires AllValid(asks) && 0.0 <= x
    ensures Feasible(asks, Greedy(asks, x)) && Total(Greedy(asks, x)) == Shares(asks, x)
  {
    if asks != [] {
      var l := asks[0];
      var take := Min(x, Notional(l));
      NotionalPositive(l);
      GreedyIsFeasible(asks[1..], x - take);
      DivideMono(0.0, take, l.price);
      DivideMono(take, Notional(l), l.price);
      var rest := Greedy(asks[1..], x - take);
      assert Greedy(asks, x) == [take / l.price] + rest && ([take / l.price] + rest)[1..] == rest;
    }
  }

  lemma {:induction false} GreedySpends(asks: seq<Level>, x: real)
    requires AllValid(asks) && 0.0 <= x
    ensures Cost(asks, Greedy(asks, x)) == Min(x, Depth(asks)) && 0.0 <= Depth(asks)
  {
    hide Cost, Greedy;
    if asks == [] {
      CostOfNothing(Greedy(asks, x));
    } else {
      var l := asks[0];
      var take := Min(x, Notional(l));
      NotionalPositive(l);
      GreedySpends(asks[1..], x - take);
      UnfoldGreedy(asks, x);
      Unfold(asks, Greedy(asks, x));
    }
  }

  lemma {:induction false} CostOfNothing(bought: seq<real>)
    requires bought == []
    ensures Cost([], bought) == 0.0
  {
  }

  /** No other way to spend at most the same notional buys more. */
  lemma {:induction false} GreedyIsBest(asks: seq<Level>, bought: seq<real>, x: real)
    requires AllValid(asks) && Ascending(asks) && Feasible(asks, bought) && Cost(asks, bought) <= x
    ensures Total(bought) <= Shares(asks, x) && 0.0 <= Cost(asks, bought)
  {
    if asks != [] {
      FeasibleParts(asks, bought);
      AscendingTail(asks);
      hide Cost, Total, Feasible, AllValid, Ascending, Shares, Notional, Paid;
      var cost := Paid(asks[0], bought[0]);
      Unfold(asks, bought);
      GreedyIsBest(asks[1..], bought[1..], x - cost);
      HeadIsBest(asks, cost, x);
    }
  }

  lemma {:induction false} AscendingTail(asks: seq<Level>)
    requires asks != [] && AllValid(asks) && Ascending(asks)
    ensures AllValid(asks[1..]) && Ascending(asks[1..])
  {
  }

  lemma {:induction false} FeasibleParts(asks: seq<Level>, bought: seq<real>)
    requires asks != [] && AllValid(asks) && Feasible(asks, bought)
    ensures Feasible(asks[1..], bought[1..])
    ensures 0.0 <= Paid(asks[0], bought[0]) <= Notional(asks[0])
    ensures Paid(asks[0], bought[0]) / asks[0].price == bought[0]
  {
    Times(asks[0].price, bought[0]);
    TimesMono(bought[0], asks[0].size, asks[0].price);
  }

  /** Spending less on the cheapest level than the greedy fill does buys no more. */
  lemma {:induction false} HeadIsBest(asks: seq<Level>, cost: real, x: real)
    requires asks != [] && AllValid(asks) && Ascending(asks) && 0.0 <= cost <= Min(x, Notional(asks[0]))
    ensures cost / asks[0].price + Shares(asks[1..], x - cost) <= Shares(asks, x)
  {
    hide Notional;
    var take := Min(x, Notional(asks[0]));
    SharesGrowSlowly(asks[1..], x - take, take - cost, asks[0].price);
    assert x - take + (take - cost) == x - cost;
    DivideSum(take - cost, cost, asks[0].price);
  }

  // ---------------------------------------------------------------- the average price

  lemma {:induction false} HeadCost(price: real, amount: real, low: real, high: real)
    requires 0.0 <= amount && (0.0 < amount ==> low <= price <= high)
    ensures low * amount <= price * amount <= high * amount
  {
    if 0.0 < amount {
      TimesMono(low, price, amount);
      TimesMono(price, high, amount);
    }
  }

  /** What is bought between two prices costs, on average, between those prices. */
  lemma {:induction false} CostBetweenPrices(asks: seq<Level>, bought: seq<real>, low: real, high: real)
    requires Feasible(asks, bought)
    requires forall i :: 0 <= i < |asks| && 0.0 < bought[i] ==> low <= asks[i].price <= high
    ensures low * Total(bought) <= Cost(asks, bought) <= high * Total(bought)
  {
    if asks != [] {
      hide Cost, Total;
      var rest := bought[1..];
      assert forall i :: 0 <= i < |rest| ==> rest[i] == bought[i + 1];
      CostBetweenPrices(asks[1..], rest, low, high);
      Unfold(asks, bought);
      HeadCost(asks[0].price, bought[0], low, high);
      Spread(low, bought[0], Total(rest));
      Spread(high, bought[0], Total(rest));
    }
  }

  lemma {:induction false} Spread(p: real, a: real, b: real)
    ensures p * (a + b) == p * a + p * b
  {
  }

  lemma {:induction false} OnePrice(x: real, y: real, p: real)
    requires 0.0 < p
    ensures x * (y / p) == y * (x / p)
  {
  }

  lemma {:induction false} FirstLevelShares(asks: seq<Level>, x: real)
    requires asks != [] && AllValid(asks) && 0.0 <= x
    ensures x <= Notional(asks[0]) ==> Shares(asks, x) == x / asks[0].price
    ensures x > Notional(asks[0]) ==>
      Shares(asks, x) == Notional(asks[0]) / asks[0].price + Shares(asks[1..], x - Notional(asks[0]))
  {
    SharesOfNothing(asks[1..]);
  }

  lemma {:induction false} SharesAtBestPrice(asks: seq<Level>, x: real)
    requires asks != [] && AllValid(asks) && Ascending(asks) && 0.0 <= x
    ensures 0.0 <= Shares(asks, x) <= x / asks[0].price
  {
    SharesOfNothing(asks);
    SharesGrowSlowly(asks, 0.0, x, asks[0].price);
  }

  /** Spending more never lowers the average price: shares grow no faster than the notional. */
  lemma {:induction false} AveragePriceGrows(asks: seq<Level>, x: real, y: real)
    requires AllValid(asks) && Ascending(asks) && 0.0 <= x <= y
    ensures x * Shares(asks, y) <= y * Shares(asks, x)
  {
    hide Shares;
    if asks == [] {
      SharesOfEmpty(x);
      SharesOfEmpty(y);
    } else {
      var p, n, rest := asks[0].price, Notional(asks[0]), asks[1..];
      FirstLevelShares(asks, x);
      FirstLevelShares(asks, y);
      if x <= n {
        SharesAtBestPrice(asks, y);
        TimesMono(Shares(asks, y), y / p, x);
        OnePrice(x, y, p);
      } else {
        AveragePriceGrows(rest, x - n, y - n);
        NotionalPositive(asks[0]);
        SharesGrowSlowly(rest, x - n, y - x, p);
        Chord(n, p, x - n, y - n, Shares(rest, x - n), Shares(rest, y - n));
      }
    }
  }

  lemma {:induction false} SharesOfEmpty(x: real)
    ensures Shares([], x) == 0.0
  {
  }

  lemma {:induction false} Chord(n: real, p: real, x: real, y: real, g: real, h: real)
    requires 0.0 < n && 0.0 < p && x <= y && x * h <= y * g && h - g <= (y - x) / p
    ensures (x + n) * (n / p + h) <= (y + n) * (n / p + g)
  {
    TimesMono(h - g, (y - x) / p, n);
    var s := n / p;
    assert n * ((y - x) / p) == (y - x) * s;
    assert (x + n) * (s + h) == x * s + x * h + n * s + n * h;
    assert (y + n) * (s + g) == y * s + y * g + n * s + n * g;
  }
}
