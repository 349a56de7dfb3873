/** Every field of a quote, told from the levels of the book as the venue sent them. */
module OrderQuotes {
  import opened Common
  import opened OrderBook
  import opened OrderFill
  import opened OrderExecution

  /** A level with a price strictly between nothing and a dollar, and something to sell. */
  predicate Sells(raw: RawLevel) {
    && raw.price.Some? && raw.size.Some?
    && 0.0 < raw.price.value && raw.price.value < 1.0 && 0.0 < raw.size.value
  }

  /** What all levels that sell ask for together. */
  function Offered(book: seq<RawLevel>): real {
    if book == [] then 0.0
    else
      var last := book[|book| - 1];
      Offered(book[..|book| - 1]) + (if Sells(last) then last.price.value * last.size.value else 0.0)
  }

  /** `p` is the lowest price at which any level sells. */
  ghost predicate Cheapest(book: seq<RawLevel>, p: real) {
    && (exists i :: 0 <= i < |book| && Sells(book[i]) && book[i].price.value == p)
    && (forall i :: 0 <= i < |book| && Sells(book[i]) ==> p <= book[i].price.value)
  }

  /** A whole number of millionths, as near as can be. */
  predicate NearestMillionth(rounded: real, exact: real) {
    && rounded * 1000000.0 == (rounded * 1000000.0).Floor as real
    && rounded - 0.0000005 <= exact < rounded + 0.0000005
  }

  // ---------------------------------------------------------------- the asks and the book

  lemma {:induction false} DepthWithInserted(l: Level, levels: seq<Level>)
    ensures Depth(Insert(l, levels)) == Notional(l) + Depth(levels)
  {
    hide Notional;
    if levels == [] || l.price < levels[0].price {
      assert ([l] + levels)[1..] == levels;
    } else {
      DepthWithInserted(l, levels[1..]);
      assert ([levels[0]] + Insert(l, levels[1..]))[1..] == Insert(l, levels[1..]);
    }
  }

  lemma {:induction false} DepthIsOffered(book: seq<RawLevel>)
    ensures Depth(ValidAskLevels(book)) == Offered(book)
  {
    if book != [] {
      var init, last := book[..|book| - 1], book[|book| - 1];
      DepthIsOffered(init);
      if Sells(last) {
        DepthWithInserted(Level(last.price.value, last.size.value), ValidAskLevels(init));
      }
    }
  }

  /** A level is among the asks exactly when some level of the book sells it. */
  lemma {:induction false} AskSells(book: seq<RawLevel>, l: Level)
    ensures l in ValidAskLevels(book) <==>
              exists i :: 0 <= i < |book| && Sells(book[i]) && book[i].price.value == l.price
                          && book[i].size.value == l.size
  {
    AsksCount(book, l);
    var asks := ValidAskLevels(book);
    hide ValidAskLevels;
    assert l in asks <==> l in multiset(asks);
    if Valid(l) && Raw(l) in multiset(book) {
      var i :| 0 <= i < |book| && book[i] == Raw(l);
      assert Sells(book[i]);
    }
    if i :| 0 <= i < |book| && Sells(book[i]) && book[i].price.value == l.price && book[i].size.value == l.size {
      assert book[i] == Raw(l) && Raw(l) in multiset(book);
    }
  }

  lemma {:induction false} FirstAskIsCheapest(book: seq<RawLevel>)
    requires ValidAskLevels(book) != []
    ensures Cheapest(book, ValidAskLevels(book)[0].price)
  {
    var asks := ValidAskLevels(book);
    AsksAreSorted(book);
    hide ValidAskLevels, Ascending;
    AskSells(book, asks[0]);
    forall i | 0 <= i < |book| && Sells(book[i])
      ensures asks[0].price <= book[i].price.value
    {
      var l := Level(book[i].price.value, book[i].size.value);
      AskSells(book, l);
      BestIsCheapest(asks, l);
    }
  }

  lemma {:induction false} NoAsks(book: seq<RawLevel>)
    ensures ValidAskLevels(book) == [] <==> forall i :: 0 <= i < |book| ==> !Sells(book[i])
  {
    var asks := ValidAskLevels(book);
    hide ValidAskLevels;
    forall i | 0 <= i < |book| && Sells(book[i])
      ensures asks != []
    {
      AskSells(book, Level(book[i].price.value, book[i].size.value));
    }
    if asks != [] {
      AskSells(book, asks[0]);
    }
  }

  lemma {:induction false} RoundedToMillionths(x: real)
    ensures NearestMillionth(RoundPrice(x), x)
  {
    RoundNear(x);
    var whole := (x * 1_000_000.0 + 0.5).Floor;
    assert RoundPrice(x) * 1000000.0 == whole as real;
  }

  // ---------------------------------------------------------------- the quote

  /**
   There is a quote exactly when some level sells. It shows the lowest price and the rounded worth of all levels;
   without a positive amount that price is the executable one, and with one it is the average price, which is there
   exactly when the book is deep enough.
   */
  lemma {:induction false} QuoteMeans(book: seq<RawLevel>, notional: Option<real>)
    ensures ExecutionOf(book, notional).None? <==> forall i :: 0 <= i < |book| ==> !Sells(book[i])
    ensures ExecutionOf(book, notional).Some? ==>
              var e := ExecutionOf(book, notional).value;
              && Cheapest(book, e.bestAsk) && NearestMillionth(e.available, Offered(book))
              && if notional.None? || notional.value <= 0.0 then
                   && e.executable == Some(e.bestAsk) && e.vwap == None && e.requested == None && e.sufficient
                   && e.source == ClobAsk
                 else
                   && e.executable == e.vwap && e.requested == notional && e.source == ClobVwap
                   && (e.vwap.Some? <==> e.sufficient)
                   && (e.sufficient <==> notional.value <= e.available + 0.000001
                                         && notional.value <= Offered(book) + 0.000001)
  {
    NoAsks(book);
    DepthIsOffered(book);
    RoundedToMillionths(Offered(book));
    AsksAreSorted(book);
    var asks := ValidAskLevels(book);
    hide ValidAskLevels, RoundPrice, Depth, Shares, Cheapest, NearestMillionth, Offered, Sells;
    if asks != [] {
      FirstAskIsCheapest(book);
      if notional.Some? && 0.0 < notional.value {
        RefusedOnlyForDepth(book, notional.value);
      }
    }
  }
}
