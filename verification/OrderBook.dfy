/** Buying a notional from the ask side of an order book, level by level, over exact reals. */
module OrderBook {
  import opened Common

  /** A level as the venue sends it: either number may be missing or unreadable. */
  datatype RawLevel = RawLevel(price: Option<real>, size: Option<real>)

  datatype Level = Level(price: real, size: real)

  datatype Source = ClobAsk | ClobVwap

  datatype Execution = Execution(bestAsk: real, executable: Option<real>, vwap: Option<real>,
                                 requested: Option<real>, available: real, sufficient: bool, source: Source)

  predicate Valid(l: Level) {
    0.0 < l.price < 1.0 && 0.0 < l.size
  }

  ghost predicate AllValid(levels: seq<Level>) {
    forall i :: 0 <= i < |levels| ==> Valid(levels[i])
  }

  ghost predicate AtLeast(levels: seq<Level>, p: real) {
    forall i :: 0 <= i < |levels| ==> p <= levels[i].price
  }

  ghost predicate Ascending(levels: seq<Level>) {
    levels == [] || (AtLeast(levels[1..], levels[0].price) && Ascending(levels[1..]))
  }

  // ---------------------------------------------------------------- filtering and sorting the asks

  function Raw(l: Level): RawLevel {
    RawLevel(Some(l.price), Some(l.size))
  }

  predicate Usable(raw: RawLevel) {
    raw.price.Some? && raw.size.Some? && Valid(Level(raw.price.value, raw.size.value))
  }

  /** Puts a level behind the levels of the same price. */
  function Insert(l: Level, levels: seq<Level>): seq<Level> {
    if levels == [] || l.price < levels[0].price then [l] + levels else [levels[0]] + Insert(l, levels[1..])
  }

  /** The usable levels, cheapest first. */
  function ValidAskLevels(book: seq<RawLevel>): seq<Level> {
    if book == [] then []
    else
      var rest, last := ValidAskLevels(book[..|book| - 1]), book[|book| - 1];
      if Usable(last) then Insert(Level(last.price.value, last.size.value), rest) else rest
  }

  lemma {:induction false} InsertMembers(l: Level, levels: seq<Level>)
    ensures multiset(Insert(l, levels)) == multiset{l} + multiset(levels)
  {
    if levels != [] && l.price >= levels[0].price {
      InsertMembers(l, levels[1..]);
      assert levels == [levels[0]] + levels[1..];
    }
  }

  lemma {:induction false} InsertAtLeast(l: Level, levels: seq<Level>, p: real)
    requires AtLeast(levels, p) && p <= l.price
    ensures AtLeast(Insert(l, levels), p)
  {
    if levels != [] && l.price >= levels[0].price {
      InsertAtLeast(l, levels[1..], p);
    }
  }

  lemma {:induction false} InsertAscending(l: Level, levels: seq<Level>)
    requires Ascending(levels)
    ensures Ascending(Insert(l, levels))
  {
    if levels == [] {
      assert ([l] + levels)[1..] == [];
    } else if l.price < levels[0].price {
      assert ([l] + levels)[1..] == levels;
    } else {
      InsertAscending(l, levels[1..]);
      InsertAtLeast(l, levels[1..], levels[0].price);
      assert ([levels[0]] + Insert(l, levels[1..]))[1..] == Insert(l, levels[1..]);
    }
  }

  lemma {:induction false} InsertValid(l: Level, levels: seq<Level>)
    requires AllValid(levels) && Valid(l)
    ensures AllValid(Insert(l, levels))
  {
    if levels != [] && l.price >= levels[0].price {
      InsertValid(l, levels[1..]);
    }
  }

  /** The sorted asks hold exactly the usable levels, each as often as the book does. */
  lemma {:induction false} AsksCount(book: seq<RawLevel>, l: Level)
    ensures multiset(ValidAskLevels(book))[l] == if Valid(l) then multiset(book)[Raw(l)] else 0
  {
    if book != [] {
      var init, last := book[..|book| - 1], book[|book| - 1];
      AsksCount(init, l);
      assert book == init + [last];
      if Usable(last) {
        var kept := Level(last.price.value, last.size.value);
        assert last == Raw(kept);
        InsertMembers(kept, ValidAskLevels(init));
      }
    }
  }

  lemma {:induction false} AsksAreSorted(book: seq<RawLevel>)
    ensures Ascending(ValidAskLevels(book)) && AllValid(ValidAskLevels(book))
  {
    if book != [] {
      var init, last := book[..|book| - 1], book[|book| - 1];
      AsksAreSorted(init);
      if Usable(last) {
        var kept := Level(last.price.value, last.size.value);
        InsertAscending(kept, ValidAskLevels(init));
        InsertValid(kept, ValidAskLevels(init));
      }
    }
  }

  /** Books with the same levels in another order have asks with the same levels. */
  lemma {:induction false} SameBookSameAsks(a: seq<RawLevel>, b: seq<RawLevel>)
    requires multiset(a) == multiset(b)
    ensures multiset(ValidAskLevels(a)) == multiset(ValidAskLevels(b))
  {
    forall l: Level
      ensures multiset(ValidAskLevels(a))[l] == multiset(ValidAskLevels(b))[l]
    {
      AsksCount(a, l);
      AsksCount(b, l);
    }
  }
}
