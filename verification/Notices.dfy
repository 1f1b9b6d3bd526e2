/** When the listeners of a book are called: runs of events through a book with one source of bids. */
module Notices {
  import opened PriceLevels
  import opened LevelSides
  import opened OrderSources
  import opened SourceRuns
  import opened BookMerge

  // ---------- the objects ----------

  lemma OneSource(levels: seq<Level>)
    requires IsBook(levels, true) && |levels| <= MAX_PRICE_LEVELS
    requires forall i :: 0 <= i < |levels| ==> levels[i].price > 0.0
    ensures NotWorse(Top(Book(Flat([levels]), true)), 0.0, true) == levels
  {
    var one, none: seq<seq<Level>> := [levels], [];
    assert one[..0] == none;
    assert Flat(one) == levels;
    SortedIsBook(levels, true);
    NotWorseIs(levels, 0.0, true, |levels|);
  }

  lemma OneClock(times: seq<int>, was: seq<int>, levels: seq<Level>, clock: seq<int>)
    requires IsBook(levels, true) && |levels| <= |clock| && Clocked([levels], [clock])
    requires forall i :: 0 <= i < |levels| ==> levels[i].price > 0.0
    requires TimesWritten(times, was, [levels], [clock], levels, |levels|, 0.0)
    ensures times[..|levels|] == clock[..|levels|]
  {
    hide IsLatest;
    forall i | 0 <= i < |levels| ensures times[i] == clock[i] {
      assert IsLatest(times[i], [levels], [clock], levels[i].price, 0.0);
      OneTime(times[i], levels, clock, i);
    }
  }

  lemma OneTime(time: int, levels: seq<Level>, clock: seq<int>, i: nat)
    requires Sorted(levels, true) && i < |levels| <= |clock| && levels[i].price > 0.0
    requires Clocked([levels], [clock]) && IsLatest(time, [levels], [clock], levels[i].price, 0.0)
    ensures time == clock[i]
  {
    assert [levels][0][i].price == levels[i].price;
    var j: nat, x: nat :| && j < |[levels]| && x < |[levels][j]| && [levels][j][x].price == levels[i].price
                          && [clock][j][x] == time;
    assert j == 0 && x == i;
  }

  /** The update of a book with one source: its bids become a copy of those published. */
  method UpdateFromOne(book: PriceLevelBook, source: OrderSource) returns (notified: bool)
    requires book.Valid() && book.srcBids == [source.finalBids] && book.srcAsks == [source.finalAsks]
    requires source.Valid() && source.bids.updated && !source.asks.updated && source.finalAsks.count == 0
    requires Buys(source.finalBids.State().levels)
    requires source.bids != book.bids && source.asks != book.asks
    modifies book, book.bids, book.bids.levels, book.asks, book.asks.levels
    ensures book.Valid()
    ensures CellsOf(book) == old(CellsOf(book)).Write(old(source.finalBids.State().levels),
                                                      old(source.finalBids.times[..source.finalBids.count]))
    ensures notified <==> old(CellsOf(book)).Differs(old(source.finalBids.State().levels),
                                                     old(source.finalBids.times[..source.finalBids.count]))
  {
    hide CellsChanged, TimesWritten, NotWorse, Top, Book, Flat;
    ghost var was := CellsOf(book);
    ghost var final := source.finalBids;
    ghost var levels, nothing: seq<Level> := final.State().levels, [];
    OneSource(levels);
    notified := book.Update(source.bids, source.asks, [levels], [nothing], [final.times], [source.finalAsks.times]);
    OneClock(book.bids.times, was.times, levels, final.times);
    OldTimes(book.bids.times, was.times, levels, final.times);
    CellsWritten(was, book, notified, levels, final.times[..final.count]);
  }

  lemma OldTimes(times: seq<int>, was: seq<int>, levels: seq<Level>, clock: seq<int>)
    requires Clocked([levels], [clock]) && |levels| <= |was|
    requires TimesWritten(times, was, [levels], [clock], levels, |levels|, 0.0)
    ensures |times| == |was| && times[|levels|..] == was[|levels|..]
  {
    hide IsLatest;
  }

  lemma CellsWritten(was: Cells, book: PriceLevelBook, notified: bool, levels: seq<Level>, times: seq<int>)
    requires book.Valid() && was.Valid() && book.bids.State().levels == levels && |times| == |levels|
    requires book.bids.times[..book.bids.count] == times
    requires book.bids.levels[book.bids.count..] == was.levels[book.bids.count..]
    requires book.bids.times[book.bids.count..] == was.times[book.bids.count..]
    requires notified <==> CellsChanged(was.levels, was.times, book.bids)
    requires book.bidsCount == if notified then book.bids.count else was.shown
    ensures CellsOf(book) == was.Write(levels, times) && (notified <==> was.Differs(levels, times))
  {
    var n := book.bids.count;
    assert |book.bids.State().levels| == n;
    assert book.bids.levels[..] == book.bids.levels[..n] + book.bids.levels[n..];
    assert book.bids.times == book.bids.times[..n] + book.bids.times[n..];
  }

  /** Levels that the start value of the merge does not cut */
  ghost predicate Buys(levels: seq<Level>) {
    Positive(levels) && forall i :: 0 <= i < |levels| ==> levels[i].price > 0.0
  }

  /** A book over one source, which has never seen anything but buys */
  ghost predicate Joins(book: PriceLevelBook, source: OrderSource)
    reads book, book.bids, book.bids.levels, book.asks, book.asks.levels,
          source, source.snapshot, source.snapshot.elements, source.bids, source.bids.levels, source.asks,
          source.asks.levels, source.finalBids, source.finalBids.levels, source.finalAsks, source.finalAsks.levels
    ensures Joins(book, source) ==> source.Valid() && book.Valid()
  {
    && source.Valid() && book.Valid() && source.feed == MARKET
    && book.srcBids == [source.finalBids] && book.srcAsks == [source.finalAsks]
    && {source.bids, source.asks, source.finalBids, source.finalAsks} !! {book.bids, book.asks}
    && {source.bids.levels, source.asks.levels, source.finalBids.levels, source.finalAsks.levels}
       !! {book.bids.levels, book.asks.levels}
  }

  /** The objects that change, but for the array of orders */
  ghost function Kept(book: PriceLevelBook, source: OrderSource): set<object> {
    {book, book.bids, book.bids.levels, book.asks, book.asks.levels, source, source.snapshot, source.bids,
     source.bids.levels, source.asks, source.asks.levels, source.finalBids, source.finalBids.levels,
     source.finalAsks, source.finalAsks.levels}
  }

  /** What the cells of the bids of a book hold: levels and their times, how many are in use, and how many
      its listeners were told of */
  datatype Cells = Cells(levels: seq<Level>, times: seq<int>, count: nat, shown: nat) {

    ghost predicate Valid() {
      |levels| == |times| == MAX_PRICE_LEVELS
    }

    /** Writing these levels would change a cell. */
    predicate Differs(newLevels: seq<Level>, newTimes: seq<int>)
      requires Valid() && |newLevels| == |newTimes| <= MAX_PRICE_LEVELS
    {
      newLevels != levels[..|newLevels|] || newTimes != times[..|newTimes|]
    }

    function Write(newLevels: seq<Level>, newTimes: seq<int>): (c: Cells)
      requires Valid() && |newLevels| == |newTimes| <= MAX_PRICE_LEVELS
      ensures c.Valid()
    {
      var n := |newLevels|;
      Cells(newLevels + levels[n..], newTimes + times[n..], n, if Differs(newLevels, newTimes) then n else shown)
    }
  }

  /** The cells of a book over one source after these events */
  ghost function CellsAfter(es: seq<Event>): (c: Cells)
    ensures c.Valid()
  {
    if es == [] then Cells(NO_LEVELS, NO_TIMES, 0, 0)
    else
      var before := CellsAfter(es[..|es| - 1]);
      if Published(MARKET, es) then before.Write(Run(MARKET, es).finalBids, RunTimes(MARKET, es).finalBids) else before
  }

  /** The last of these events has the listeners called. */
  ghost predicate Notifies(es: seq<Event>) {
    Published(MARKET, es) &&
    CellsAfter(es[..|es| - 1]).Differs(Run(MARKET, es).finalBids, RunTimes(MARKET, es).finalBids)
  }

  /** Which of the events have the listeners called */
  ghost function NoticesOf(es: seq<Event>): seq<bool> {
    if es == [] then [] else NoticesOf(es[..|es| - 1]) + [Notifies(es)]
  }

  /** All that is ever published are bids that the start value of the merge does not cut. */
  ghost predicate OnlyBuys(es: seq<Event>) {
    forall n :: 0 <= n <= |es| ==> OnlyBids(Run(MARKET, es[..n]))
  }

  ghost predicate OnlyBids(s: SourceState) {
    Buys(s.finalBids) && !s.asks.updated && s.finalAsks == []
  }

  ghost function CellsOf(book: PriceLevelBook): Cells
    reads book, book.bids, book.bids.levels
  {
    Cells(book.bids.levels[..], book.bids.times, book.bids.count, book.bidsCount)
  }

  /** A new book over a new source takes in these events. */
  method Play(es: seq<Event>) returns (source: OrderSource, book: PriceLevelBook, notices: seq<bool>)
    requires OnlyBuys(es)
    ensures Joins(book, source) && source.State() == Run(MARKET, es) && source.Clock() == RunTimes(MARKET, es)
    ensures CellsOf(book) == CellsAfter(es)
    ensures notices == NoticesOf(es)
  {
    hide Kept, Joins, CellsAfter, Notifies, NoticesOf, Run, RunTimes, Published, SourceState.Step, Times.Step;
    hide OnlyBids, Cells.Write, Cells.Differs;
    source, book := Fresh();
    NothingYet();
    notices := [];
    for i := 0 to |es|
      invariant fresh(Kept(book, source)) && fresh(source.snapshot.elements)
      invariant Joins(book, source)
      invariant source.State() == Run(MARKET, es[..i]) && source.Clock() == RunTimes(MARKET, es[..i])
      invariant CellsOf(book) == CellsAfter(es[..i])
      invariant notices == NoticesOf(es[..i])
    {
      OneEventMore(es, i);
      assert OnlyBids(Run(MARKET, es[..i + 1]));
      var notified := Tell(book, source, es[i]);
      notices := notices + [notified];
    }
    assert es[..|es|] == es;
  }

  /** A new book over a new source */
  method Fresh() returns (source: OrderSource, book: PriceLevelBook)
    ensures fresh(Kept(book, source)) && fresh(source.snapshot.elements)
    ensures Joins(book, source) && source.State() == Created && source.Clock() == Times([], [], [], [])
    ensures CellsOf(book) == Cells(NO_LEVELS, NO_TIMES, 0, 0)
  {
    hide OrderSource.Valid, OrderSource.State, OrderSource.Clock;
    source := new OrderSource(MARKET);
    book := new PriceLevelBook([source.finalBids], [source.finalAsks]);
    assert |book.bids.State().levels| == book.bids.count;
  }

  lemma NothingYet()
    ensures Run(MARKET, []) == Created && RunTimes(MARKET, []) == Times([], [], [], [])
    ensures CellsAfter([]) == Cells(NO_LEVELS, NO_TIMES, 0, 0) && NoticesOf([]) == []
  {}

  lemma OneEventMore(es: seq<Event>, i: nat)
    requires i < |es|
    ensures var (s, t) := (Run(MARKET, es[..i]), RunTimes(MARKET, es[..i]));
            && Run(MARKET, es[..i + 1]) == s.Step(MARKET, es[i]).0
            && Published(MARKET, es[..i + 1]) == s.Step(MARKET, es[i]).1
            && RunTimes(MARKET, es[..i + 1]) == t.Step(s, MARKET, es[i])
            && CellsAfter(es[..i + 1]) ==
               (if s.Step(MARKET, es[i]).1
                then CellsAfter(es[..i]).Write(s.Step(MARKET, es[i]).0.finalBids, t.Step(s, MARKET, es[i]).finalBids)
                else CellsAfter(es[..i]))
            && NoticesOf(es[..i + 1]) ==
               NoticesOf(es[..i]) +
               [s.Step(MARKET, es[i]).1 &&
                CellsAfter(es[..i]).Differs(s.Step(MARKET, es[i]).0.finalBids, t.Step(s, MARKET, es[i]).finalBids)]
  {
    assert es[..i + 1][..i] == es[..i];
  }

  /** An event is taken in by the source and, when it is published, the book is updated. */
  method Tell(book: PriceLevelBook, source: OrderSource, e: Event) returns (notified: bool)
    requires Joins(book, source) && OnlyBids(source.State().Step(MARKET, e).0)
    modifies Kept(book, source), source.snapshot.elements
    ensures Joins(book, source)
    ensures source.snapshot.elements == old(source.snapshot.elements) || fresh(source.snapshot.elements)
    ensures source.State() == old(source.State().Step(MARKET, e).0)
    ensures source.Clock() == old(source.Clock().Step(source.State(), MARKET, e))
    ensures CellsOf(book) == if old(source.State().Step(MARKET, e).1)
                             then old(CellsOf(book)).Write(source.State().finalBids, source.Clock().finalBids)
                             else old(CellsOf(book))
    ensures notified <==> old(source.State().Step(MARKET, e).1) &&
                          old(CellsOf(book)).Differs(source.State().finalBids, source.Clock().finalBids)
  {
    hide SourceState.Step, Times.Step, Buys, PriceLevelBook.Valid, Cells.Write, Cells.Differs;
    assert book.Valid();
    notified := false;
    ghost var was := source.State();
    var published := source.OnEvent(e);
    assert book.Valid();
    if published {
      PublishedBids(was, e);
      Flags(source);
      notified := UpdateFromOne(book, source);
    }
  }

  lemma PublishedBids(s: SourceState, e: Event)
    requires s.Step(MARKET, e).1 && !s.Step(MARKET, e).0.asks.updated
    ensures s.Step(MARKET, e).0.bids.updated
  {
    hide SourceState.Processed, BestLevels;
  }

  lemma Flags(source: OrderSource)
    requires source.Valid()
    ensures source.State().bids.updated == source.bids.updated && source.State().asks.updated == source.asks.updated
  {}

  // ---------- the states they go through ----------

  lemma AddedToNone(l: Level)
    ensures Top(Insert([], l, true)) == [l] && HasPrice([l], l.price)
    ensures Rank([], l.price, true) == 0
  {
    assert [l][0].price == l.price;
  }

  lemma AddedOnTop(levels: seq<Level>, m: Level)
    requires |levels| == 1 && levels[0].price == m.price
    ensures Top(Insert(levels, m, true)) == [Level(m.price, levels[0].size + m.size)]
    ensures HasPrice(Top(Insert(levels, m, true)), m.price)
    ensures Rank(levels, m.price, true) == 0
  {
    assert Insert(levels, m, true)[0].price == m.price;
  }

  lemma TakenOff(levels: seq<Level>, m: Level)
    requires |levels| == 1 && levels[0].price == m.price
    ensures HasPrice(levels, m.price) && Reduce(levels, m) == [Level(m.price, levels[0].size - m.size)]
    ensures SizeLeft(levels, m) == levels[0].size - m.size && Rank(levels, m.price, true) == 0
  {
    assert levels[0].price == m.price;
  }

  lemma AddedBelow(levels: seq<Level>, m: Level)
    requires |levels| == 1 && levels[0].price > m.price
    ensures Top(Insert(levels, m, true)) == [levels[0], m]
    ensures HasPrice(Top(Insert(levels, m, true)), m.price)
    ensures Rank(levels, m.price, true) == 1
  {
    assert Insert(levels[1..], m, true) == [m];
    assert Insert(levels, m, true) == [levels[0], m];
    assert Insert(levels, m, true)[1].price == m.price;
    assert Rank(levels[1..], m.price, true) == 0;
  }

  lemma PlacedOnOnly(times: seq<int>, levels: seq<Level>, p: real, time: int)
    requires |times| == |levels| == 1 && levels[0].price == p
    ensures TimesAdded(times, levels, p, time, true) == [time]
  {
    assert Rank(levels, p, true) == 0;
  }

  /** The side is rebuilt from one order, or from two at one price, whose level gets the time of the
      second. */
  lemma RebuiltFromOne(a: Order)
    requires a.side == Buy && a.size > 0.0
    ensures BestLevels([a], Buy) == [LevelOf(a)] && LevelTimes([a], Buy) == [a.time]
  {
    NothingRebuilt([a], Buy);
    BestLevelsStep([a], Buy, 0);
    LevelTimesStep([a], Buy, 0);
    AddedToNone(LevelOf(a));
    assert [a][..1] == [a];
  }

  lemma RebuiltFromTwo(a: Order, b: Order)
    requires a.side == b.side == Buy && a.size > 0.0 && b.size > 0.0 && a.price == b.price
    ensures BestLevels([a, b], Buy) == [Level(a.price, a.size + b.size)] && LevelTimes([a, b], Buy) == [b.time]
  {
    hide BestLevels, LevelTimes, Insert, Rank, Top, TimesPlaced;
    var both := [a, b];
    RebuiltFromOne(a);
    assert both[..1] == [a] && both[..2] == both;
    BestLevelsStep(both, Buy, 1);
    LevelTimesStep(both, Buy, 1);
    AddedOnTop(BestLevels(both[..1], Buy), LevelOf(b));
    PlacedOnOnly(LevelTimes(both[..1], Buy), BestLevels(both[..1], Buy), b.price, b.time);
  }


  /** A settled source whose bids show as they are */
  ghost predicate Holds(s: SourceState, t: Times, orders: seq<Order>, levels: seq<Level>, times: seq<int>) {
    && s == SourceState(orders, SideState(levels, false, true), SideState([], false, false), levels, [], Full)
    && t == Times(times, [], times, []) && t.Of(s)
  }

  lemma Bought(s: SourceState, t: Times, orders: seq<Order>, levels: seq<Level>, times: seq<int>, o: Order, pos: nat)
    requires t.Of(s) && SortedByIndex(orders) && pos <= |orders|
    requires Holds(s, t, orders, levels, times) ||
             (s == Created && t == Times([], [], [], []) && orders == [] && levels == [] && times == [])
    requires pos > 0 ==> orders[pos - 1].index < o.index
    requires pos < |orders| ==> o.index < orders[pos].index
    requires o.side == Buy && o.size > 0.0 && HasPrice(Top(Insert(levels, LevelOf(o), true)), o.price)
    ensures var e := Listing(o);
            && s.Handle(e).1
            && Holds(s.Handle(e).0, t.Handle(s, e), orders[..pos] + [o] + orders[pos..],
                     Top(Insert(levels, LevelOf(o), true)), TimesAdded(times, levels, o.price, o.time, true))
  {
    hide Insert, Top, Rank, HasPrice, TimesPlaced, Sorted;
    PositionIs(orders, o.index, pos);
  }

  lemma BoughtAgain(s: SourceState, t: Times, was: Order, time: int, o: Order)
    requires Holds(s, t, [was], [LevelOf(was)], [time]) && was.size > 0.0
    requires o == Order(was.index, was.price, was.size, Buy, o.time) && was.side == Buy
    ensures var e := Listing(o);
            s.Handle(e).1 && Holds(s.Handle(e).0, t.Handle(s, e), [o], [LevelOf(o)], [was.time])
  {
    hide Insert, Top, Rank, HasPrice, TimesPlaced, Sorted, Reduce, SizeLeft;
    assert [was][0].index == o.index;
    PositionIs([was], o.index, 0);
    AddedOnTop([LevelOf(was)], LevelOf(o));
    TakenOff([Level(was.price, was.size + was.size)], LevelOf(was));
    assert [was][0 := o] == [o];
  }

  lemma Gone(s: SourceState, t: Times, orders: seq<Order>, levels: seq<Level>, times: seq<int>, pos: nat)
    requires Holds(s, t, orders, levels, times) && SortedByIndex(orders) && pos < |orders| && orders[pos].side == Buy
    requires HasPrice(levels, orders[pos].price) && SizeLeft(levels, LevelOf(orders[pos])) <= 0.0
    ensures var e, rest := Removal(orders[pos]), orders[..pos] + orders[pos + 1..];
            && s.Handle(e).1
            && Holds(s.Handle(e).0, t.Handle(s, e), rest, BestLevels(rest, Buy), LevelTimes(rest, Buy))
  {
    hide Insert, Top, Rank, HasPrice, TimesPlaced, Sorted, Reduce, SizeLeft, BestLevels, LevelTimes;
    PositionIs(orders, orders[pos].index, pos);
  }

  // ---------- the runs ----------

  /** After these events the source and its times are such, and the cells of the book too. */
  ghost predicate After(es: seq<Event>, orders: seq<Order>, levels: seq<Level>, times: seq<int>) {
    Holds(Run(MARKET, es), RunTimes(MARKET, es), orders, levels, times)
  }

  lemma IsBuy(l: Level)
    requires l.price > 0.0 && l.size > 0.0
    ensures Buys([l]) && |[l]| == 1
  {}

  lemma TwoBuys(l: Level, m: Level)
    requires l.price > 0.0 && l.size > 0.0 && m.price > 0.0 && m.size > 0.0
    ensures Buys([l, m])
  {}

  lemma FirstBought(s: SourceState, t: Times, o: Order)
    requires s == Created && t == Times([], [], [], []) && o.side == Buy && o.size > 0.0
    ensures var e := Listing(o);
            s.Handle(e).1 && Holds(s.Handle(e).0, t.Handle(s, e), [o], [LevelOf(o)], [o.time])
  {
    hide SourceState.Handle, Times.Handle;
    AddedToNone(LevelOf(o));
    Bought(s, t, [], [], [], o, 0);
    assert [] + [o] + [] == [o];
    assert [] + [o.time] + [] == [o.time];
  }

  /** An order below the only level */
  lemma BoughtBelow(s: SourceState, t: Times, orders: seq<Order>, l: Level, time: int, o: Order)
    requires Holds(s, t, orders, [l], [time]) && SortedByIndex(orders)
    requires orders != [] && orders[|orders| - 1].index < o.index
    requires o.side == Buy && o.size > 0.0 && l.price > o.price
    ensures var e := Listing(o);
            && s.Handle(e).1
            && Holds(s.Handle(e).0, t.Handle(s, e), orders + [o], [l, LevelOf(o)], [time, o.time])
  {
    hide SourceState.Handle, Times.Handle, Insert, Top, Rank;
    AddedBelow([l], LevelOf(o));
    Bought(s, t, orders, [l], [time], o, |orders|);
    assert orders[..|orders|] + [o] + orders[|orders|..] == orders + [o];
    assert [time][..1] + [o.time] + [time][1..] == [time, o.time];
  }

  /** The last order leaves, and with it the lower of two levels. */
  lemma LastGone(s: SourceState, t: Times, orders: seq<Order>, o: Order, l: Level, times: seq<int>)
    requires Holds(s, t, orders + [o], [l, LevelOf(o)], times) && SortedByIndex(orders + [o])
    requires o.side == Buy && l.price > o.price
    ensures var e := Removal(o);
            && s.Handle(e).1
            && Holds(s.Handle(e).0, t.Handle(s, e), orders, BestLevels(orders, Buy), LevelTimes(orders, Buy))
  {
    hide SourceState.Handle, Times.Handle, BestLevels, LevelTimes;
    var levels := [l, LevelOf(o)];
    assert levels[1].price == o.price;
    assert SizeLeft(levels[1..], LevelOf(o)) == 0.0;
    assert (orders + [o])[..|orders|] + (orders + [o])[|orders| + 1..] == orders;
    Gone(s, t, orders + [o], levels, times, |orders|);
  }

  /** An order at the price of the only level, before the order that is there */
  lemma BoughtOnTop(s: SourceState, t: Times, a: Order, l: Level, o: Order)
    requires Holds(s, t, [a], [l], [a.time]) && o.index < a.index
    requires o.side == Buy && o.size > 0.0 && l.price == o.price
    ensures var e := Listing(o);
            && s.Handle(e).1
            && Holds(s.Handle(e).0, t.Handle(s, e), [o, a], [Level(l.price, l.size + o.size)], [o.time])
  {
    hide SourceState.Handle, Times.Handle, Insert, Top, Rank;
    AddedOnTop([l], LevelOf(o));
    Bought(s, t, [a], [l], [a.time], o, 0);
    assert [a][..0] + [o] + [a][0..] == [o, a];
    assert [a.time][0 := o.time] == [o.time];
  }

  /** One more event that is published */
  lemma Next(es: seq<Event>, e: Event, orders: seq<Order>, levels: seq<Level>, times: seq<int>)
    requires MARKET.Accepts(e) && OnlyBuys(es) && Buys(levels) && Run(MARKET, es).Handle(e).1
    requires Holds(Run(MARKET, es).Handle(e).0, RunTimes(MARKET, es).Handle(Run(MARKET, es), e), orders, levels, times)
    ensures After(es + [e], orders, levels, times) && OnlyBuys(es + [e])
    ensures |levels| == |times| <= MAX_PRICE_LEVELS
    ensures CellsAfter(es + [e]) == CellsAfter(es).Write(levels, times)
    ensures Notifies(es + [e]) <==> CellsAfter(es).Differs(levels, times)
  {
    hide SourceState.Handle, Times.Handle, Buys;
    var more := es + [e];
    assert more[..|es|] == es;
    forall n | 0 <= n <= |more| ensures OnlyBids(Run(MARKET, more[..n])) {
      if n <= |es| { assert more[..n] == es[..n]; } else { assert more[..n] == more; }
    }
  }

  lemma Begun()
    ensures OnlyBuys([])
  {
    var none: seq<Event> := [];
    assert none[..0] == none;
  }

  /** An order listed three times at the times 1, 2 and 3: the second listing changes nothing, the third
      nothing but the time of the level, and the listeners are called for that. */
  lemma TimeAloneNotifies()
    ensures var a, b, c := Order(1, 10.0, 5.0, Buy, 1), Order(1, 10.0, 5.0, Buy, 2), Order(1, 10.0, 5.0, Buy, 3);
            var es := [] + [Listing(a)] + [Listing(b)];
            OnlyBuys(es + [Listing(c)]) && !Notifies(es) && Notifies(es + [Listing(c)])
  {
    hide SourceState.Handle, Times.Handle, OnlyBuys, Buys, CellsAfter, Run, RunTimes, Notifies;
    var a, b, c := Order(1, 10.0, 5.0, Buy, 1), Order(1, 10.0, 5.0, Buy, 2), Order(1, 10.0, 5.0, Buy, 3);
    var l := LevelOf(a);
    NothingYet();
    Begun();
    IsBuy(l);
    var es: seq<Event> := [];
    FirstBought(Run(MARKET, es), RunTimes(MARKET, es), a);
    Next(es, Listing(a), [a], [l], [1]);
    es := es + [Listing(a)];
    BoughtAgain(Run(MARKET, es), RunTimes(MARKET, es), a, 1, b);
    Next(es, Listing(b), [b], [l], [1]);
    es := es + [Listing(b)];
    BoughtAgain(Run(MARKET, es), RunTimes(MARKET, es), b, 1, c);
    Next(es, Listing(c), [c], [l], [2]);
    assert [1][0] != [2][0];
  }

  /** The run that lists two buys, one below the other */
  function TwoListed(a: Order, low: Order): seq<Event> {
    [] + [Listing(a)] + [Listing(low)]
  }

  lemma TwoShown(a: Order, low: Order)
    requires a.side == Buy && a.price > 0.0 && a.size > 0.0
    requires low.side == Buy && low.price > 0.0 && low.size > 0.0 && a.price > low.price && a.index < low.index
    ensures var es, levels, times := TwoListed(a, low), [LevelOf(a), LevelOf(low)], [a.time, low.time];
            && OnlyBuys(es) && After(es, [a, low], levels, times)
            && CellsAfter(es).levels[..2] == levels && CellsAfter(es).times[..2] == times
            && CellsAfter(es).count == CellsAfter(es).shown == 2
  {
    hide SourceState.Handle, Times.Handle, OnlyBuys, Buys, CellsAfter, Run, RunTimes, Notifies;
    NothingYet();
    Begun();
    IsBuy(LevelOf(a));
    TwoBuys(LevelOf(a), LevelOf(low));
    var es: seq<Event> := [];
    FirstBought(Run(MARKET, es), RunTimes(MARKET, es), a);
    Next(es, Listing(a), [a], [LevelOf(a)], [a.time]);
    es := es + [Listing(a)];
    assert CellsAfter(es).levels[1] == EMPTY != LevelOf(low);
    BoughtBelow(Run(MARKET, es), RunTimes(MARKET, es), [a], LevelOf(a), a.time, low);
    Next(es, Listing(low), [a, low], [LevelOf(a), LevelOf(low)], [a.time, low.time]);
    assert CellsAfter(es).levels[..2][1] == EMPTY;
    assert [LevelOf(a), LevelOf(low)][1] == LevelOf(low);
  }

  /** A side that gets shorter and longer without notice: of two levels the lower is used up, and the
      side is rebuilt from the order that is left. The listeners are not called, and they go on seeing
      two levels where there is one. Nor are they when the order is listed again at the same time. */
  lemma ShrinkIsSilent()
    ensures var a, low := Order(1, 10.0, 5.0, Buy, 3), Order(2, 9.0, 2.0, Buy, 4);
            var es := TwoListed(a, low) + [Removal(low)];
            && OnlyBuys(es + [Listing(low)])
            && !Notifies(es) && CellsAfter(es).count == 1 && CellsAfter(es).shown == 2
            && !Notifies(es + [Listing(low)])
  {
    hide SourceState.Handle, Times.Handle, OnlyBuys, Buys, CellsAfter, Run, RunTimes, Notifies, BestLevels, LevelTimes;
    var a, low := Order(1, 10.0, 5.0, Buy, 3), Order(2, 9.0, 2.0, Buy, 4);
    var es, levels, times := TwoListed(a, low), [LevelOf(a), LevelOf(low)], [3, 4];
    TwoShown(a, low);
    IsBuy(LevelOf(a));
    TwoBuys(LevelOf(a), LevelOf(low));
    LastGone(Run(MARKET, es), RunTimes(MARKET, es), [a], low, LevelOf(a), times);
    RebuiltFromOne(a);
    Next(es, Removal(low), [a], [LevelOf(a)], [3]);
    var c := CellsAfter(es);
    assert c.levels[..1] == levels[..1] == [LevelOf(a)] && c.times[..1] == times[..1] == [3];
    es := es + [Removal(low)];
    BoughtBelow(Run(MARKET, es), RunTimes(MARKET, es), [a], LevelOf(a), 3, low);
    Next(es, Listing(low), [a, low], levels, times);
    assert CellsAfter(es).levels == c.levels && CellsAfter(es).times == c.times;
  }

  /** The run that lists three buys, the second at the price and before the order of the first, the
      third below them */
  function ThreeListed(a: Order, b: Order, low: Order): seq<Event> {
    [] + [Listing(a)] + [Listing(b)] + [Listing(low)]
  }

  lemma ThreeShown(a: Order, b: Order, low: Order)
    requires a.side == Buy && a.price > 0.0 && a.size > 0.0
    requires b.side == Buy && b.price == a.price && b.size > 0.0 && b.index < a.index
    requires low.side == Buy && low.price > 0.0 && low.size > 0.0 && a.price > low.price && a.index < low.index
    ensures var both := Level(a.price, a.size + b.size);
            var es, levels, times := ThreeListed(a, b, low), [both, LevelOf(low)], [b.time, low.time];
            && OnlyBuys(es) && After(es, [b, a] + [low], levels, times)
            && CellsAfter(es).levels[..2] == levels && CellsAfter(es).times[..2] == times
  {
    hide SourceState.Handle, Times.Handle, OnlyBuys, Buys, CellsAfter, Run, RunTimes, Notifies;
    var both := Level(a.price, a.size + b.size);
    NothingYet();
    Begun();
    IsBuy(LevelOf(a));
    IsBuy(both);
    TwoBuys(both, LevelOf(low));
    var es: seq<Event> := [];
    FirstBought(Run(MARKET, es), RunTimes(MARKET, es), a);
    Next(es, Listing(a), [a], [LevelOf(a)], [a.time]);
    es := es + [Listing(a)];
    BoughtOnTop(Run(MARKET, es), RunTimes(MARKET, es), a, LevelOf(a), b);
    Next(es, Listing(b), [b, a], [both], [b.time]);
    es := es + [Listing(b)];
    BoughtBelow(Run(MARKET, es), RunTimes(MARKET, es), [b, a], both, b.time, low);
    Next(es, Listing(low), [b, a] + [low], [both, LevelOf(low)], [b.time, low.time]);
  }

  /** A side that gets shorter with notice and longer without: rebuilding from two orders at one price,
      the later of them first in the snapshot, leaves an earlier time on the level that stays. When the
      order below is then listed again, its cell still holds it, and the listeners do not hear of it. */
  lemma ShrinkWithNotice()
    ensures var b, a := Order(1, 10.0, 5.0, Buy, 5), Order(2, 10.0, 2.0, Buy, 3);
            var low := Order(3, 9.0, 2.0, Buy, 6);
            var es := ThreeListed(a, b, low) + [Removal(low)];
            var more := es + [Listing(low)];
            && OnlyBuys(more)
            && Notifies(es) && CellsAfter(es).count == CellsAfter(es).shown == 1
            && !Notifies(more) && CellsAfter(more).count == 2 && CellsAfter(more).shown == 1
  {
    hide SourceState.Handle, Times.Handle, OnlyBuys, Buys, CellsAfter, Run, RunTimes, Notifies, BestLevels, LevelTimes;
    var b, a := Order(1, 10.0, 5.0, Buy, 5), Order(2, 10.0, 2.0, Buy, 3);
    var low, both := Order(3, 9.0, 2.0, Buy, 6), Level(10.0, 7.0);
    var es, levels := ThreeListed(a, b, low), [both, LevelOf(low)];
    ThreeShown(a, b, low);
    IsBuy(both);
    TwoBuys(both, LevelOf(low));
    LastGone(Run(MARKET, es), RunTimes(MARKET, es), [b, a], low, both, [5, 6]);
    RebuiltFromTwo(b, a);
    Next(es, Removal(low), [b, a], [both], [3]);
    var c := CellsAfter(es);
    assert c.levels[..1] == levels[..1] == [both] && c.times[..1] == [5];
    assert [3][0] != [5][0];
    assert c.levels[1] == levels[1] && c.times[1] == [5, 6][1];
    es := es + [Removal(low)];
    var d := CellsAfter(es);
    assert d.levels[..2] == levels && d.times[..2] == [3, 6];
    BoughtBelow(Run(MARKET, es), RunTimes(MARKET, es), [b, a], both, 3, low);
    Next(es, Listing(low), [b, a] + [low], levels, [3, 6]);
  }
}
