/** The listener of order sources at work on the objects: a source takes in an event and, when it
    publishes, the book that joins it with other sources is merged anew. */
module MarketListener {
  import opened PriceLevels
  import opened LevelSides
  import opened OrderSources
  import opened SourceRuns
  import opened BookMerge
  import opened MarketBook

  /** The objects of a source that its listener may change */
  ghost function Parts(s: OrderSource): set<object>
    reads s.snapshot
  {
    Kept(s) + {s.snapshot.elements}
  }

  /** All of them but the array of orders, which grows */
  ghost function Kept(s: OrderSource): set<object> {
    {s, s.snapshot, s.bids, s.bids.levels, s.asks, s.asks.levels,
     s.finalBids, s.finalBids.levels, s.finalAsks, s.finalAsks.levels}
  }

  ghost function AllParts(sources: seq<OrderSource>): set<object>
    reads set s | s in sources :: s.snapshot
  {
    set s, o | s in sources && o in Parts(s) :: o
  }

  ghost function BookParts(book: PriceLevelBook): set<object> {
    {book, book.bids, book.bids.levels, book.asks, book.asks.levels}
  }

  ghost predicate AllApart(sources: seq<OrderSource>)
    reads set s | s in sources :: s.snapshot
  {
    forall i, j :: 0 <= i < j < |sources| ==> Parts(sources[i]) !! Parts(sources[j])
  }

  /** No two of the objects share anything. */
  ghost predicate Apart(sources: seq<OrderSource>, book: PriceLevelBook)
    reads set s | s in sources :: s.snapshot
  {
    && AllApart(sources)
    && forall i :: 0 <= i < |sources| ==> Parts(sources[i]) !! BookParts(book)
  }

  /** A side is waiting for a rebuild or has no level that is used up. */
  ghost predicate Booked(side: SideState) {
    side.rebuild || Positive(side.levels)
  }

  ghost predicate BothBooked(s: SourceState) {
    Booked(s.bids) && Booked(s.asks)
  }

  /** A state that events can bring about whose sizes are quantities, also in the middle of a snapshot
      or a transaction, and also when an order without a side has made the asks wrong */
  ghost predicate Reachable(s: SourceState) {
    && InOrder(s) && s.status != Unknown && BothBooked(s)
    && Positive(s.finalBids) && Positive(s.finalAsks)
  }

  ghost predicate Sound(s: OrderSource)
    reads s, s.snapshot, Parts(s)
  {
    s.Valid() && Reachable(s.State())
  }

  ghost predicate AllSound(sources: seq<OrderSource>)
    reads set s | s in sources :: s.snapshot, sources, AllParts(sources)
  {
    forall j :: 0 <= j < |sources| ==> Sound(sources[j])
  }

  /** A book that merges these sources */
  ghost predicate Joined(sources: seq<OrderSource>, book: PriceLevelBook)
    reads set s | s in sources :: s.snapshot, sources, AllParts(sources), BookParts(book)
  {
    && Apart(sources, book) && book.Valid() && AllSound(sources)
    && book.srcBids == FinalsOf(sources, Buy) && book.srcAsks == FinalsOf(sources, Sell)
  }

  function FinalsOf(sources: seq<OrderSource>, side: Side): seq<LevelSide> {
    seq(|sources|, j requires 0 <= j < |sources| => if side == Buy then sources[j].finalBids else sources[j].finalAsks)
  }

  lemma PartsIn(sources: seq<OrderSource>, j: nat)
    requires j < |sources|
    ensures Parts(sources[j]) <= AllParts(sources) && sources[j].snapshot in (set s | s in sources :: s.snapshot)
  {}

  ghost function StateAt(sources: seq<OrderSource>, j: nat): SourceState
    reads set s | s in sources :: s.snapshot, sources, AllParts(sources)
    requires AllSound(sources) && j < |sources|
  {
    PartsIn(sources, j);
    assert Sound(sources[j]);
    sources[j].State()
  }

  ghost function States(sources: seq<OrderSource>): seq<SourceState>
    reads set s | s in sources :: s.snapshot, sources, AllParts(sources)
    requires AllSound(sources)
  {
    seq(|sources|, j requires 0 <= j < |sources| && AllSound(sources)
                     reads set s | s in sources :: s.snapshot, sources, AllParts(sources) => StateAt(sources, j))
  }

  ghost function TimesOf(srcs: seq<LevelSide>): seq<seq<int>>
    reads srcs
  {
    seq(|srcs|, j requires 0 <= j < |srcs| reads srcs => srcs[j].times)
  }

  ghost function StateOf(sources: seq<OrderSource>, book: PriceLevelBook): Market
    reads set s | s in sources :: s.snapshot, sources, AllParts(sources), BookParts(book)
    requires Joined(sources, book)
  {
    Market(States(sources), book.bids.State().levels, book.asks.State().levels)
  }

  function Feeds(sources: seq<OrderSource>): seq<Feed> {
    seq(|sources|, j requires 0 <= j < |sources| => sources[j].feed)
  }

  /** All that the listeners of a book may look at: the cells of both sides and the counts they are told */
  datatype Display = Display(bids: seq<Level>, bidTimes: seq<int>, asks: seq<Level>, askTimes: seq<int>,
                             bidsCount: nat, asksCount: nat)

  ghost function DisplayOf(book: PriceLevelBook): Display
    reads book, book.bids, book.bids.levels, book.asks, book.asks.levels
  {
    Display(book.bids.levels[..], book.bids.times, book.asks.levels[..], book.asks.times,
            book.bidsCount, book.asksCount)
  }

  /** The listeners are called exactly if a cell still in use was given another price, size or time; they
      are told the counts then, and otherwise nothing they may look at has changed. */
  ghost predicate ToldRightly(was: Display, book: PriceLevelBook, notified: bool)
    reads book, book.bids, book.bids.levels, book.asks, book.asks.levels
  {
    && book.Valid() && |was.bids| == |was.bidTimes| == |was.asks| == |was.askTimes| == MAX_PRICE_LEVELS
    && (notified <==>
          CellsChanged(was.bids, was.bidTimes, book.bids) || CellsChanged(was.asks, was.askTimes, book.asks))
    && (notified ==> book.bidsCount == book.bids.count && book.asksCount == book.asks.count)
    && (!notified ==> DisplayOf(book) == was)
  }

  /** The listeners see these levels: so many cells as they were told. */
  ghost predicate Sees(d: Display, bids: seq<Level>, asks: seq<Level>) {
    d.bidsCount <= |d.bids| && d.asksCount <= |d.asks| && d.bids[..d.bidsCount] == bids && d.asks[..d.asksCount] == asks
  }

  /** The published sides of sources, whatever state they are in, are what a merge asks for. */
  lemma SidesAreBooks(sources: seq<OrderSource>, side: Side)
    requires AllSound(sources) && side != Undefined
    ensures var srcs, sides := FinalsOf(sources, side), Finals(States(sources), side);
            && Views(srcs, sides, side == Buy) && Clocks(srcs, TimesOf(srcs)) && Clocked(sides, TimesOf(srcs))
            && AllBooks(sides, side == Buy)
  {
    forall j | 0 <= j < |sources|
      ensures var final := FinalsOf(sources, side)[j];
              final.Valid() && IsBook(Finals(States(sources), side)[j], side == Buy)
    {
      assert Sound(sources[j]);
    }
  }

  lemma BestLevelsPositive(orders: seq<Order>, side: Side)
    requires AllSized(orders)
    ensures Positive(BestLevels(orders, side))
  {
    RowsPositive(orders, side);
    BookIsAggregate(Rows(orders, side), side == Buy);
  }

  lemma {:induction false} InsertPositive(levels: seq<Level>, l: Level, bid: bool)
    requires Positive(levels) && l.size > 0.0
    ensures Positive(Insert(levels, l, bid))
  {
    if levels != [] && levels[0].price != l.price && !Better(bid, l.price, levels[0].price) {
      InsertPositive(levels[1..], l, bid);
    }
  }

  lemma {:induction false} ReducePositive(levels: seq<Level>, l: Level)
    requires Positive(levels) && (HasPrice(levels, l.price) ==> SizeLeft(levels, l) > 0.0)
    ensures Positive(Reduce(levels, l))
  {
    if levels != [] {
      assert levels[0].price == l.price ==> HasPrice(levels, l.price);
      if levels[0].price != l.price {
        assert forall i :: 0 <= i < |levels| - 1 ==> levels[1..][i] == levels[i + 1];
        ReducePositive(levels[1..], l);
      }
    }
  }

  lemma AddBooked(side: SideState, l: Level, bid: bool)
    requires Booked(side) && l.size > 0.0
    ensures Booked(side.Add(l, bid))
  {
    if !side.rebuild { InsertPositive(side.levels, l, bid); }
  }

  lemma RemoveBooked(side: SideState, l: Level)
    requires Booked(side)
    ensures Booked(side.Remove(l))
  {
    if !side.Remove(l).rebuild { ReducePositive(side.levels, l); }
  }

  lemma EnterBooked(s: SourceState, o: Order)
    requires BothBooked(s) && o.size > 0.0
    ensures BothBooked(s.Enter(o))
  {
    AddBooked(SideOf(s, o.side == Buy), LevelOf(o), o.side == Buy);
  }

  lemma LeaveBooked(s: SourceState, o: Order)
    requires BothBooked(s)
    ensures BothBooked(s.Leave(o))
  {
    RemoveBooked(SideOf(s, o.side == Buy), LevelOf(o));
  }

  lemma ProcessOrderBooked(s: SourceState, o: Order, rm: bool)
    requires BothBooked(s) && (rm || Sized(o))
    ensures BothBooked(s.ProcessOrder(o, rm))
  {
    hide Booked, Position, SourceState.Enter, SourceState.Leave;
    var pos := Position(s.snapshot, o.index);
    if o.size > 0.0 { EnterBooked(s, o); }
    if pos < |s.snapshot| {
      LeaveBooked(s, s.snapshot[pos]);
      if o.size > 0.0 { LeaveBooked(s.Enter(o), s.snapshot[pos]); }
    }
  }

  lemma ProcessedBooked(s: SourceState, e: Event)
    requires BothBooked(s) && Quantity(e)
    ensures BothBooked(s.Processed(e))
  {
    hide SourceState.ProcessOrder;
    assert BothBooked(s.Started(e));
    ProcessOrderBooked(s.Started(e), e.order, e.Removes());
  }

  lemma SettledReachable(s: SourceState)
    requires Reachable(s)
    ensures Reachable(s.Settled().0)
  {
    hide BestLevels, SortedByIndex, AllSized;
    BestLevelsPositive(s.snapshot, Buy);
    BestLevelsPositive(s.snapshot, Sell);
  }

  lemma HandleStaysReachable(s: SourceState, e: Event)
    requires Reachable(s) && Quantity(e)
    ensures Reachable(s.Handle(e).0)
  {
    hide InOrder, BothBooked, Quantity, SourceState.Processed, SourceState.Settled, SourceState.Started;
    QuietInOrder(s);
    NeverUnknown(s, e);
    ProcessedInOrder(s, e);
    ProcessedBooked(s, e);
    FinalsProcessed(s, e);
    SettledReachable(s.Processed(e));
  }

  lemma QuietInOrder(s: SourceState)
    requires InOrder(s)
    ensures BothQuiet(s)
  {}

  /** One source takes in its event; nothing of the others changes. */
  method Receive(sources: seq<OrderSource>, j: nat, e: Event) returns (published: bool)
    requires AllSound(sources) && j < |sources|
    requires !Foreign(sources[j].feed, e) ==> Quantity(e)
    requires forall i :: 0 <= i < |sources| && i != j ==> Parts(sources[i]) !! Parts(sources[j])
    modifies Parts(sources[j])
    ensures Sound(sources[j])
    ensures sources[j].snapshot.elements == old(sources[j].snapshot.elements) || fresh(sources[j].snapshot.elements)
    ensures (sources[j].State(), published) == old(sources[j].State()).Step(sources[j].feed, e)
    ensures forall k :: 0 <= k < |sources| && k != j ==>
              Sound(sources[k]) && sources[k].State() == old(sources[k].State())
              && Parts(sources[k]) == old(Parts(sources[k]))
  {
    hide Reachable, OrderSource.Valid, OrderSource.State, SourceState.Handle, Quantity;
    ghost var was := sources[j].State();
    assert Sound(sources[j]);
    published := sources[j].OnEvent(e);
    forall k | 0 <= k < |sources| && k != j
      ensures Sound(sources[k]) && sources[k].State() == old(sources[k].State())
      ensures Parts(sources[k]) == old(Parts(sources[k]))
    {
      assert old(Sound(sources[k])) && old(Parts(sources[k]) !! Parts(sources[j]));
    }
    if sources[j].feed.Accepts(e) { HandleStaysReachable(was, e); }
  }

  /** The sources stay apart, each with its own objects. */
  method ReceiveApart(sources: seq<OrderSource>, j: nat, e: Event) returns (published: bool)
    requires AllSound(sources) && AllApart(sources) && j < |sources|
    requires !Foreign(sources[j].feed, e) ==> Quantity(e)
    modifies Parts(sources[j])
    ensures AllSound(sources) && AllApart(sources)
    ensures forall k :: 0 <= k < |sources| ==>
              sources[k].snapshot.elements == old(sources[k].snapshot.elements) || fresh(sources[k].snapshot.elements)
    ensures States(sources) == old(States(sources))[j := sources[j].State()]
    ensures (sources[j].State(), published) == old(sources[j].State()).Step(sources[j].feed, e)
  {
    hide Sound, OrderSource.Valid, OrderSource.State, SourceState.Step, Quantity;
    assert Sound(sources[j]);
    published := Receive(sources, j, e);
    forall i, k | 0 <= i < k < |sources| ensures Parts(sources[i]) !! Parts(sources[k]) {
      assert old(Parts(sources[i]) !! Parts(sources[k]));
    }
  }

  method ReceiveJoined(sources: seq<OrderSource>, book: PriceLevelBook, j: nat, e: Event) returns (published: bool)
    requires Joined(sources, book) && j < |sources|
    requires !Foreign(sources[j].feed, e) ==> Quantity(e)
    modifies Parts(sources[j])
    ensures Joined(sources, book)
    ensures forall k :: 0 <= k < |sources| ==>
              sources[k].snapshot.elements == old(sources[k].snapshot.elements) || fresh(sources[k].snapshot.elements)
    ensures book.bids.State() == old(book.bids.State()) && book.asks.State() == old(book.asks.State())
    ensures DisplayOf(book) == old(DisplayOf(book))
    ensures States(sources) == old(States(sources))[j := sources[j].State()]
    ensures (sources[j].State(), published) == old(sources[j].State()).Step(sources[j].feed, e)
  {
    hide AllSound, AllApart, OrderSource.Valid, OrderSource.State, SourceState.Step, PriceLevelBook.Valid;
    hide Quantity, States;
    assert book.Valid();
    published := ReceiveApart(sources, j, e);
    assert book.Valid();
  }

  /** dx_plb_book_update on the book that joins the sources; the requirements of the merge hold in
      whatever state the other sources are. */
  method UpdateBook(sources: seq<OrderSource>, book: PriceLevelBook, j: nat) returns (notified: bool)
    requires Joined(sources, book) && j < |sources|
    modifies BookParts(book)
    ensures book.Valid()
    ensures book.bids.State().levels == old(if sources[j].bids.updated then Merge(Finals(States(sources), Buy), Buy)
                                            else book.bids.State().levels)
    ensures book.asks.State().levels == old(if sources[j].asks.updated then Merge(Finals(States(sources), Sell), Sell)
                                            else book.asks.State().levels)
    ensures ToldRightly(old(DisplayOf(book)), book, notified)
  {
    hide Sound, Apart, Views, States, Finals, NotWorse, Top, Book, Clocked, TimesWritten, CellsChanged, ToldRightly;
    SidesAreBooks(sources, Buy);
    SidesAreBooks(sources, Sell);
    ghost var was, bids, asks := DisplayOf(book), Finals(States(sources), Buy), Finals(States(sources), Sell);
    ghost var fromBids, fromAsks := sources[j].bids.updated, sources[j].asks.updated;
    ghost var bidsInUse, asksInUse := book.bids.count, book.asks.count;
    notified := book.Update(sources[j].bids, sources[j].asks, bids, asks, TimesOf(book.srcBids), TimesOf(book.srcAsks));
    OldTimes(was.bidTimes, book.bids, bids, TimesOf(book.srcBids), 0.0);
    OldTimes(was.askTimes, book.asks, asks, TimesOf(book.srcAsks), LARGEST_ASK);
    UpdateTells(was, book, notified, fromBids, fromAsks, bidsInUse, asksInUse);
  }

  lemma UpdateTells(was: Display, book: PriceLevelBook, notified: bool, fromBids: bool, fromAsks: bool,
                    bidsInUse: nat, asksInUse: nat)
    requires book.Valid() && |was.bids| == |was.bidTimes| == |was.asks| == |was.askTimes| == MAX_PRICE_LEVELS
    requires book.bids.levels[book.bids.count..] == was.bids[book.bids.count..]
    requires book.asks.levels[book.asks.count..] == was.asks[book.asks.count..]
    requires book.bids.times[book.bids.count..] == was.bidTimes[book.bids.count..]
    requires book.asks.times[book.asks.count..] == was.askTimes[book.asks.count..]
    requires bidsInUse <= MAX_PRICE_LEVELS && asksInUse <= MAX_PRICE_LEVELS
    requires !fromBids ==> book.bids.State().levels == was.bids[..bidsInUse] && book.bids.times == was.bidTimes
    requires !fromAsks ==> book.asks.State().levels == was.asks[..asksInUse] && book.asks.times == was.askTimes
    requires notified <==> || (fromBids && CellsChanged(was.bids, was.bidTimes, book.bids))
                           || (fromAsks && CellsChanged(was.asks, was.askTimes, book.asks))
    requires if notified then book.bidsCount == book.bids.count && book.asksCount == book.asks.count
             else book.bidsCount == was.bidsCount && book.asksCount == was.asksCount
    ensures ToldRightly(was, book, notified)
  {
    if !fromBids { assert |book.bids.State().levels| == book.bids.count == bidsInUse; }
    if !fromAsks { assert |book.asks.State().levels| == book.asks.count == asksInUse; }
    UnwrittenIsSame(was.bids, was.bidTimes, book.bids);
    UnwrittenIsSame(was.asks, was.askTimes, book.asks);
  }

  lemma OldTimes(was: seq<int>, side: LevelSide, sides: seq<seq<Level>>, clocks: seq<seq<int>>, start: real)
    requires side.Valid() && |was| == MAX_PRICE_LEVELS && Clocked(sides, clocks)
    requires side.times == was || TimesWritten(side.times, was, sides, clocks, side.State().levels, side.count, start)
    ensures side.times[side.count..] == was[side.count..]
  {
    hide IsLatest;
  }

  /** Where no cell in use has changed and those out of use have not either, nothing has. */
  lemma UnwrittenIsSame(levels: seq<Level>, times: seq<int>, side: LevelSide)
    requires side.Valid() && |levels| == |times| == MAX_PRICE_LEVELS
    requires side.levels[side.count..] == levels[side.count..] && side.times[side.count..] == times[side.count..]
    ensures CellsChanged(levels, times, side) <==> side.levels[..] != levels || side.times != times
  {
    var n := side.count;
    assert side.levels[..] == side.levels[..n] + side.levels[n..] && levels == levels[..n] + levels[n..];
    assert side.times == side.times[..n] + side.times[n..] && times == times[..n] + times[n..];
    assert side.levels[..][..n] == side.levels[..n];
  }

  lemma Flags(s: OrderSource)
    requires s.Valid()
    ensures s.State().bids.updated == s.bids.updated && s.State().asks.updated == s.asks.updated
  {}

  method UpdateJoined(sources: seq<OrderSource>, book: PriceLevelBook, j: nat) returns (notified: bool)
    requires Joined(sources, book) && j < |sources|
    modifies BookParts(book)
    ensures Joined(sources, book) && States(sources) == old(States(sources))
    ensures forall k :: 0 <= k < |sources| ==> Parts(sources[k]) == old(Parts(sources[k]))
    ensures StateOf(sources, book) == old(StateOf(sources, book)).Updated(sources[j].State())
    ensures ToldRightly(old(DisplayOf(book)), book, notified)
  {
    hide Reachable, OrderSource.Valid, OrderSource.State, PriceLevelBook.Valid, Merge;
    assert Sound(sources[j]);
    Flags(sources[j]);
    notified := UpdateBook(sources, book, j);
    forall k | 0 <= k < |sources| ensures Sound(sources[k]) && sources[k].State() == old(sources[k].State())
      ensures Parts(sources[k]) == old(Parts(sources[k]))
    {
      assert old(Sound(sources[k]));
    }
  }

  /** plb_event_listener with the book it updates: one step of the market. */
  method Listen(sources: seq<OrderSource>, book: PriceLevelBook, a: Arrival) returns (published: bool, notified: bool)
    requires Joined(sources, book) && a.source < |sources|
    requires !Foreign(sources[a.source].feed, a.event) ==> Quantity(a.event)
    modifies Parts(sources[a.source]), BookParts(book)
    ensures Joined(sources, book)
    ensures StateOf(sources, book) == old(StateOf(sources, book)).Step(Feeds(sources), a)
    ensures ToldRightly(old(DisplayOf(book)), book, notified) && (notified ==> published)
    ensures forall k :: 0 <= k < |sources| ==>
              sources[k].snapshot.elements == old(sources[k].snapshot.elements) || fresh(sources[k].snapshot.elements)
  {
    hide Reachable, OrderSource.Valid, PriceLevelBook.Valid, ToldRightly, DisplayOf;
    ghost var m := StateOf(sources, book);
    assert m.sources[a.source] == sources[a.source].State();
    notified := false;
    published := ReceiveJoined(sources, book, a.source, a.event);
    assert StateOf(sources, book) == m.(sources := m.sources[a.source := sources[a.source].State()]);
    if published {
      notified := UpdateJoined(sources, book, a.source);
    } else {
      NothingTold(book);
    }
  }

  lemma NothingTold(book: PriceLevelBook)
    requires book.Valid()
    ensures ToldRightly(DisplayOf(book), book, false)
  {}

  ghost predicate IsNew(s: OrderSource)
    reads s, s.snapshot, Parts(s)
  {
    Sound(s) && s.State() == Created
  }

  method NewSource(feed: Feed) returns (s: OrderSource)
    ensures fresh(Parts(s)) && s.feed == feed && IsNew(s)
  {
    CreatedIsReachable();
    s := new OrderSource(feed);
  }

  method NewSources(feeds: seq<Feed>) returns (sources: seq<OrderSource>, ghost all: set<object>)
    ensures |sources| == |feeds| && forall j :: 0 <= j < |feeds| ==> sources[j].feed == feeds[j]
    ensures all == AllParts(sources) && fresh(all)
    ensures forall i, j :: 0 <= i < j < |sources| ==> Parts(sources[i]) !! Parts(sources[j])
    ensures forall j :: 0 <= j < |sources| ==> Parts(sources[j]) <= all && IsNew(sources[j])
  {
    hide IsNew, Parts, AllParts;
    sources, all := [], {};
    NoParts();
    for i := 0 to |feeds|
      invariant |sources| == i && forall j :: 0 <= j < i ==> sources[j].feed == feeds[j]
      invariant all == AllParts(sources) && fresh(all)
      invariant forall k, j :: 0 <= k < j < i ==> Parts(sources[k]) !! Parts(sources[j])
      invariant forall j :: 0 <= j < i ==> Parts(sources[j]) <= all && IsNew(sources[j])
    {
      var source := NewSource(feeds[i]);
      PartsOfMore(sources, source);
      sources, all := sources + [source], all + Parts(source);
    }
  }

  lemma NoParts()
    ensures AllParts([]) == {}
  {}

  lemma PartsOfMore(sources: seq<OrderSource>, s: OrderSource)
    ensures AllParts(sources + [s]) == AllParts(sources) + Parts(s)
  {
    assert (sources + [s])[|sources|] == s;
    forall x | x in sources ensures x in sources + [s] {}
  }

  lemma CreatedIsReachable()
    ensures Reachable(Created)
  {}

  /** The sources a new book asks for, and the book: the market before anything has arrived. */
  method Open(feeds: seq<Feed>) returns (sources: seq<OrderSource>, book: PriceLevelBook)
    ensures Joined(sources, book) && fresh(BookParts(book))
    ensures forall k :: 0 <= k < |sources| ==> fresh(Parts(sources[k]))
    ensures Feeds(sources) == feeds && StateOf(sources, book) == MarketRun(feeds, [])
    ensures Sees(DisplayOf(book), [], [])
  {
    hide Sound, PriceLevelBook.Valid, AllParts, Parts, States, Sees, DisplayOf, IsNew;
    ghost var all;
    sources, all := NewSources(feeds);
    book := NewBook(sources);
    assert forall j :: 0 <= j < |sources| ==> IsNew(sources[j]);
    NewMarket(sources, book, feeds);
  }

  method NewBook(sources: seq<OrderSource>) returns (book: PriceLevelBook)
    ensures fresh(BookParts(book)) && book.Valid()
    ensures book.srcBids == FinalsOf(sources, Buy) && book.srcAsks == FinalsOf(sources, Sell)
    ensures book.bids.State().levels == [] && book.asks.State().levels == [] && Sees(DisplayOf(book), [], [])
  {
    book := new PriceLevelBook(FinalsOf(sources, Buy), FinalsOf(sources, Sell));
  }

  lemma NewMarket(sources: seq<OrderSource>, book: PriceLevelBook, feeds: seq<Feed>)
    requires book.Valid() && book.srcBids == FinalsOf(sources, Buy) && book.srcAsks == FinalsOf(sources, Sell)
    requires book.bids.State().levels == [] && book.asks.State().levels == [] && Apart(sources, book)
    requires |sources| == |feeds| && forall j :: 0 <= j < |sources| ==> IsNew(sources[j])
    ensures Joined(sources, book) && StateOf(sources, book) == MarketRun(feeds, [])
  {
    hide Sound, PriceLevelBook.Valid, AllParts, Apart;
  }

  /** How many arrivals there were up to the last one that had the listeners of the book called */
  function LastNotice(notices: seq<bool>): (n: nat)
    ensures n <= |notices|
  {
    if notices == [] then 0
    else if notices[|notices| - 1] then |notices| else LastNotice(notices[..|notices| - 1])
  }

  lemma SeesOn(was: Display, book: PriceLevelBook, notified: bool, bids: seq<Level>, asks: seq<Level>)
    requires ToldRightly(was, book, notified) && Sees(was, bids, asks)
    ensures if notified then Sees(DisplayOf(book), book.bids.State().levels, book.asks.State().levels)
            else Sees(DisplayOf(book), bids, asks)
  {}

  /** The listeners see the levels as of the last event that had them called. */
  ghost predicate SeesLastNotice(book: PriceLevelBook, feeds: seq<Feed>, arrivals: seq<Arrival>, notices: seq<bool>)
    requires ToSources(arrivals, |feeds|) && |notices| <= |arrivals|
    reads book, book.bids, book.bids.levels, book.asks, book.asks.levels
  {
    var told := MarketRun(feeds, arrivals[..LastNotice(notices)]);
    Sees(DisplayOf(book), told.bids, told.asks)
  }

  /** The next event arrives. */
  method ServeNext(sources: seq<OrderSource>, book: PriceLevelBook, ghost feeds: seq<Feed>, arrivals: seq<Arrival>,
                   i: nat, notices: seq<bool>) returns (notified: bool)
    requires Joined(sources, book) && Feeds(sources) == feeds && ToSources(arrivals, |feeds|)
    requires |notices| == i < |arrivals| && Quantity(arrivals[i].event)
    requires StateOf(sources, book) == MarketRun(feeds, arrivals[..i])
    requires SeesLastNotice(book, feeds, arrivals, notices)
    modifies Parts(sources[arrivals[i].source]), BookParts(book)
    ensures Joined(sources, book)
    ensures forall k :: 0 <= k < |sources| ==>
              sources[k].snapshot.elements == old(sources[k].snapshot.elements) || fresh(sources[k].snapshot.elements)
    ensures StateOf(sources, book) == MarketRun(feeds, arrivals[..i + 1])
    ensures SeesLastNotice(book, feeds, arrivals, notices + [notified])
  {
    hide Joined, StateOf, States, Parts, MarketRun, Quantity, ToldRightly, Sees, DisplayOf, LastNotice, Market.Step;
    OneMoreArrival(feeds, arrivals, i);
    ghost var was, told := DisplayOf(book), MarketRun(feeds, arrivals[..LastNotice(notices)]);
    var published;
    published, notified := Listen(sources, book, arrivals[i]);
    SeesOn(was, book, notified, told.bids, told.asks);
    LevelsOf(sources, book);
    OneMoreNotice(notices, notified);
  }

  /** The sources and the book after their events have arrived in this order, and which of the events
      had the listeners of the book called: these see the levels of the last such event. */
  method Serve(feeds: seq<Feed>, arrivals: seq<Arrival>)
    returns (sources: seq<OrderSource>, book: PriceLevelBook, notices: seq<bool>)
    requires ToSources(arrivals, |feeds|) && forall i :: 0 <= i < |arrivals| ==> Quantity(arrivals[i].event)
    ensures Joined(sources, book) && StateOf(sources, book) == MarketRun(feeds, arrivals)
    ensures |notices| == |arrivals| && SeesLastNotice(book, feeds, arrivals, notices)
  {
    hide Joined, StateOf, States, AllParts, Kept, MarketRun, Quantity, Sees, DisplayOf;
    sources, book := Open(feeds);
    notices := [];
    assert |sources| == |Feeds(sources)| && arrivals[..0] == [];
    NothingArrived(feeds);
    for i := 0 to |arrivals|
      invariant Joined(sources, book)
      invariant forall k :: 0 <= k < |sources| ==> fresh(sources[k].snapshot.elements)
      invariant StateOf(sources, book) == MarketRun(feeds, arrivals[..i])
      invariant |notices| == i && SeesLastNotice(book, feeds, arrivals, notices)
    {
      var notified := ServeNext(sources, book, feeds, arrivals, i, notices);
      notices := notices + [notified];
    }
    assert arrivals[..|arrivals|] == arrivals;
  }

  lemma NothingArrived(feeds: seq<Feed>)
    ensures MarketRun(feeds, []).bids == [] && MarketRun(feeds, []).asks == []
  {}

  lemma OneMoreNotice(notices: seq<bool>, notified: bool)
    ensures LastNotice(notices + [notified]) == if notified then |notices| + 1 else LastNotice(notices)
  {
    assert (notices + [notified])[..|notices|] == notices;
  }

  lemma LevelsOf(sources: seq<OrderSource>, book: PriceLevelBook)
    requires Joined(sources, book)
    ensures book.Valid() && StateOf(sources, book).bids == book.bids.State().levels
    ensures StateOf(sources, book).asks == book.asks.State().levels
  {}

  /** From end to end: whatever order the events arrive in, the two sides of the book the objects are
      left with are the best ten prices of all orders public at the last merge of each. Its listeners
      see the sides as of the last event they were called for: these share their cells with the sides
      of now, so that the shorter is the beginning of the longer, and the counts told are those of now
      exactly if both are the same. */
  method Replay(feeds: seq<Feed>, arrivals: seq<Arrival>)
    returns (bids: seq<Level>, asks: seq<Level>, seenBids: seq<Level>, seenAsks: seq<Level>, notices: seq<bool>)
    requires ToSources(arrivals, |feeds|) && forall i :: 0 <= i < |arrivals| ==> Quantity(arrivals[i].event)
    ensures RightWhenMerged(feeds, arrivals, Buy) ==> bids == Shown(MergedRows(feeds, arrivals, Buy), Buy)
    ensures RightWhenMerged(feeds, arrivals, Sell) ==> asks == Shown(MergedRows(feeds, arrivals, Sell), Sell)
    ensures |notices| == |arrivals|
    ensures var told := MarketRun(feeds, arrivals[..LastNotice(notices)]);
            seenBids == told.bids && seenAsks == told.asks
    ensures (bids <= seenBids || seenBids <= bids) && (asks <= seenAsks || seenAsks <= asks)
    ensures |seenBids| == |bids| <==> seenBids == bids
    ensures |seenAsks| == |asks| <==> seenAsks == asks
  {
    hide Shown, MergedRows, AllSound, Apart, MarketRun, RightWhenMerged;
    var sources, book;
    sources, book, notices := Serve(feeds, arrivals);
    if RightWhenMerged(feeds, arrivals, Buy) { BookIsLastMerge(feeds, arrivals, Buy); }
    if RightWhenMerged(feeds, arrivals, Sell) { BookIsLastMerge(feeds, arrivals, Sell); }
    bids, asks := book.bids.levels[..book.bids.count], book.asks.levels[..book.asks.count];
    seenBids, seenAsks := book.bids.levels[..book.bidsCount], book.asks.levels[..book.asksCount];
  }

  lemma OneMoreArrival(feeds: seq<Feed>, arrivals: seq<Arrival>, i: nat)
    requires ToSources(arrivals, |feeds|) && i < |arrivals|
    ensures MarketRun(feeds, arrivals[..i + 1]) == MarketRun(feeds, arrivals[..i]).Step(feeds, arrivals[i])
  {
    assert arrivals[..i + 1][..i] == arrivals[..i];
  }
}
