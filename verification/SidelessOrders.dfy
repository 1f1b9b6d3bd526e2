/** Orders without a side: the code enters them among the asks and forgets them when that side is
    rebuilt. */
module SidelessOrders {
  import opened PriceLevels
  import opened LevelSides
  import opened OrderSources
  import opened SourceRuns

  /** An order without a side shows among the asks although no sell order is live. */
  lemma UndefinedSideShows()
    ensures var order := Order(1, 10.0, 5.0, Undefined, 0);
            var s := Run(Feed("A", "NTV"), [Event(true, "A", "NTV", 0, order)]);
            s.status == Full && s.finalAsks == [Level(10.0, 5.0)] && BestLevels(s.snapshot, Sell) == []
  {
    var order := Order(1, 10.0, 5.0, Undefined, 0);
    var e := Event(true, "A", "NTV", 0, order);
    assert [e][..0] == [];
    assert Run(Feed("A", "NTV"), []) == Created;
    var p := Created.ProcessOrder(order, false);
    assert p.asks.levels == [Level(10.0, 5.0)];
    assert p.asks.levels[0].price == 10.0;
    assert [order][..0] == [];
  }

  // ---------- when the published asks are right ----------

  /** At the listing of an order without a side the asks, if published then, are right exactly when
      they are waiting for a rebuild or ten better prices hide the order. */
  lemma UndefinedSideExactly(s: SourceState, o: Order)
    requires Matches(s.asks, Rows(s.snapshot, Sell), false)
    requires BothQuiet(s)
    requires o.side == Undefined && o.size > 0.0
    requires !HasOrderAt(s.snapshot, Position(s.snapshot, o.index), o.index)
    ensures var t := s.ProcessOrder(o, false);
            t.Publish().finalAsks == BestLevels(t.snapshot, Sell) <==>
            s.asks.rebuild || Hidden(s.asks.levels, o.price, false)
  {
    hide BestLevels, Sorted, Better, Rows, Insert, Quiet;
    SidelessListed(s, o);
    BookIsAggregate(Rows(s.snapshot, Sell), false);
    if !s.asks.rebuild {
      TopUnmoved(s.asks.levels, LevelOf(o), false);
    }
    EnterStaysQuiet(s, o);
    PublishedAsks(s.ProcessOrder(o, false));
    ListedBest(s, o);
  }

  lemma ListedBest(s: SourceState, o: Order)
    requires o.side == Undefined && o.size > 0.0
    requires !HasOrderAt(s.snapshot, Position(s.snapshot, o.index), o.index)
    ensures BestLevels(s.ProcessOrder(o, false).snapshot, Sell) == Top(Book(Rows(s.snapshot, Sell), false))
  {
    HiddenFromRows(s.snapshot, o, Position(s.snapshot, o.index), Sell);
  }

  /** What a publication would show */
  lemma PublishedAsks(t: SourceState)
    requires Quiet(t.asks, t.finalAsks)
    ensures t.Publish().finalAsks == if t.asks.rebuild then BestLevels(t.snapshot, Sell) else t.asks.levels
  {}

  /** When an order without a side leaves asks that were right, the asks, if published then, stay
      right exactly when they are waiting for a rebuild, its price is not among the best ten, or the
      level it is wrongly taken from is used up, which makes the side wait for a rebuild. */
  lemma UndefinedSideLeftExactly(s: SourceState, o: Order, rm: bool)
    requires Matches(s.asks, Rows(s.snapshot, Sell), false) && Quiet(s.asks, s.finalAsks)
    requires var pos := Position(s.snapshot, o.index);
             && HasOrderAt(s.snapshot, pos, o.index) && s.snapshot[pos].side == Undefined && s.snapshot[pos].size > 0.0
    requires rm || o.size == 0.0
    ensures var was, t := LevelOf(s.snapshot[Position(s.snapshot, o.index)]), s.ProcessOrder(o, rm);
            t.Publish().finalAsks == BestLevels(t.snapshot, Sell) <==>
            s.asks.rebuild || !HasPrice(s.asks.levels, was.price) || SizeLeft(s.asks.levels, was) <= 0.0
  {
    hide BestLevels, Rows, Insert, Reduce, SizeLeft, HasPrice, Position, Top, Book, SourceState.Publish, Quiet;
    var was := s.snapshot[Position(s.snapshot, o.index)];
    var t := s.ProcessOrder(o, rm);
    assert t.asks == s.asks.Remove(LevelOf(was)) && t.finalAsks == s.finalAsks;
    RemoveStaysQuiet(s.asks, LevelOf(was), s.finalAsks);
    PublishedAsks(t);
    BestOfRest(s, o, rm);
    ReduceMoves(s.asks.levels, LevelOf(was));
  }

  lemma RemoveStaysQuiet(side: SideState, l: Level, final: seq<Level>)
    requires Quiet(side, final)
    ensures Quiet(side.Remove(l), final)
  {}

  lemma BestOfRest(s: SourceState, o: Order, rm: bool)
    requires var pos := Position(s.snapshot, o.index);
             HasOrderAt(s.snapshot, pos, o.index) && s.snapshot[pos].side == Undefined
    requires rm || o.size == 0.0
    ensures BestLevels(s.ProcessOrder(o, rm).snapshot, Sell) == Top(Book(Rows(s.snapshot, Sell), false))
  {
    hide Rows, Book, Top, Position, SourceState.Leave;
    HiddenFromRest(s.snapshot, Position(s.snapshot, o.index), o.index, Sell);
  }

  lemma HiddenFromRest(orders: seq<Order>, pos: nat, index: int, side: Side)
    requires pos < |orders| && orders[pos].side != side && side != Undefined
    ensures Rows(orders[..pos] + orders[pos + 1..], side) == Rows(orders, side)
    ensures Rows(orders[pos := Blank(index)], side) == Rows(orders, side)
  {
    var a, o, b := orders[..pos], orders[pos], orders[pos + 1..];
    assert a + [o] + b == orders && a + [Blank(index)] + b == orders[pos := Blank(index)];
    RowsAround(a, o, b, side);
    RowsAround(a, Blank(index), b, side);
  }

  lemma {:induction false} ReduceMoves(levels: seq<Level>, l: Level)
    requires l.size != 0.0
    ensures Reduce(levels, l) != levels <==> HasPrice(levels, l.price)
  {
    if HasPrice(levels, l.price) && levels[0].price != l.price {
      var i :| 0 <= i < |levels| && levels[i].price == l.price;
      assert levels[1..][i - 1].price == l.price;
      ReduceMoves(levels[1..], l);
      assert Reduce(levels, l)[1..] == Reduce(levels[1..], l);
    } else if !HasPrice(levels, l.price) {
      ReduceAbsent(levels, l);
    } else {
      assert Reduce(levels, l)[0] != levels[0];
    }
  }

  lemma SidelessListed(s: SourceState, o: Order)
    requires o.side == Undefined && o.size > 0.0
    requires var pos := Position(s.snapshot, o.index); !HasOrderAt(s.snapshot, pos, o.index)
    ensures var t, pos := s.ProcessOrder(o, false), Position(s.snapshot, o.index);
            && t.asks.levels == Top(Insert(s.asks.levels, LevelOf(o), false))
            && t.snapshot == s.snapshot[..pos] + [o] + s.snapshot[pos..]
  {}

  lemma HiddenFromRows(orders: seq<Order>, o: Order, pos: nat, side: Side)
    requires pos <= |orders| && o.side != side
    ensures Rows(orders[..pos] + [o] + orders[pos..], side) == Rows(orders, side)
  {
    assert orders[..pos] + orders[pos..] == orders;
    RowsAround(orders[..pos], o, orders[pos..], side);
  }

  // ---------- the asks stay right exactly through harmless events ----------

  lemma {:induction false} ReduceSizes(levels: seq<Level>, l: Level, p: real)
    ensures HasPrice(Reduce(levels, l), p) <==> HasPrice(levels, p)
    ensures SizeAt(Reduce(levels, l), p) ==
            SizeAt(levels, p) - if l.price == p && HasPrice(levels, p) then l.size else 0.0
  {
    if levels != [] {
      var head, rest := levels[0], levels[1..];
      assert levels == [head] + rest;
      SizeAtCons(head, rest, p);
      HasPriceCons(head, rest, p);
      if head.price == l.price {
        SizeAtCons(Level(l.price, head.size - l.size), rest, p);
        HasPriceCons(Level(l.price, head.size - l.size), rest, p);
      } else {
        ReduceSizes(rest, l, p);
        SizeAtCons(head, Reduce(rest, l), p);
        HasPriceCons(head, Reduce(rest, l), p);
      }
    }
  }

  lemma HasPriceCons(l: Level, rest: seq<Level>, p: real)
    ensures HasPrice([l] + rest, p) <==> l.price == p || HasPrice(rest, p)
  {
    var all := [l] + rest;
    assert all[0] == l;
    forall i | 0 <= i < |rest| ensures all[i + 1] == rest[i] {}
  }

  /** A price that shows has its full size. */
  lemma ShownInFull(levels: seq<Level>, rows: seq<Level>, bid: bool, p: real)
    requires Positive(rows) && levels == Top(Book(rows, bid))
    ensures HasPrice(levels, p) ==> SizeAt(levels, p) == SizeAt(rows, p)
    ensures !Hidden(levels, p, bid) ==> SizeAt(levels, p) == SizeAt(rows, p)
    ensures SizeAt(rows, p) >= 0.0
  {
    TopIsTopTen(rows, bid);
    SizesAdd(rows, p);
    if HasPrice(levels, p) {
      var i :| 0 <= i < |levels| && levels[i].price == p;
      SizeAtLevel(levels, bid, i);
    } else {
      SizeAtAbsent(levels, p);
    }
  }

  lemma {:induction false} SizesAdd(rows: seq<Level>, p: real)
    requires Positive(rows)
    ensures SizeAt(rows, p) >= 0.0
  {
    if rows != [] { SizesAdd(rows[..|rows| - 1], p); }
  }

  /** An order that is not hidden adds its size to what shows. */
  lemma ShownAdds(levels: seq<Level>, l: Level, bid: bool)
    requires Sorted(levels, bid) && |levels| <= MAX_PRICE_LEVELS && !Hidden(levels, l.price, bid)
    ensures HasPrice(Top(Insert(levels, l, bid)), l.price)
    ensures SizeAt(Top(Insert(levels, l, bid)), l.price) == SizeAt(levels, l.price) + l.size
  {
    var found, at := PlaceOf(levels, l, bid);
    PlacedIsTop(levels, l, bid, found, at);
    var after := Placed(levels, l, found, at);
    assert found || at < MAX_PRICE_LEVELS;
    assert after[at].price == l.price;
    SizeAtLevel(after, bid, at);
    if found { SizeAtLevel(levels, bid, at); } else { SizeAtAbsent(levels, l.price); }
  }

  lemma RowSizes(a: seq<Order>, was: Order, b: seq<Order>, p: real)
    ensures SizeAt(Rows(a + [was] + b, Sell), p) ==
            SizeAt(Rows(a + b, Sell), p) + if was.side == Sell && was.price == p then was.size else 0.0
  {
    RowsAround(a, was, b, Sell);
    SizeAtConcat(Rows(a, Sell) + Row(was, Sell), Rows(b, Sell), p);
    SizeAtConcat(Rows(a, Sell), Row(was, Sell), p);
    SizeAtConcat(Rows(a, Sell), Rows(b, Sell), p);
    assert [LevelOf(was)][..0] == [];
  }

  lemma ShownSizes(s: SourceState, o: Order, was: Order)
    requires Sorted(s.asks.levels, false) && |s.asks.levels| <= MAX_PRICE_LEVELS && !Enters(s, o)
    ensures var t := s.Enter(o).Leave(was).asks.levels;
            && HasPrice(t, o.price)
            && SizeAt(t, o.price) == SizeAt(s.asks.levels, o.price) + o.size
                                     - if was.side != Buy && was.price == o.price then was.size else 0.0
  {
    ShownAdds(s.asks.levels, LevelOf(o), false);
    ReduceSizes(Top(Insert(s.asks.levels, LevelOf(o), false)), LevelOf(was), o.price);
  }

  /** An order without a side that shows, with another one gone, leaves the asks right only if that was
      one without a side as well, of the same price and size. */
  lemma ShownIsWrong(s: SourceState, a: seq<Order>, o: Order, was: Order, b: seq<Order>)
    requires AllSized(a) && AllSized(b) && Sized(was) && o.size > 0.0
    requires SideMatches(s, a + [was] + b, false) && !Enters(s, o)
    requires var t := s.Enter(o).Leave(was); !t.asks.rebuild && SideMatches(t, a + [o] + b, false)
    ensures was.side == Undefined && LevelOf(o) == LevelOf(was)
  {
    hide Rows, SourceState.Enter, SourceState.Leave, AllSized, Hidden, Sorted;
    var rows, left := Rows(a + [was] + b, Sell), Rows(a + b, Sell);
    RowsStayPositive(a, was, b);
    RowsAround(a, o, b, Sell);
    BookIsAggregate(rows, false);
    TopSorted(Book(rows, false));
    ShownSizes(s, o, was);
    ShownInFull(s.asks.levels, rows, false, o.price);
    ShownInFull(s.Enter(o).Leave(was).asks.levels, left, false, o.price);
    RowSizes(a, was, b, o.price);
  }

  lemma TopSorted(book: seq<Level>)
    requires Sorted(book, false)
    ensures Sorted(Top(book), false)
  {}

  lemma RowsStayPositive(a: seq<Order>, was: Order, b: seq<Order>)
    requires AllSized(a) && AllSized(b) && Sized(was)
    ensures Positive(Rows(a + [was] + b, Sell)) && Positive(Rows(a + b, Sell))
  {
    RowsPositive(a + [was] + b, Sell);
    RowsPositive(a + b, Sell);
  }

  lemma LeftExactly(s: SourceState, a: seq<Order>, was: Order, b: seq<Order>)
    requires SideMatches(s, a + [was] + b, false) && SideMatches(s.Leave(was), a + b, false)
    requires Sized(was)
    ensures Leaves(s, was)
  {
    RowsAround(a, was, b, Sell);
    if was.side == Undefined && was.size > 0.0 {
      ReduceMoves(s.asks.levels, LevelOf(was));
    }
  }

  lemma SwapsExactly(s: SourceState, a: seq<Order>, o: Order, was: Order, b: seq<Order>)
    requires AllSized(a) && AllSized(b) && Sized(was) && o.size > 0.0
    requires SideMatches(s, a + [was] + b, false) && SideMatches(s.Enter(o).Leave(was), a + [o] + b, false)
    ensures Swaps(s, o, was)
  {
    hide SideMatches, Leaves;
    if Enters(s, o) {
      SizedTogether(a, was, b);
      assert a + ([was] + b) == a + [was] + b && a + [o] + ([was] + b) == (a + [o]) + [was] + b;
      EnterMatches(s, a, o, [was] + b, false);
      LeftExactly(s.Enter(o), a + [o], was, b);
    } else if !s.asks.rebuild && !UsesUp(s.Enter(o), was) {
      ShownIsWrong(s, a, o, was, b);
    }
  }

  /** Exactly the harmless order events leave the asks right for a publication; the bids are always
      right. */
  lemma HarmlessExactly(s: SourceState, o: Order, rm: bool)
    requires Tracks(s) && (rm || Sized(o))
    ensures var t := s.ProcessOrder(o, rm);
            && (t.Publish().finalAsks == BestLevels(t.snapshot, Sell) <==> Harmless(s, o, rm))
            && t.Publish().finalBids == BestLevels(t.snapshot, Buy)
  {
    hide SideMatches, Harmless, SourceState.ProcessOrder, SourceState.Publish, Quiet;
    var t := s.ProcessOrder(o, rm);
    ProcessOrderInOrder(s, o, rm);
    ProcessOrderMatches(s, o, rm, true);
    PublishedSides(t);
    if Harmless(s, o, rm) {
      ProcessOrderMatches(s, o, rm, false);
    } else if SideMatches(t, t.snapshot, false) {
      RightIsHarmless(s, o, rm);
    }
  }

  lemma PublishedSides(t: SourceState)
    requires InOrder(t)
    ensures t.Publish().finalAsks == BestLevels(t.snapshot, Sell) <==> SideMatches(t, t.snapshot, false)
    ensures t.Publish().finalBids == BestLevels(t.snapshot, Buy) <==> SideMatches(t, t.snapshot, true)
  {}

  lemma RightIsHarmless(s: SourceState, o: Order, rm: bool)
    requires Tracks(s) && (rm || Sized(o))
    requires var t := s.ProcessOrder(o, rm); SideMatches(t, t.snapshot, false)
    ensures Harmless(s, o, rm)
  {
    hide SideMatches, Leaves, Enters, Swaps, Quiet, BestLevels, SourceState.Publish;
    var pos := Position(s.snapshot, o.index);
    ProcessOrderInOrder(s, o, rm);
    PublishedSides(s.ProcessOrder(o, rm));
    if HasOrderAt(s.snapshot, pos, o.index) {
      if rm || o.size == 0.0 { DroppedRight(s, o, rm); } else { ReplacedRight(s, o, pos); }
    } else if !rm && o.size != 0.0 {
      ListedRight(s, o);
    }
  }

  lemma ListedRight(s: SourceState, o: Order)
    requires Tracks(s) && o.size > 0.0
    requires !HasOrderAt(s.snapshot, Position(s.snapshot, o.index), o.index)
    requires var t := s.ProcessOrder(o, false); t.Publish().finalAsks == BestLevels(t.snapshot, Sell)
    ensures Enters(s, o)
  {
    hide Quiet, BestLevels, SourceState.ProcessOrder, SourceState.Publish;
    if o.side == Undefined { UndefinedSideExactly(s, o); }
  }

  lemma DroppedRight(s: SourceState, o: Order, rm: bool)
    requires Tracks(s) && (rm || o.size == 0.0)
    requires HasOrderAt(s.snapshot, Position(s.snapshot, o.index), o.index)
    requires var t := s.ProcessOrder(o, rm); t.Publish().finalAsks == BestLevels(t.snapshot, Sell)
    ensures Leaves(s, s.snapshot[Position(s.snapshot, o.index)])
  {
    hide Quiet, BestLevels, SourceState.ProcessOrder, SourceState.Publish;
    var was := s.snapshot[Position(s.snapshot, o.index)];
    assert Sized(was);
    if was.side == Undefined && was.size > 0.0 { UndefinedSideLeftExactly(s, o, rm); }
  }

  lemma ReplacedRight(s: SourceState, o: Order, pos: nat)
    requires Tracks(s) && HasOrderAt(s.snapshot, pos, o.index) && o.size > 0.0
    requires SideMatches(s.Replace(o, pos), s.Replace(o, pos).snapshot, false)
    ensures Swaps(s, o, s.snapshot[pos])
  {
    hide Swaps;
    var a, b, was := s.snapshot[..pos], s.snapshot[pos + 1..], s.snapshot[pos];
    assert a + [was] + b == s.snapshot && s.snapshot[pos := o] == a + [o] + b;
    SwapsExactly(s, a, o, was, b);
  }

  // ---------- runs ----------

  lemma SettledTracksExactly(s: SourceState)
    requires InOrder(s) && SideMatches(s, s.snapshot, true)
    ensures Tracks(s.Settled().0) <==> Tracks(s)
  {}

  lemma HandledTracksExactly(s: SourceState, e: Event)
    requires BothQuiet(s) && s.status != Unknown && (e.Begins() || BidsRight(s)) && Quantity(e)
    requires e.Begins() || Waits(s, e) || SideMatches(s, s.snapshot, false)
    ensures Tracks(s.Handle(e).0) <==> Fits(s, e)
  {
    hide SideMatches, Waits, SourceState.Started, SourceState.Processed, SourceState.Settled;
    NeverUnknown(s, e);
    if Fits(s, e) {
      HandleKeeps(s, e);
      InvTracks(s.Handle(e).0);
    } else if Waits(s, e) {
      WaitingFits(s, e);
    } else {
      HarmShows(s, e);
    }
  }

  lemma InvTracks(s: SourceState)
    requires Inv(s)
    ensures Tracks(s)
  {}

  /** An event that leaves the asks waiting for a rebuild is harmless. */
  lemma WaitingFits(s: SourceState, e: Event)
    requires Waits(s, e)
    ensures Fits(s, e)
  {
    hide Insert, Reduce, Top;
  }

  lemma HarmShows(s: SourceState, e: Event)
    requires BothQuiet(s) && s.status != Unknown && (e.Begins() || BidsRight(s)) && Quantity(e)
    requires (e.Begins() || SideMatches(s, s.snapshot, false)) && !Fits(s, e)
    ensures !Tracks(s.Handle(e).0)
  {
    hide SideMatches, Harmless, SourceState.Started, SourceState.ProcessOrder, SourceState.Settled;
    var t := s.Started(e);
    NeverUnknown(s, e);
    StartedInOrder(s, e);
    StartedKeepsSide(s, e, true);
    StartedKeepsSide(s, e, false);
    ProcessOrderInOrder(t, e.order, e.Removes());
    ProcessOrderMatches(t, e.order, e.Removes(), true);
    ProcessedMatches(s, e);
    SettledTracksExactly(s.Processed(e));
    if Tracks(s.Processed(e)) {
      RightIsHarmless(t, e.order, e.Removes());
    }
  }

  lemma ProcessedMatches(s: SourceState, e: Event)
    ensures var p, t := s.Processed(e), s.Started(e).ProcessOrder(e.order, e.Removes());
            && p.snapshot == t.snapshot && (InOrder(p) <==> InOrder(t))
            && forall bid :: SideMatches(p, p.snapshot, bid) <==> SideMatches(t, t.snapshot, bid)
  {}

  /** How many events came before the asks were last cleared or left waiting for a rebuild */
  function Mended(feed: Feed, es: seq<Event>): (n: nat)
    ensures es == [] ==> n == 0
    ensures es != [] ==> n < |es|
  {
    if es == [] then 0
    else
      var before, e := es[..|es| - 1], es[|es| - 1];
      if !Foreign(feed, e) && (OpensSnapshot(e) || Waits(Run(feed, before), e)) then |before| else Mended(feed, before)
  }

  /** After every event beyond the first `m`, each side waits for a rebuild or holds the best ten. */
  ghost predicate TracksSince(feed: Feed, es: seq<Event>, m: nat) {
    forall n :: m < n <= |es| ==> Tracks(Run(feed, es[..n]))
  }

  lemma SinceNothing(feed: Feed)
    ensures TracksSince(feed, [], 0)
  {}

  lemma SinceGrows(feed: Feed, es: seq<Event>, m: nat)
    requires m < |es|
    ensures var before := es[..|es| - 1];
            TracksSince(feed, es, m) <==> (m == |before| || TracksSince(feed, before, m)) && Tracks(Run(feed, es))
  {
    hide Tracks, Run;
    var before := es[..|es| - 1];
    assert es[..|es|] == es;
    assert forall n :: 0 <= n <= |before| ==> before[..n] == es[..n];
  }

  /** A run is orderly exactly when, ever since the asks were last cleared or left waiting for a
      rebuild, each side waits for a rebuild or holds the best ten. */
  lemma {:induction false} OrderlyExactly(feed: Feed, es: seq<Event>)
    requires Quantities(feed, es)
    ensures Orderly(feed, es) <==> TracksSince(feed, es, Mended(feed, es))
  {
    hide Tracks, TracksSince, Fits, Waits, BidsRight, SideRight, Quantity;
    if es == [] {
      SinceNothing(feed);
    } else {
      var before, e := es[..|es| - 1], es[|es| - 1];
      var s := Run(feed, before);
      SinceGrows(feed, es, Mended(feed, es));
      if before == [] {
        CreatedIsRight();
        InvTracks(Created);
      } else {
        SinceGrows(feed, before, Mended(feed, before));
      }
      RunStaysQuiet(feed, before);
      if !feed.Accepts(e) || !e.Begins() {
        RunKeepsBids(feed, before);
        OrderlyExactly(feed, before);
      }
      if feed.Accepts(e) && (e.Begins() || Waits(s, e)) {
        HandledTracksExactly(s, e);
      } else if feed.Accepts(e) && Orderly(feed, before) {
        RunKeeps(feed, before);
        RightMatches(s, false);
        HandledTracksExactly(s, e);
      }
    }
  }

  /** An order that offers anything is on one side of the market. */
  predicate Sided(o: Order) {
    Sized(o) && (o.size > 0.0 ==> o.side != Undefined)
  }

  ghost predicate AllSided(orders: seq<Order>) {
    forall i :: 0 <= i < |orders| ==> Sided(orders[i])
  }

  lemma SidedProcessed(s: SourceState, o: Order, rm: bool)
    requires AllSided(s.snapshot) && (rm || Sided(o))
    ensures Harmless(s, o, rm) && AllSided(s.ProcessOrder(o, rm).snapshot)
  {}

  /** A run whose orders all have a side is orderly. */
  lemma {:induction false} SidedIsOrderly(feed: Feed, es: seq<Event>)
    requires forall i :: 0 <= i < |es| ==> Withdraws(es[i]) || Sided(es[i].order)
    ensures Quantities(feed, es) && Orderly(feed, es) && AllSided(Run(feed, es).snapshot)
  {
    if es != [] {
      var before, e := es[..|es| - 1], es[|es| - 1];
      SidedIsOrderly(feed, before);
      if feed.Accepts(e) {
        RunStaysQuiet(feed, before);
        NeverUnknown(Run(feed, before), e);
        SidedProcessed(Run(feed, before).Started(e), e.order, e.Removes());
        SettledSnapshot(Run(feed, before).Processed(e));
      }
    }
  }

  // ---------- a run whose asks stay wrong ----------

  function Sale(k: int): Order { Order(k, k as real, 1.0, Sell, 0) }

  function Sales(n: nat): seq<Order> { seq(n, k => Sale(k + 1)) }
  function SaleLevels(n: nat): (r: seq<Level>)
    ensures |r| == n
  { seq(n, k => Level((k + 1) as real, 1.0)) }
  function Listings(n: nat): seq<Event> { seq(n, k => Listing(Sale(k + 1))) }

  /** An order without a side and a sale at the same price, behind the ten better ones */
  const SIDELESS := Order(11, 20.0, 5.0, Undefined, 0)
  const LAST_SALE := Order(12, 20.0, 7.0, Sell, 0)

  /** A settled source whose asks show as they are */
  predicate Shows(s: SourceState, orders: seq<Order>, asks: seq<Level>) {
    s == SourceState(orders, SideState([], false, false), SideState(asks, false, true), [], asks, Full)
  }

  lemma Listed(s: SourceState, orders: seq<Order>, asks: seq<Level>, o: Order)
    requires Shows(s, orders, asks) || (s == Created && orders == [] && asks == [])
    requires SortedByIndex(orders) && (orders != [] ==> orders[|orders| - 1].index < o.index)
    requires o.side != Buy && o.size > 0.0 && Sorted(asks, false)
    ensures Shows(s.Step(MARKET, Listing(o)).0, orders + [o], Top(Insert(asks, LevelOf(o), false)))
  {
    PositionIs(orders, o.index, |orders|);
    assert orders[..|orders|] + [o] + orders[|orders|..] == orders + [o];
    if asks == [] { assert Insert(asks, LevelOf(o), false)[0].price == o.price; }
  }

  lemma OneMoreEvent(es: seq<Event>, e: Event)
    ensures Run(MARKET, es + [e]) == Run(MARKET, es).Step(MARKET, e).0
  {
    assert (es + [e])[..|es|] == es;
  }

  lemma OneMoreSale(n: nat)
    ensures Sales(n) + [Sale(n + 1)] == Sales(n + 1) && SortedByIndex(Sales(n))
    ensures Insert(SaleLevels(n), LevelOf(Sale(n + 1)), false) == SaleLevels(n + 1) && Sorted(SaleLevels(n), false)
  {
    InsertAt(SaleLevels(n), LevelOf(Sale(n + 1)), false, n);
    assert SaleLevels(n) + [LevelOf(Sale(n + 1))] == SaleLevels(n + 1);
  }

  lemma NoSales()
    ensures Run(MARKET, []) == Created && Listings(0) == [] && Sales(0) == [] && SaleLevels(0) == []
  {}

  lemma {:induction false} SalesListed(n: nat)
    requires 0 < n <= 10
    ensures Shows(Run(MARKET, Listings(n)), Sales(n), SaleLevels(n))
  {
    hide Shows, Run, SaleLevels, Insert;
    NoSales();
    if n > 1 { SalesListed(n - 1); }
    OneMoreSale(n - 1);
    assert Listings(n) == Listings(n - 1) + [Listing(Sale(n))];
    OneMoreEvent(Listings(n - 1), Listing(Sale(n)));
    Listed(Run(MARKET, Listings(n - 1)), Sales(n - 1), SaleLevels(n - 1), Sale(n));
  }

  lemma Removed(s: SourceState, orders: seq<Order>, asks: seq<Level>, pos: nat)
    requires Shows(s, orders, asks) && SortedByIndex(orders) && pos < |orders| && orders[pos].side != Buy
    requires HasPrice(asks, orders[pos].price)
    ensures var rest := orders[..pos] + orders[pos + 1..];
            Shows(s.Step(MARKET, Removal(orders[pos])).0, rest,
                  if SizeLeft(asks, LevelOf(orders[pos])) <= 0.0 then BestLevels(rest, Sell)
                  else Reduce(asks, LevelOf(orders[pos])))
  {
    hide BestLevels;
    PositionIs(orders, orders[pos].index, pos);
  }

  lemma {:induction false} SaleRows(n: nat)
    requires n > 0
    ensures Rows(Sales(n)[1..], Sell) == SaleLevels(n)[1..]
  {
    if n > 1 {
      var sales := Sales(n)[1..];
      SaleRows(n - 1);
      assert sales[..n - 2] == Sales(n - 1)[1..] && sales[n - 2] == Sale(n);
      assert Row(Sale(n), Sell) == [LevelOf(Sale(n))];
      assert SaleLevels(n)[1..] == SaleLevels(n - 1)[1..] + [LevelOf(Sale(n))];
    }
  }

  /** After the best sale has left: the other nine, then the price of the last two orders */
  function LeftOver(size: real): (r: seq<Level>)
    ensures |r| == 10
  {
    SaleLevels(10)[1..] + [Level(20.0, size)]
  }

  lemma LeftOverIs(size: real)
    ensures Sorted(LeftOver(size), false)
    ensures HasPrice(LeftOver(size), 20.0) && SizeLeft(LeftOver(size), LevelOf(SIDELESS)) == size - 5.0
    ensures Reduce(LeftOver(size), LevelOf(SIDELESS)) == LeftOver(size - 5.0)
    ensures SizeAt(LeftOver(size), 20.0) == size
  {
    var levels := LeftOver(size);
    assert levels[9].price == 20.0;
    SizeLeftAt(levels, LevelOf(SIDELESS), 9);
    ReduceAt(levels, LevelOf(SIDELESS), 9);
    assert levels[9 := Level(20.0, size - 5.0)] == LeftOver(size - 5.0);
    SizeAtLevel(levels, false, 9);
  }

  /** The orders once the best sale has left */
  function Remaining(): seq<Order> { Sales(10)[1..] + [SIDELESS, LAST_SALE] }

  lemma LastRow()
    ensures Rows([SIDELESS, LAST_SALE], Sell) == [Level(20.0, 7.0)]
  {
    var both := [SIDELESS, LAST_SALE];
    assert both[..1][..0] == [] && both[..1][0] == SIDELESS;
    assert Rows(both[..1], Sell) == [];
    assert Row(both[1], Sell) == [Level(20.0, 7.0)];
  }

  lemma RemainingRows()
    ensures BestLevels(Remaining(), Sell) == Rows(Remaining(), Sell) == LeftOver(7.0)
  {
    hide Rows, Book, SaleLevels;
    SaleRows(10);
    RowsConcat(Sales(10)[1..], [SIDELESS, LAST_SALE], Sell);
    LastRow();
    LeftOverIs(7.0);
    SortedIsBook(LeftOver(7.0), false);
  }

  lemma HiddenBehindTen(o: Order)
    requires o.price == 20.0
    ensures Top(Insert(SaleLevels(10), LevelOf(o), false)) == SaleLevels(10) && Sorted(SaleLevels(10), false)
  {
    InsertAt(SaleLevels(10), LevelOf(o), false, 10);
    assert SaleLevels(10) + [LevelOf(o)] + [] == SaleLevels(10) + [LevelOf(o)];
  }

  lemma BestSaleLeaves()
    ensures HasPrice(SaleLevels(10), 1.0) && SizeLeft(SaleLevels(10), LevelOf(Sale(1))) == 0.0
    ensures var orders := Sales(10) + [SIDELESS] + [LAST_SALE];
            SortedByIndex(orders) && orders[0] == Sale(1) && orders[..0] + orders[1..] == Remaining()
  {
    assert SaleLevels(10)[0] == Level(1.0, 1.0);
  }

  function BothListed(): seq<Event> {
    Listings(10) + [Listing(SIDELESS)] + [Listing(LAST_SALE)]
  }

  lemma BothHidden()
    ensures Shows(Run(MARKET, BothListed()), Sales(10) + [SIDELESS] + [LAST_SALE], SaleLevels(10))
  {
    hide Shows, Run, SaleLevels, Insert;
    SalesListed(10);
    OneMoreSale(10);
    HiddenBehindTen(SIDELESS);
    OneMoreEvent(Listings(10), Listing(SIDELESS));
    Listed(Run(MARKET, Listings(10)), Sales(10), SaleLevels(10), SIDELESS);
    HiddenBehindTen(LAST_SALE);
    var es := Listings(10) + [Listing(SIDELESS)];
    OneMoreEvent(es, Listing(LAST_SALE));
    Listed(Run(MARKET, es), Sales(10) + [SIDELESS], SaleLevels(10), LAST_SALE);
  }

  lemma BestSaleRemoved()
    ensures Shows(Run(MARKET, BothListed() + [Removal(Sale(1))]), Remaining(), LeftOver(7.0))
  {
    hide Shows, Run, SaleLevels, BestLevels, LeftOver, SizeLeft, Reduce;
    BothHidden();
    BestSaleLeaves();
    OneMoreEvent(BothListed(), Removal(Sale(1)));
    Removed(Run(MARKET, BothListed()), Sales(10) + [SIDELESS] + [LAST_SALE], SaleLevels(10), 0);
    RemainingRows();
  }

  lemma SidelessRemains()
    ensures SortedByIndex(Remaining()) && |Remaining()| == 11 && Remaining()[9] == SIDELESS
    ensures SizeAt(Rows(Remaining()[..9] + Remaining()[10..], Sell), 20.0) == 7.0
  {
    hide Rows, SizeAt;
    RemainingRows();
    LeftOverIs(7.0);
    HiddenFromRest(Remaining(), 9, 11, Sell);
  }

  /** Ten sales, an order without a side and a real one at its price, both hidden; the best sale leaves,
      then the order without a side. What it offered is taken from the real order, and this is what is
      shown. */
  lemma UndefinedSideTakes()
    ensures var s := Run(MARKET, BothListed() + [Removal(Sale(1))] + [Removal(SIDELESS)]);
            && s.status == Full && |s.finalAsks| == 10 && s.finalAsks[9] == Level(20.0, 2.0)
            && SizeAt(Rows(s.snapshot, Sell), 20.0) == 7.0
  {
    hide Run, SaleLevels, BestLevels, SizeLeft, Reduce, Rows, SizeAt, Remaining;
    var es := BothListed() + [Removal(Sale(1))];
    BestSaleRemoved();
    OneMoreEvent(es, Removal(SIDELESS));
    SidelessRemains();
    LeftOverIs(7.0);
    Removed(Run(MARKET, es), Remaining(), LeftOver(7.0), 9);
  }
}
