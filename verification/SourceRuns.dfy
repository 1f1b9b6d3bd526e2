/** Whole runs of one order source: its published sides against the simple book of the live orders,
    and when it publishes. */
module SourceRuns {
  import opened PriceLevels
  import opened LevelSides
  import opened OrderSources

  // ---------- one side and the rows it stands for ----------

  /** A side is waiting for a rebuild or holds the best levels of its rows. */
  ghost predicate Matches(side: SideState, rows: seq<Level>, bid: bool) {
    side.rebuild || side.levels == Top(Book(rows, bid))
  }

  lemma AddMatches(side: SideState, a: seq<Level>, l: Level, b: seq<Level>, bid: bool)
    requires Positive(a) && Positive(b) && l.size > 0.0
    requires Matches(side, a + b, bid)
    ensures Matches(side.Add(l, bid), a + [l] + b, bid)
  {
    BookOfMiddle(a, l, b, bid);
    TakeInsert(Book(a + b, bid), l, bid, MAX_PRICE_LEVELS);
  }

  lemma RemoveMatches(side: SideState, a: seq<Level>, l: Level, b: seq<Level>, bid: bool)
    requires Positive(a) && Positive(b) && l.size > 0.0
    requires Matches(side, a + [l] + b, bid)
    ensures Matches(side.Remove(l), a + b, bid)
  {
    if !side.Remove(l).rebuild {
      BookIsAggregate(a + b, bid);
      BookOfMiddle(a, l, b, bid);
      SubtractUndoesInsert(Book(a + b, bid), l, bid);
      TakeSubtract(Book(a + [l] + b, bid), l, MAX_PRICE_LEVELS);
      if !HasPrice(side.levels, l.price) {
        ReduceAbsent(side.levels, l);
      }
    }
  }

  /** Blanked-out orders take nothing away. */
  lemma RemoveNothingMatches(side: SideState, rows: seq<Level>, l: Level, bid: bool)
    requires l.size == 0.0 && Matches(side, rows, bid)
    ensures Matches(side.Remove(l), rows, bid)
  {
    ReduceByNothing(side.levels, l);
  }

  lemma {:induction false} ReduceByNothing(levels: seq<Level>, l: Level)
    requires l.size == 0.0
    ensures Reduce(levels, l) == levels
  {
    if levels != [] {
      ReduceByNothing(levels[1..], l);
    }
  }

  // ---------- both sides and the orders they stand for ----------

  /** Sizes are quantities. */
  predicate Sized(o: Order) {
    o.size >= 0.0
  }

  ghost predicate AllSized(orders: seq<Order>) {
    forall i :: 0 <= i < |orders| ==> Sized(orders[i])
  }

  function SideOf(s: SourceState, bid: bool): SideState {
    if bid then s.bids else s.asks
  }

  function FinalOf(s: SourceState, bid: bool): seq<Level> {
    if bid then s.finalBids else s.finalAsks
  }

  function Name(bid: bool): Side {
    if bid then Buy else Sell
  }

  ghost predicate SideMatches(s: SourceState, orders: seq<Order>, bid: bool) {
    Matches(SideOf(s, bid), Rows(orders, Name(bid)), bid)
  }

  ghost predicate BothMatch(s: SourceState, orders: seq<Order>) {
    SideMatches(s, orders, true) && SideMatches(s, orders, false)
  }

  /** An order enters on the side it belongs to, or without a side where that does not show: the asks
      are waiting for a rebuild or ten better prices hide it. */
  predicate Enters(s: SourceState, o: Order) {
    o.side != Undefined || s.asks.rebuild || Hidden(s.asks.levels, o.price, false)
  }

  /** An order leaves the side it belongs to, or without a side where that takes nothing from others:
      the asks are or will be waiting for a rebuild, or do not show its price. */
  predicate Leaves(s: SourceState, o: Order) {
    || o.side != Undefined || o.size == 0.0 || s.asks.rebuild
    || !HasPrice(s.asks.levels, o.price) || SizeLeft(s.asks.levels, LevelOf(o)) <= 0.0
  }

  /** An order takes all that is left of a level of the asks, which asks for a rebuild. */
  predicate UsesUp(s: SourceState, o: Order) {
    o.side != Buy && HasPrice(s.asks.levels, o.price) && SizeLeft(s.asks.levels, LevelOf(o)) <= 0.0
  }

  /** One order takes the place of another: it enters, and then the other leaves. */
  predicate Swaps(s: SourceState, o: Order, was: Order) {
    || (Enters(s, o) && Leaves(s.Enter(o), was))
    || s.asks.rebuild || UsesUp(s.Enter(o), was)
    || (o.side == was.side == Undefined && LevelOf(o) == LevelOf(was))
  }

  lemma {:induction false} RowsConcat(a: seq<Order>, b: seq<Order>, side: Side)
    ensures Rows(a + b, side) == Rows(a, side) + Rows(b, side)
  {
    hide Row;
    if b == [] {
      assert a + b == a;
    } else {
      assert (a + b)[..|a + b| - 1] == a + b[..|b| - 1];
      RowsConcat(a, b[..|b| - 1], side);
    }
  }

  lemma RowsAround(a: seq<Order>, o: Order, b: seq<Order>, side: Side)
    ensures Rows(a + [o] + b, side) == Rows(a, side) + Row(o, side) + Rows(b, side)
    ensures Rows(a + b, side) == Rows(a, side) + Rows(b, side)
    ensures Row(o, side) == [] ==> Rows(a + [o] + b, side) == Rows(a + b, side)
  {
    RowsConcat(a + [o], b, side);
    RowsConcat(a, [o], side);
    RowsConcat(a, b, side);
    assert [o][..0] == [];
    assert Rows(a, side) + [] == Rows(a, side);
  }

  lemma {:induction false} RowsPositive(orders: seq<Order>, side: Side)
    requires AllSized(orders)
    ensures Positive(Rows(orders, side))
  {
    if orders != [] {
      RowsPositive(orders[..|orders| - 1], side);
    }
  }

  lemma EnterMatches(s: SourceState, a: seq<Order>, o: Order, b: seq<Order>, bid: bool)
    requires AllSized(a) && AllSized(b) && Sized(o) && o.size != 0.0
    requires SideMatches(s, a + b, bid) && (bid || Enters(s, o))
    ensures SideMatches(s.Enter(o), a + [o] + b, bid)
  {
    hide Rows, Book, Insert, Top, HasPrice;
    var side := Name(bid);
    RowsAround(a, o, b, side);
    RowsPositive(a, side);
    RowsPositive(b, side);
    if o.side == side {
      AddMatches(SideOf(s, bid), Rows(a, side), LevelOf(o), Rows(b, side), bid);
    } else if !bid && o.side == Undefined && !s.asks.rebuild {
      BestLevelsSorted(a + b, Sell);
      TopUnmoved(s.asks.levels, LevelOf(o), false);
    }
  }

  lemma LeaveMatches(s: SourceState, a: seq<Order>, o: Order, b: seq<Order>, bid: bool)
    requires AllSized(a) && AllSized(b) && Sized(o)
    requires SideMatches(s, a + [o] + b, bid) && (bid || Leaves(s, o))
    ensures SideMatches(s.Leave(o), a + b, bid)
  {
    hide Rows, Book, Reduce, Top, HasPrice, SizeLeft;
    var side := Name(bid);
    RowsAround(a, o, b, side);
    if o.size == 0.0 {
      RemoveNothingMatches(SideOf(s, bid), Rows(a + b, side), LevelOf(o), bid);
    } else if o.side == side {
      RowsPositive(a, side);
      RowsPositive(b, side);
      RemoveMatches(SideOf(s, bid), Rows(a, side), LevelOf(o), Rows(b, side), bid);
    }
  }

  // ---------- what every event keeps ----------

  /** A side that was never updated has never held anything. */
  predicate Quiet(side: SideState, final: seq<Level>) {
    !side.updated ==> side.levels == [] && !side.rebuild && final == []
  }

  predicate BothQuiet(s: SourceState) {
    Quiet(s.bids, s.finalBids) && Quiet(s.asks, s.finalAsks)
  }

  /** Everything but that the levels are right */
  ghost predicate InOrder(s: SourceState) {
    SortedByIndex(s.snapshot) && AllSized(s.snapshot) && BothQuiet(s)
  }

  ghost predicate Tracks(s: SourceState) {
    InOrder(s) && BothMatch(s, s.snapshot)
  }

  /** One side is right, and what it has published too when nothing is pending. */
  ghost predicate SideRight(s: SourceState, bid: bool) {
    && SideMatches(s, s.snapshot, bid)
    && (s.status == Full ==> FinalOf(s, bid) == BestLevels(s.snapshot, Name(bid)))
  }

  /** What holds whatever orders come, as long as their sizes are quantities */
  ghost predicate BidsRight(s: SourceState) {
    InOrder(s) && s.status != Unknown && SideRight(s, true)
  }

  ghost predicate Inv(s: SourceState) {
    BidsRight(s) && SideRight(s, false)
  }

  /** The order event leaves the levels right. */
  predicate Harmless(s: SourceState, o: Order, rm: bool) {
    var pos := Position(s.snapshot, o.index);
    if HasOrderAt(s.snapshot, pos, o.index) then
      if rm || o.size == 0.0 then Leaves(s, s.snapshot[pos]) else Swaps(s, o, s.snapshot[pos])
    else rm || o.size == 0.0 || Enters(s, o)
  }

  lemma ListedInOrder(orders: seq<Order>, o: Order)
    requires SortedByIndex(orders) && AllSized(orders) && Sized(o)
    requires !HasOrderAt(orders, Position(orders, o.index), o.index)
    ensures var pos := Position(orders, o.index);
            var after := orders[..pos] + [o] + orders[pos..];
            SortedByIndex(after) && AllSized(after)
  {
    InsertedInOrder(orders, o);
  }

  lemma DroppedInOrder(orders: seq<Order>, pos: nat)
    requires SortedByIndex(orders) && AllSized(orders) && pos < |orders|
    ensures SortedByIndex(orders[..pos] + orders[pos + 1..]) && AllSized(orders[..pos] + orders[pos + 1..])
  {}

  lemma EnterStaysQuiet(s: SourceState, o: Order)
    requires BothQuiet(s)
    ensures BothQuiet(s.Enter(o))
  {
    assert Insert([], LevelOf(o), true) == Insert([], LevelOf(o), false) == [LevelOf(o)];
    assert [LevelOf(o)][0].price == LevelOf(o).price;
  }

  lemma LeaveStaysQuiet(s: SourceState, o: Order)
    requires BothQuiet(s)
    ensures BothQuiet(s.Leave(o))
  {}

  /** Whatever orders come, a side without updates stays empty. */
  lemma ProcessOrderStaysQuiet(s: SourceState, o: Order, rm: bool)
    requires BothQuiet(s)
    ensures BothQuiet(s.ProcessOrder(o, rm))
  {
    hide Position, SourceState.Enter, SourceState.Leave;
    var pos := Position(s.snapshot, o.index);
    EnterStaysQuiet(s, o);
    if pos < |s.snapshot| {
      LeaveStaysQuiet(s, s.snapshot[pos]);
      LeaveStaysQuiet(s.Enter(o), s.snapshot[pos]);
    }
  }

  lemma ProcessOrderInOrder(s: SourceState, o: Order, rm: bool)
    requires InOrder(s) && (rm || Sized(o))
    ensures InOrder(s.ProcessOrder(o, rm))
  {
    hide BothQuiet, SourceState.Enter, SourceState.Leave;
    var pos := Position(s.snapshot, o.index);
    ProcessOrderStaysQuiet(s, o, rm);
    OnlyLevelsMove(s, o);
    if HasOrderAt(s.snapshot, pos, o.index) {
      var was := s.snapshot[pos];
      OnlyLevelsMove(s, was);
      OnlyLevelsMove(s.Enter(o), was);
      DroppedInOrder(s.snapshot, pos);
    } else if !rm && o.size != 0.0 {
      ListedInOrder(s.snapshot, o);
    }
  }

  lemma OnlyLevelsMove(s: SourceState, o: Order)
    ensures s.Enter(o).snapshot == s.snapshot == s.Leave(o).snapshot
    ensures s.Enter(o).finalBids == s.finalBids == s.Leave(o).finalBids
    ensures s.Enter(o).finalAsks == s.finalAsks == s.Leave(o).finalAsks
  {}

  lemma ListMatches(s: SourceState, o: Order, pos: nat, bid: bool)
    requires AllSized(s.snapshot) && SideMatches(s, s.snapshot, bid)
    requires Sized(o) && o.size != 0.0 && pos <= |s.snapshot| && (bid || Enters(s, o))
    ensures SideMatches(s.List(o, pos), s.List(o, pos).snapshot, bid)
  {
    var a, b := s.snapshot[..pos], s.snapshot[pos..];
    assert a + b == s.snapshot;
    EnterMatches(s, a, o, b, bid);
  }

  lemma DropMatches(s: SourceState, o: Order, rm: bool, pos: nat, bid: bool)
    requires AllSized(s.snapshot) && SideMatches(s, s.snapshot, bid)
    requires HasOrderAt(s.snapshot, pos, o.index) && (bid || Leaves(s, s.snapshot[pos]))
    ensures SideMatches(s.Drop(o, rm, pos), s.Drop(o, rm, pos).snapshot, bid)
  {
    var a, b, was := s.snapshot[..pos], s.snapshot[pos + 1..], s.snapshot[pos];
    assert a + [was] + b == s.snapshot && s.snapshot[pos := Blank(o.index)] == a + [Blank(o.index)] + b;
    LeaveMatches(s, a, was, b, bid);
    RowsAround(a, Blank(o.index), b, Name(bid));
  }

  lemma SidesMatchInTurn(s: SourceState, a: seq<Order>, was: Order, o: Order, b: seq<Order>, bid: bool)
    requires AllSized(a) && AllSized(b) && Sized(was) && Sized(o) && o.size != 0.0
    requires SideMatches(s, a + [was] + b, bid) && (bid || (Enters(s, o) && Leaves(s.Enter(o), was)))
    ensures SideMatches(s.Enter(o).Leave(was), a + [o] + b, bid)
  {
    hide *;
    SizedTogether(a, o, b);
    SizedTogether(a, was, b);
    assert a + ([was] + b) == a + [was] + b;
    EnterMatches(s, a, o, [was] + b, bid);
    assert a + [o] + ([was] + b) == (a + [o]) + [was] + b;
    LeaveMatches(s.Enter(o), a + [o], was, b, bid);
  }

  lemma SizedTogether(a: seq<Order>, o: Order, b: seq<Order>)
    requires AllSized(a) && Sized(o) && AllSized(b)
    ensures AllSized(a + [o]) && AllSized([o] + b)
  {}

  /** What is added and taken away again does not matter. */
  lemma AddedAndRemoved(side: SideState, rows: seq<Level>, l: Level, bid: bool)
    requires Positive(rows) && l.size > 0.0 && Matches(side, rows, bid)
    ensures Matches(side.Add(l, bid).Remove(l), rows, bid)
  {
    assert rows + [] == rows;
    AddMatches(side, rows, l, [], bid);
    RemoveMatches(side.Add(l, bid), rows, l, [], bid);
  }

  lemma ReplaceMatches(s: SourceState, o: Order, pos: nat, bid: bool)
    requires AllSized(s.snapshot) && SideMatches(s, s.snapshot, bid)
    requires HasOrderAt(s.snapshot, pos, o.index) && Sized(o) && o.size != 0.0
    requires bid || Swaps(s, o, s.snapshot[pos])
    ensures SideMatches(s.Replace(o, pos), s.snapshot[pos := o], bid)
  {
    hide Rows, Book, Insert, Reduce, Top, HasPrice, SizeLeft, Hidden;
    var a, b, was := s.snapshot[..pos], s.snapshot[pos + 1..], s.snapshot[pos];
    assert a + [was] + b == s.snapshot && s.snapshot[pos := o] == a + [o] + b;
    if bid || (Enters(s, o) && Leaves(s.Enter(o), was)) {
      SidesMatchInTurn(s, a, was, o, b, bid);
    } else if !s.Enter(o).Leave(was).asks.rebuild {
      hide Leaves;
      RowsAround(a, o, b, Sell);
      RowsAround(a, was, b, Sell);
      RowsPositive(s.snapshot, Sell);
      AddedAndRemoved(s.asks, Rows(s.snapshot, Sell), LevelOf(o), false);
    }
  }

  /** Every kind of order event that is harmless keeps "waiting for a rebuild, or the best ten". */
  lemma ProcessOrderKeeps(s: SourceState, o: Order, rm: bool)
    requires Tracks(s) && (rm || Sized(o)) && Harmless(s, o, rm)
    ensures Tracks(s.ProcessOrder(o, rm))
  {
    ProcessOrderInOrder(s, o, rm);
    ProcessOrderMatches(s, o, rm, true);
    ProcessOrderMatches(s, o, rm, false);
  }

  lemma ProcessOrderMatches(s: SourceState, o: Order, rm: bool, bid: bool)
    requires AllSized(s.snapshot) && SideMatches(s, s.snapshot, bid)
    requires (rm || Sized(o)) && (bid || Harmless(s, o, rm))
    ensures SideMatches(s.ProcessOrder(o, rm), s.ProcessOrder(o, rm).snapshot, bid)
  {
    hide SideMatches, Enters, Leaves, Swaps, AllSized, Position;
    var pos := Position(s.snapshot, o.index);
    if HasOrderAt(s.snapshot, pos, o.index) {
      if rm || o.size == 0.0 { DropMatches(s, o, rm, pos, bid); } else { ReplacedMatches(s, o, pos, bid); }
    } else if !rm && o.size != 0.0 {
      ListMatches(s, o, pos, bid);
    }
  }

  lemma ReplacedMatches(s: SourceState, o: Order, pos: nat, bid: bool)
    requires AllSized(s.snapshot) && SideMatches(s, s.snapshot, bid)
    requires HasOrderAt(s.snapshot, pos, o.index) && Sized(o) && o.size != 0.0
    requires bid || Swaps(s, o, s.snapshot[pos])
    ensures SideMatches(s.Replace(o, pos), s.Replace(o, pos).snapshot, bid)
  {
    ReplaceMatches(s, o, pos, bid);
  }

  lemma PublishIsExact(s: SourceState)
    requires Tracks(s)
    ensures Tracks(s.Publish()) && s.Publish().snapshot == s.snapshot
    ensures s.Publish().finalBids == BestLevels(s.snapshot, Buy)
    ensures s.Publish().finalAsks == BestLevels(s.snapshot, Sell)
  {
    PublishKeepsOrder(s);
    PublishKeepsSide(s, true);
    PublishKeepsSide(s, false);
  }

  lemma PublishKeepsOrder(s: SourceState)
    requires InOrder(s)
    ensures InOrder(s.Publish()) && s.Publish().snapshot == s.snapshot
  {}

  lemma PublishKeepsSide(s: SourceState, bid: bool)
    requires BothQuiet(s) && SideMatches(s, s.snapshot, bid)
    ensures SideMatches(s.Publish(), s.snapshot, bid)
    ensures FinalOf(s.Publish(), bid) == BestLevels(s.snapshot, Name(bid))
  {}

  // What an event is for a source, read off its fields: the masks are those of the event flags.

  /** Not an order, or of another symbol or another source */
  predicate Foreign(feed: Feed, e: Event) {
    !e.isOrder || e.symbol != feed.symbol || e.source != feed.source
  }

  predicate OpensSnapshot(e: Event) { e.flags & 0x04 != 0 }

  predicate ClosesSnapshot(e: Event) { e.flags & 0x08 != 0 || e.flags & 0x10 != 0 }

  predicate LeavesOpen(e: Event) { e.flags & 0x01 != 0 }

  predicate Withdraws(e: Event) { e.flags & 0x02 != 0 || e.order.size == 0.0 }

  /** The sizes of the orders of an event are quantities. */
  predicate Quantity(e: Event) {
    Withdraws(e) || Sized(e.order)
  }

  /** The event leaves asks right that were right, or were just cleared. */
  predicate Fits(s: SourceState, e: Event) {
    Harmless(s.Started(e), e.order, e.Removes())
  }

  /** The event leaves the asks waiting for a rebuild, which makes good whatever was wrong with them. */
  predicate Waits(s: SourceState, e: Event) {
    s.Started(e).ProcessOrder(e.order, e.Removes()).asks.rebuild
  }

  lemma StartedKeepsSide(s: SourceState, e: Event, bid: bool)
    requires BothQuiet(s) && (e.Begins() || SideMatches(s, s.snapshot, bid))
    ensures SideMatches(s.Started(e), s.Started(e).snapshot, bid)
  {}

  lemma StartedInOrder(s: SourceState, e: Event)
    requires if e.Begins() then BothQuiet(s) else InOrder(s)
    ensures InOrder(s.Started(e))
  {}

  /** The order of the event processed, with the new status */
  lemma ProcessedInOrder(s: SourceState, e: Event)
    requires (if e.Begins() then BothQuiet(s) else InOrder(s)) && Quantity(e)
    ensures InOrder(s.Processed(e))
  {
    hide SourceState.Started, SourceState.ProcessOrder, Sized, AllSized, SortedByIndex, BothQuiet;
    StartedInOrder(s, e);
    ProcessOrderInOrder(s.Started(e), e.order, e.Removes());
    StatusAside(s.Started(e).ProcessOrder(e.order, e.Removes()), s.Processed(e).status);
  }

  lemma StatusAside(s: SourceState, status: Status)
    requires InOrder(s)
    ensures InOrder(s.(status := status))
  {}

  lemma ProcessedKeepsSide(s: SourceState, e: Event, bid: bool)
    requires BothQuiet(s) && AllSized(s.Started(e).snapshot) && Quantity(e)
    requires e.Begins() || SideMatches(s, s.snapshot, bid) || (!bid && Waits(s, e))
    requires bid || Fits(s, e)
    ensures SideMatches(s.Processed(e), s.Processed(e).snapshot, bid)
  {
    hide SourceState.Started, SourceState.ProcessOrder, Sized, AllSized, BothQuiet, Rows, Harmless;
    if e.Begins() || SideMatches(s, s.snapshot, bid) {
      StartedKeepsSide(s, e, bid);
      ProcessOrderMatches(s.Started(e), e.order, e.Removes(), bid);
    }
  }

  lemma SettledKeepsSide(s: SourceState, bid: bool)
    requires InOrder(s) && SideMatches(s, s.snapshot, bid)
    ensures InOrder(s.Settled().0) && SideRight(s.Settled().0, bid)
  {
    hide SideMatches, BestLevels, SourceState.Publish, SortedByIndex, AllSized;
    PublishKeepsOrder(s);
    PublishKeepsSide(s, bid);
    StatusOfPublished(s);
    if !s.bids.updated && !s.asks.updated {
      NothingKept(s, bid);
    }
  }

  lemma StatusOfPublished(s: SourceState)
    ensures s.Publish().status == s.status
  {}

  lemma NothingKept(s: SourceState, bid: bool)
    requires BothQuiet(s) && !s.bids.updated && !s.asks.updated && SideMatches(s, s.snapshot, bid)
    ensures FinalOf(s, bid) == BestLevels(s.snapshot, Name(bid))
  {}

  lemma NeverUnknown(s: SourceState, e: Event)
    requires s.status != Unknown
    ensures s.Started(e).status != Unknown && s.Processed(e).status != Unknown
  {}

  /** The bids stay right through every event. */
  lemma HandleKeepsBids(s: SourceState, e: Event)
    requires BothQuiet(s) && s.status != Unknown && (e.Begins() || BidsRight(s)) && Quantity(e)
    ensures BidsRight(s.Handle(e).0)
  {
    hide SideMatches, SourceState.Started, SourceState.Settled, SourceState.Processed;
    NeverUnknown(s, e);
    StartedInOrder(s, e);
    ProcessedInOrder(s, e);
    ProcessedKeepsSide(s, e, true);
    SettledKeepsSide(s.Processed(e), true);
    SettledSnapshot(s.Processed(e));
  }

  /** The asks as well through one that fits, and they recover when they are cleared or rebuilt. */
  lemma HandleKeeps(s: SourceState, e: Event)
    requires BothQuiet(s) && s.status != Unknown && (e.Begins() || BidsRight(s)) && Quantity(e)
    requires Fits(s, e) && (e.Begins() || Waits(s, e) || SideMatches(s, s.snapshot, false))
    ensures Inv(s.Handle(e).0)
  {
    hide SideMatches, SourceState.Started, SourceState.Settled, SourceState.Processed, Waits, Fits;
    NeverUnknown(s, e);
    HandleKeepsBids(s, e);
    StartedInOrder(s, e);
    ProcessedInOrder(s, e);
    ProcessedKeepsSide(s, e, false);
    SettledKeepsSide(s.Processed(e), false);
  }

  // ---------- runs ----------

  function Run(feed: Feed, es: seq<Event>): SourceState {
    if es == [] then Created
    else Run(feed, es[..|es| - 1]).Step(feed, es[|es| - 1]).0
  }

  /** The times of the levels after the same events */
  ghost function RunTimes(feed: Feed, es: seq<Event>): (t: Times)
    ensures t.Of(Run(feed, es))
  {
    if es == [] then Times([], [], [], [])
    else RunTimes(feed, es[..|es| - 1]).Step(Run(feed, es[..|es| - 1]), feed, es[|es| - 1])
  }

  /** Whatever events come, a side without updates stays empty, and the status is known. */
  lemma {:induction false} RunStaysQuiet(feed: Feed, es: seq<Event>)
    ensures BothQuiet(Run(feed, es)) && Run(feed, es).status != Unknown
  {
    if es != [] {
      RunStaysQuiet(feed, es[..|es| - 1]);
      var s, e := Run(feed, es[..|es| - 1]), es[|es| - 1];
      if feed.Accepts(e) {
        HandleStaysQuiet(s, e);
      }
    }
  }

  lemma HandleStaysQuiet(s: SourceState, e: Event)
    requires BothQuiet(s) && s.status != Unknown
    ensures BothQuiet(s.Started(e)) && BothQuiet(s.Processed(e)) && BothQuiet(s.Handle(e).0)
    ensures s.Handle(e).0.status != Unknown
  {
    NeverUnknown(s, e);
    ProcessOrderStaysQuiet(s.Started(e), e.order, e.Removes());
  }

  /** The sizes of all orders since the last snapshot begin are quantities. */
  predicate Quantities(feed: Feed, es: seq<Event>) {
    es == [] ||
    var before, e := es[..|es| - 1], es[|es| - 1];
    if Foreign(feed, e) then Quantities(feed, before)
    else Quantity(e) && (OpensSnapshot(e) || Quantities(feed, before))
  }

  /** Every accepted event fits the state it meets, as far back as the asks were last cleared by a
      snapshot begin or left waiting for a rebuild. */
  predicate Orderly(feed: Feed, es: seq<Event>) {
    es == [] ||
    var before, e := es[..|es| - 1], es[|es| - 1];
    if Foreign(feed, e) then Orderly(feed, before)
    else Fits(Run(feed, before), e) && (OpensSnapshot(e) || Waits(Run(feed, before), e) || Orderly(feed, before))
  }

  lemma {:induction false} RunKeepsBids(feed: Feed, es: seq<Event>)
    requires Quantities(feed, es)
    ensures BidsRight(Run(feed, es))
  {
    if es != [] {
      var before, e := es[..|es| - 1], es[|es| - 1];
      RunStaysQuiet(feed, before);
      if !feed.Accepts(e) || !e.Begins() { RunKeepsBids(feed, before); }
      if feed.Accepts(e) { HandleKeepsBids(Run(feed, before), e); }
    }
  }

  lemma {:induction false} RunKeeps(feed: Feed, es: seq<Event>)
    requires Quantities(feed, es) && Orderly(feed, es)
    ensures Inv(Run(feed, es))
  {
    hide BidsRight, SideRight, Fits, Waits, Quantity;
    CreatedIsRight();
    if es != [] {
      var before, e := es[..|es| - 1], es[|es| - 1];
      var s := Run(feed, before);
      RunStaysQuiet(feed, before);
      if !feed.Accepts(e) || !e.Begins() { RunKeepsBids(feed, before); }
      if !feed.Accepts(e) {
        RunKeeps(feed, before);
      } else {
        if !e.Begins() && !Waits(s, e) {
          RunKeeps(feed, before);
          RightMatches(s, false);
        }
        HandleKeeps(s, e);
      }
    }
  }

  lemma CreatedIsRight()
    ensures Inv(Created)
  {}

  lemma RightMatches(s: SourceState, bid: bool)
    requires SideRight(s, bid)
    ensures SideMatches(s, s.snapshot, bid)
  {}

  /** A run without its foreign events */
  function WithoutForeign(feed: Feed, es: seq<Event>): seq<Event> {
    if es == [] then []
    else
      var before, e := WithoutForeign(feed, es[..|es| - 1]), es[|es| - 1];
      if Foreign(feed, e) then before else before + [e]
  }

  /** Foreign events leave no trace, neither in the state nor in the times, and none is ever published. */
  lemma {:induction false} ForeignDoNotCount(feed: Feed, es: seq<Event>)
    ensures var own := WithoutForeign(feed, es);
            Run(feed, es) == Run(feed, own) && RunTimes(feed, es) == RunTimes(feed, own)
    ensures es != [] && Foreign(feed, es[|es| - 1]) ==> !Published(feed, es)
    ensures es != [] && !Foreign(feed, es[|es| - 1]) ==>
              Published(feed, es) == Published(feed, WithoutForeign(feed, es))
  {
    hide SourceState.Handle, Times.Handle;
    if es != [] {
      var own, e := WithoutForeign(feed, es[..|es| - 1]), es[|es| - 1];
      ForeignDoNotCount(feed, es[..|es| - 1]);
      assert (own + [e])[..|own|] == own;
    }
  }

  /** The live orders by index, as a plain map: a snapshot begin forgets them, a removal drops one,
      anything else replaces one. */
  function Live(feed: Feed, es: seq<Event>): map<int, Order> {
    if es == [] then map[]
    else
      var e, before := es[|es| - 1], Live(feed, es[..|es| - 1]);
      if Foreign(feed, e) then before
      else
        var m := if OpensSnapshot(e) then map[] else before;
        if Withdraws(e) then m - {e.order.index} else m[e.order.index := e.order]
  }

  /** `orders` is the listing of `m` by index. */
  ghost predicate Lists(orders: seq<Order>, m: map<int, Order>) {
    && SortedByIndex(orders)
    && (forall i :: 0 <= i < |orders| ==> orders[i].index in m && m[orders[i].index] == orders[i])
    && forall k :: k in m ==> HasIndex(orders, k)
  }

  ghost predicate HasIndex(orders: seq<Order>, k: int) {
    exists i :: 0 <= i < |orders| && orders[i].index == k
  }

  lemma ListsWithout(orders: seq<Order>, m: map<int, Order>, pos: nat, k: int)
    requires Lists(orders, m) && HasOrderAt(orders, pos, k)
    ensures Lists(orders[..pos] + orders[pos + 1..], m - {k})
  {
    var after := orders[..pos] + orders[pos + 1..];
    forall x | x in m && x != k ensures HasIndex(after, x) {
      StillHasIndex(orders, pos, x);
    }
  }

  lemma StillHasIndex(orders: seq<Order>, pos: nat, x: int)
    requires HasIndex(orders, x) && pos < |orders| && orders[pos].index != x
    ensures HasIndex(orders[..pos] + orders[pos + 1..], x)
  {
    var i :| 0 <= i < |orders| && orders[i].index == x;
    assert (orders[..pos] + orders[pos + 1..])[if i < pos then i else i - 1].index == x;
  }

  lemma ListsReplaced(orders: seq<Order>, m: map<int, Order>, pos: nat, o: Order)
    requires Lists(orders, m) && HasOrderAt(orders, pos, o.index)
    ensures Lists(orders[pos := o], m[o.index := o])
  {
    assert orders[pos := o][pos].index == o.index;
    forall x | x in m && x != o.index ensures HasIndex(orders[pos := o], x) {
      var i :| 0 <= i < |orders| && orders[i].index == x;
      assert orders[pos := o][i].index == x;
    }
  }

  lemma ListsWith(orders: seq<Order>, m: map<int, Order>, o: Order, pos: nat)
    requires Lists(orders, m) && pos <= |orders|
    requires forall i :: 0 <= i < pos ==> orders[i].index < o.index
    requires forall i :: pos <= i < |orders| ==> o.index < orders[i].index
    ensures Lists(orders[..pos] + [o] + orders[pos..], m[o.index := o])
  {
    var after := orders[..pos] + [o] + orders[pos..];
    assert after[pos].index == o.index;
    forall x | x in m && x != o.index ensures HasIndex(after, x) {
      HasIndexToo(orders, o, pos, x);
    }
  }

  lemma HasIndexToo(orders: seq<Order>, o: Order, pos: nat, x: int)
    requires HasIndex(orders, x) && pos <= |orders|
    ensures HasIndex(orders[..pos] + [o] + orders[pos..], x)
  {
    var i :| 0 <= i < |orders| && orders[i].index == x;
    assert (orders[..pos] + [o] + orders[pos..])[if i < pos then i else i + 1].index == x;
  }

  lemma PositionApart(orders: seq<Order>, k: int)
    requires SortedByIndex(orders) && !HasOrderAt(orders, Position(orders, k), k)
    ensures forall i :: 0 <= i < Position(orders, k) ==> orders[i].index < k
    ensures forall i :: Position(orders, k) <= i < |orders| ==> k < orders[i].index
  {
    PositionSplits(orders, k);
  }

  lemma ListsAbsent(orders: seq<Order>, m: map<int, Order>, k: int)
    requires Lists(orders, m) && !HasOrderAt(orders, Position(orders, k), k)
    ensures m - {k} == m
  {
    PositionApart(orders, k);
  }

  lemma ListsAfter(s: SourceState, m: map<int, Order>, o: Order, rm: bool)
    requires Lists(s.snapshot, m) && (rm <== o.size == 0.0)
    ensures Lists(s.ProcessOrder(o, rm).snapshot, if rm then m - {o.index} else m[o.index := o])
  {
    var pos := Position(s.snapshot, o.index);
    if HasOrderAt(s.snapshot, pos, o.index) {
      if rm { ListsWithout(s.snapshot, m, pos, o.index); } else { ListsReplaced(s.snapshot, m, pos, o); }
    } else {
      if rm {
        ListsAbsent(s.snapshot, m, o.index);
      } else {
        PositionApart(s.snapshot, o.index);
        ListsWith(s.snapshot, m, o, pos);
      }
    }
  }

  lemma ListsHandled(s: SourceState, m: map<int, Order>, e: Event)
    requires s.status != Unknown && Lists(s.snapshot, m)
    ensures var begun := if e.Begins() then map[] else m;
            Lists(s.Handle(e).0.snapshot,
                  if e.Removes() then begun - {e.order.index} else begun[e.order.index := e.order])
  {
    NeverUnknown(s, e);
    SettledSnapshot(s.Processed(e));
    ListsAfter(s.Started(e), if e.Begins() then map[] else m, e.order, e.Removes());
  }

  lemma SettledSnapshot(s: SourceState)
    ensures s.Settled().0.snapshot == s.snapshot && s.Settled().0.status == s.status
  {}

  /** The sorted array with its fast lookup holds exactly the live orders. */
  lemma {:induction false} SnapshotIsLive(feed: Feed, es: seq<Event>)
    ensures Lists(Run(feed, es).snapshot, Live(feed, es))
  {
    if es != [] {
      SnapshotIsLive(feed, es[..|es| - 1]);
      RunStaysQuiet(feed, es[..|es| - 1]);
      var s, e := Run(feed, es[..|es| - 1]), es[|es| - 1];
      if feed.Accepts(e) {
        ListsHandled(s, Live(feed, es[..|es| - 1]), e);
      }
    }
  }

  /** Whenever a source is settled, its final bids are the ten best prices of the live buys with the
      full size on offer at each, for every run of events. */
  lemma FinalBidsAreExact(feed: Feed, es: seq<Event>)
    requires Quantities(feed, es) && Run(feed, es).status == Full
    ensures var s := Run(feed, es);
            Lists(s.snapshot, Live(feed, es)) && IsTopTen(s.finalBids, Rows(s.snapshot, Buy), true)
  {
    SnapshotIsLive(feed, es);
    RunKeepsBids(feed, es);
    RowsPositive(Run(feed, es).snapshot, Buy);
    TopIsTopTen(Rows(Run(feed, es).snapshot, Buy), true);
  }

  /** And its final asks are those of the live sells, for every orderly run. */
  lemma FinalSidesAreExact(feed: Feed, es: seq<Event>)
    requires Quantities(feed, es) && Orderly(feed, es) && Run(feed, es).status == Full
    ensures var s := Run(feed, es);
            && Lists(s.snapshot, Live(feed, es))
            && IsTopTen(s.finalBids, Rows(s.snapshot, Buy), true)
            && IsTopTen(s.finalAsks, Rows(s.snapshot, Sell), false)
  {
    FinalBidsAreExact(feed, es);
    RunKeeps(feed, es);
    RowsPositive(Run(feed, es).snapshot, Sell);
    TopIsTopTen(Rows(Run(feed, es).snapshot, Sell), false);
  }

  // ---------- when a source publishes ----------

  /** Between an accepted snapshot begin and the next accepted end or snip. */
  predicate InSnapshot(feed: Feed, es: seq<Event>) {
    if es == [] then false
    else
      var e, before := es[|es| - 1], InSnapshot(feed, es[..|es| - 1]);
      if !Foreign(feed, e) then (before || OpensSnapshot(e)) && !ClosesSnapshot(e) else before
  }

  /** The last accepted event leaves its transaction open. */
  predicate TransactionOpen(feed: Feed, es: seq<Event>) {
    if es == [] then false
    else
      var e := es[|es| - 1];
      if !Foreign(feed, e) then LeavesOpen(e) else TransactionOpen(feed, es[..|es| - 1])
  }

  predicate EverListed(feed: Feed, es: seq<Event>) {
    exists i :: 0 <= i < |es| && !Foreign(feed, es[i]) && !Withdraws(es[i])
  }

  predicate Published(feed: Feed, es: seq<Event>) {
    es != [] && Run(feed, es[..|es| - 1]).Step(feed, es[|es| - 1]).1
  }

  lemma ProcessOrderStatus(s: SourceState, o: Order, rm: bool)
    ensures s.ProcessOrder(o, rm).status == s.status
  {}

  lemma StatusAdvanced(s: SourceState, e: Event)
    requires s.status != Unknown
    ensures s.NextStatus(e) ==
            if s.status == Begin && !e.Ends() then Begin else if e.InTransaction() then Pending else Full
  {}

  lemma StatusHandled(s: SourceState, e: Event)
    requires s.status != Unknown
    ensures s.Handle(e).0.status ==
            if (s.status == Begin || e.Begins()) && !e.Ends() then Begin
            else if e.InTransaction() then Pending else Full
  {
    var t := s.Started(e);
    ProcessOrderStatus(t, e.order, e.Removes());
    StatusAdvanced(t.ProcessOrder(e.order, e.Removes()), e);
    SettledSnapshot(s.Processed(e));
  }

  /** The status machine read off the flags of the run; "unknown" is never reached. */
  lemma {:induction false} StatusExactly(feed: Feed, es: seq<Event>)
    ensures Run(feed, es).status ==
            if InSnapshot(feed, es) then Begin else if TransactionOpen(feed, es) then Pending else Full
  {
    if es != [] {
      StatusExactly(feed, es[..|es| - 1]);
      StatusHandled(Run(feed, es[..|es| - 1]), es[|es| - 1]);
    }
  }

  ghost predicate AnyUpdated(s: SourceState) {
    s.bids.updated || s.asks.updated
  }

  lemma ProcessOrderUpdates(s: SourceState, o: Order, rm: bool)
    requires BothQuiet(s) && (rm <== o.size == 0.0)
    requires !AnyUpdated(s) ==> s.snapshot == []
    ensures AnyUpdated(s.ProcessOrder(o, rm)) <==> AnyUpdated(s) || !rm
    ensures !AnyUpdated(s.ProcessOrder(o, rm)) ==> s.ProcessOrder(o, rm).snapshot == []
  {
    hide Insert, Reduce, SizeLeft, Position, BothMatch, SortedByIndex, AllSized, Top, HasPrice;
    FirstUpdates(s, o);
  }

  lemma FirstUpdates(s: SourceState, o: Order)
    requires BothQuiet(s)
    ensures AnyUpdated(s.Enter(o))
  {
    assert Insert([], LevelOf(o), true) == Insert([], LevelOf(o), false) == [LevelOf(o)];
    assert [LevelOf(o)][0].price == LevelOf(o).price;
  }

  lemma UpdatedHandled(s: SourceState, e: Event)
    requires BothQuiet(s) && s.status != Unknown && (!AnyUpdated(s) ==> s.snapshot == [])
    ensures AnyUpdated(s.Handle(e).0) <==> AnyUpdated(s) || !e.Removes()
    ensures !AnyUpdated(s.Handle(e).0) ==> s.Handle(e).0.snapshot == []
  {
    NeverUnknown(s, e);
    HandleStaysQuiet(s, e);
    ProcessOrderUpdates(s.Started(e), e.order, e.Removes());
    SettledUpdates(s.Processed(e));
  }

  lemma SettledUpdates(s: SourceState)
    ensures AnyUpdated(s.Settled().0) <==> AnyUpdated(s)
    ensures s.Settled().0.snapshot == s.snapshot
  {}

  lemma {:induction false} UpdatedExactly(feed: Feed, es: seq<Event>)
    ensures AnyUpdated(Run(feed, es)) <==> EverListed(feed, es)
    ensures !AnyUpdated(Run(feed, es)) ==> Run(feed, es).snapshot == []
  {
    if es != [] {
      var n := |es| - 1;
      var before, e := es[..n], es[n];
      UpdatedExactly(feed, before);
      RunStaysQuiet(feed, before);
      assert EverListed(feed, es) <==> EverListed(feed, before) || (feed.Accepts(e) && !e.Removes()) by {
        assert forall i :: 0 <= i < n ==> es[i] == before[i];
      }
      if feed.Accepts(e) {
        UpdatedHandled(Run(feed, before), e);
      }
    }
  }

  predicate EverListedOn(feed: Feed, es: seq<Event>, bid: bool) {
    exists i :: 0 <= i < |es| && !Foreign(feed, es[i]) && !Withdraws(es[i]) && (es[i].order.side == Buy) == bid
  }

  lemma EnterUpdatesSide(s: SourceState, o: Order, bid: bool)
    requires BothQuiet(s)
    ensures SideOf(s.Enter(o), bid).updated <==> SideOf(s, bid).updated || (o.side == Buy) == bid
  {
    EnterStaysQuiet(s, o);
    assert Insert([], LevelOf(o), true) == Insert([], LevelOf(o), false) == [LevelOf(o)];
    assert [LevelOf(o)][0].price == LevelOf(o).price;
  }

  lemma LeaveUpdatesNothing(s: SourceState, o: Order, bid: bool)
    requires BothQuiet(s)
    ensures SideOf(s.Leave(o), bid).updated == SideOf(s, bid).updated
  {}

  lemma ProcessOrderUpdatesSide(s: SourceState, o: Order, rm: bool, bid: bool)
    requires BothQuiet(s) && (rm <== o.size == 0.0)
    ensures SideOf(s.ProcessOrder(o, rm), bid).updated <==> SideOf(s, bid).updated || (!rm && (o.side == Buy) == bid)
  {
    hide Insert, Reduce, SizeLeft, Top, HasPrice, Quiet;
    var pos := Position(s.snapshot, o.index);
    EnterUpdatesSide(s, o, bid);
    EnterStaysQuiet(s, o);
    if pos < |s.snapshot| {
      LeaveUpdatesNothing(s, s.snapshot[pos], bid);
      LeaveUpdatesNothing(s.Enter(o), s.snapshot[pos], bid);
    }
  }

  lemma SettledUpdatesSide(s: SourceState, bid: bool)
    requires BothQuiet(s)
    ensures SideOf(s.Settled().0, bid).updated == SideOf(s, bid).updated
  {}

  lemma UpdatedSideHandled(s: SourceState, e: Event, bid: bool)
    requires BothQuiet(s) && s.status != Unknown
    ensures SideOf(s.Handle(e).0, bid).updated <==>
            SideOf(s, bid).updated || (!e.Removes() && (e.order.side == Buy) == bid)
  {
    NeverUnknown(s, e);
    HandleStaysQuiet(s, e);
    ProcessOrderUpdatesSide(s.Started(e), e.order, e.Removes(), bid);
    SettledUpdatesSide(s.Processed(e), bid);
  }

  /** The same for one side */
  lemma {:induction false} SideUpdatedExactly(feed: Feed, es: seq<Event>, bid: bool)
    ensures SideOf(Run(feed, es), bid).updated <==> EverListedOn(feed, es, bid)
  {
    if es != [] {
      var n := |es| - 1;
      var before, e := es[..n], es[n];
      SideUpdatedExactly(feed, before, bid);
      RunStaysQuiet(feed, before);
      assert EverListedOn(feed, es, bid) <==>
             EverListedOn(feed, before, bid) || (feed.Accepts(e) && !e.Removes() && (e.order.side == Buy) == bid) by {
        assert forall i :: 0 <= i < n ==> es[i] == before[i];
      }
      if feed.Accepts(e) {
        UpdatedSideHandled(Run(feed, before), e, bid);
      }
    }
  }

  /** Consumers are updated exactly by accepted events that leave no snapshot and no transaction
      open, once anything was ever listed. */
  lemma PublishedExactly(feed: Feed, es: seq<Event>)
    ensures Published(feed, es) <==>
            && es != [] && !Foreign(feed, es[|es| - 1])
            && !InSnapshot(feed, es) && !TransactionOpen(feed, es) && EverListed(feed, es)
  {
    if es != [] && feed.Accepts(es[|es| - 1]) {
      var s, e := Run(feed, es[..|es| - 1]), es[|es| - 1];
      StatusExactly(feed, es);
      UpdatedExactly(feed, es);
      RunStaysQuiet(feed, es[..|es| - 1]);
      PublishedHandled(s, e);
    }
  }

  lemma PublishedHandled(s: SourceState, e: Event)
    requires s.status != Unknown
    ensures s.Handle(e).1 <==> s.Handle(e).0.status == Full && AnyUpdated(s.Handle(e).0)
  {
    NeverUnknown(s, e);
    SettledUpdates(s.Processed(e));
    SettledSnapshot(s.Processed(e));
  }

  /** The orders the run has made public: those of the snapshot at the last publication, or none if
      a snapshot has begun since. */
  function PublicOrders(feed: Feed, es: seq<Event>): seq<Order> {
    if es == [] then []
    else if Published(feed, es) then Run(feed, es).snapshot
    else if !Foreign(feed, es[|es| - 1]) && OpensSnapshot(es[|es| - 1]) then []
    else PublicOrders(feed, es[..|es| - 1])
  }

  /** The last publication, if no snapshot has begun since, met an orderly run; the bids need only
      that sizes are quantities. */
  predicate RightWhenPublic(feed: Feed, es: seq<Event>, bid: bool) {
    if es == [] then true
    else if Published(feed, es) then Quantities(feed, es) && (bid || Orderly(feed, es))
    else (!Foreign(feed, es[|es| - 1]) && OpensSnapshot(es[|es| - 1])) || RightWhenPublic(feed, es[..|es| - 1], bid)
  }

  /** At all times a final side is that of the public orders: pending changes never show. */
  lemma {:induction false} FinalSidesArePublic(feed: Feed, es: seq<Event>, bid: bool)
    requires RightWhenPublic(feed, es, bid)
    ensures FinalOf(Run(feed, es), bid) == BestLevels(PublicOrders(feed, es), Name(bid))
    ensures AllSized(PublicOrders(feed, es))
  {
    if es != [] {
      var before, e := es[..|es| - 1], es[|es| - 1];
      RunStaysQuiet(feed, before);
      if Published(feed, es) {
        RunKeepsBids(feed, es);
        if !bid { RunKeeps(feed, es); }
        PublishedHandled(Run(feed, before), e);
      } else {
        if feed.Accepts(e) { FinalsHandled(Run(feed, before), e); }
        if !feed.Accepts(e) || !e.Begins() { FinalSidesArePublic(feed, before, bid); }
      }
    }
  }

  /** A settled source has made all its live orders public. */
  lemma {:induction false} SettledIsPublic(feed: Feed, es: seq<Event>)
    requires Run(feed, es).status == Full
    ensures PublicOrders(feed, es) == Run(feed, es).snapshot
  {
    if es != [] {
      var before, e := es[..|es| - 1], es[|es| - 1];
      if !feed.Accepts(e) {
        SettledIsPublic(feed, before);
      } else if !Published(feed, es) {
        RunStaysQuiet(feed, before);
        PublishedHandled(Run(feed, before), e);
        UpdatedExactly(feed, es);
        NothingPublic(feed, es);
      }
    }
  }

  lemma {:induction false} NothingPublic(feed: Feed, es: seq<Event>)
    requires !EverListed(feed, es)
    ensures PublicOrders(feed, es) == []
  {
    if es != [] {
      var before := es[..|es| - 1];
      forall i | 0 <= i < |before| && feed.Accepts(before[i]) ensures before[i].Removes() {
        assert es[i] == before[i];
      }
      PublishedExactly(feed, es);
      NothingPublic(feed, before);
    }
  }

  lemma FinalsHandled(s: SourceState, e: Event)
    requires s.status != Unknown && !s.Handle(e).1
    ensures var t := s.Handle(e).0;
            (t.finalBids, t.finalAsks) == if e.Begins() then ([], []) else (s.finalBids, s.finalAsks)
  {
    NeverUnknown(s, e);
    FinalsProcessed(s, e);
  }

  lemma FinalsProcessed(s: SourceState, e: Event)
    ensures (s.Processed(e).finalBids, s.Processed(e).finalAsks) ==
            if e.Begins() then ([], []) else (s.finalBids, s.finalAsks)
  {}

  // ---------- the times of the levels ----------

  /** An order of this side and price was listed with this time. */
  ghost predicate ListedAt(feed: Feed, es: seq<Event>, bid: bool, p: real, time: int) {
    exists k :: 0 <= k < |es| && !Foreign(feed, es[k]) && !Withdraws(es[k])
                && (es[k].order.side == Buy) == bid && es[k].order.price == p && es[k].order.time == time
  }

  ghost predicate Listed(feed: Feed, es: seq<Event>, o: Order) {
    ListedAt(feed, es, o.side == Buy, o.price, o.time)
  }

  ghost predicate AllListed(feed: Feed, es: seq<Event>, orders: seq<Order>) {
    forall i :: 0 <= i < |orders| ==> Listed(feed, es, orders[i])
  }

  ghost predicate FromOrders(feed: Feed, es: seq<Event>, levels: seq<Level>, times: seq<int>, bid: bool) {
    |times| == |levels| && forall i :: 0 <= i < |levels| ==> ListedAt(feed, es, bid, levels[i].price, times[i])
  }

  ghost predicate AllFromOrders(feed: Feed, es: seq<Event>, s: SourceState, t: Times) {
    && FromOrders(feed, es, s.bids.levels, t.bids, true) && FromOrders(feed, es, s.finalBids, t.finalBids, true)
    && FromOrders(feed, es, s.asks.levels, t.asks, false) && FromOrders(feed, es, s.finalAsks, t.finalAsks, false)
  }

  lemma EnterFromOrders(feed: Feed, es: seq<Event>, s: SourceState, t: Times, o: Order)
    requires t.Of(s) && AllFromOrders(feed, es, s, t) && Listed(feed, es, o)
    ensures AllFromOrders(feed, es, s.Enter(o), t.Enter(s, o))
  {
    hide ListedAt, Insert, Top, TimesAdded;
    var bid := o.side == Buy;
    var levels, times := SideOf(s, bid).levels, if bid then t.bids else t.asks;
    AddedTimes(times, levels, LevelOf(o), o.time, bid);
  }

  lemma LeaveFromOrders(feed: Feed, es: seq<Event>, s: SourceState, t: Times, o: Order)
    requires t.Of(s) && AllFromOrders(feed, es, s, t) && Listed(feed, es, o)
    ensures AllFromOrders(feed, es, s.Leave(o), t.Leave(s, o))
  {
    hide ListedAt, Reduce, TimesRemoved, SizeLeft;
    var bid := o.side == Buy;
    var levels, times := SideOf(s, bid).levels, if bid then t.bids else t.asks;
    RemovedTimes(times, levels, LevelOf(o), o.time, bid);
    ReducePrices(levels, LevelOf(o));
    RankSplits(levels, o.price, bid);
  }

  lemma ProcessOrderFromOrders(feed: Feed, es: seq<Event>, s: SourceState, t: Times, o: Order, rm: bool)
    requires t.Of(s) && AllFromOrders(feed, es, s, t) && AllListed(feed, es, s.snapshot) && (rm || Listed(feed, es, o))
    ensures AllFromOrders(feed, es, s.ProcessOrder(o, rm), t.ProcessOrder(s, o, rm))
  {
    hide Listed, FromOrders, Times.Of, Times.Enter, Times.Leave, SourceState.Enter, SourceState.Leave, Position;
    var pos := Position(s.snapshot, o.index);
    if !rm { EnterFromOrders(feed, es, s, t, o); }
    if pos < |s.snapshot| {
      LeaveFromOrders(feed, es, s, t, s.snapshot[pos]);
      if !rm { LeaveFromOrders(feed, es, s.Enter(o), t.Enter(s, o), s.snapshot[pos]); }
    }
  }

  lemma RebuiltFromOrders(feed: Feed, es: seq<Event>, orders: seq<Order>, side: Side)
    requires AllListed(feed, es, orders) && side != Undefined
    ensures FromOrders(feed, es, BestLevels(orders, side), LevelTimes(orders, side), side == Buy)
  {
    hide BestLevels, LevelTimes, ListedAt;
    var levels, times := BestLevels(orders, side), LevelTimes(orders, side);
    RebuiltTimes(orders, side);
    forall i | 0 <= i < |levels| ensures ListedAt(feed, es, side == Buy, levels[i].price, times[i]) {
      assert IsLastTime(orders, side, levels[i].price, times[i]);
      var k :| 0 <= k < |orders| && IsAt(orders[k], side, levels[i].price) && orders[k].time == times[i];
      assert Listed(feed, es, orders[k]);
    }
  }

  lemma PublishFromOrders(feed: Feed, es: seq<Event>, s: SourceState, t: Times)
    requires t.Of(s) && AllFromOrders(feed, es, s, t) && AllListed(feed, es, s.snapshot)
    ensures AllFromOrders(feed, es, s.Publish(), t.Publish(s))
  {
    hide BestLevels, LevelTimes, FromOrders, Times.Of;
    RebuiltFromOrders(feed, es, s.snapshot, Buy);
    RebuiltFromOrders(feed, es, s.snapshot, Sell);
  }

  lemma NothingFromOrders(feed: Feed, es: seq<Event>, bid: bool)
    ensures FromOrders(feed, es, [], [], bid)
  {}

  lemma StartedFromOrders(feed: Feed, es: seq<Event>, s: SourceState, t: Times, e: Event)
    requires t.Of(s) && AllFromOrders(feed, es, s, t) && AllListed(feed, es, s.snapshot)
    ensures AllFromOrders(feed, es, s.Started(e), t.Started(s, e)) && AllListed(feed, es, s.Started(e).snapshot)
  {
    hide FromOrders, Times.Of;
    NothingFromOrders(feed, es, true);
    NothingFromOrders(feed, es, false);
  }

  lemma HandledFromOrders(feed: Feed, es: seq<Event>, s: SourceState, t: Times, e: Event)
    requires t.Of(s) && AllFromOrders(feed, es, s, t) && AllListed(feed, es, s.snapshot) && s.status != Unknown
    requires (e.Removes() || Listed(feed, es, e.order)) && AllListed(feed, es, s.Handle(e).0.snapshot)
    ensures AllFromOrders(feed, es, s.Handle(e).0, t.Handle(s, e))
  {
    hide FromOrders, Listed, AllListed, SourceState.Started, Times.Started, SourceState.ProcessOrder;
    hide Times.ProcessOrder, SourceState.Publish, Times.Publish;
    NeverUnknown(s, e);
    StartedFromOrders(feed, es, s, t, e);
    ProcessOrderFromOrders(feed, es, s.Started(e), t.Started(s, e), e.order, e.Removes());
    SettledSnapshot(s.Processed(e));
    if s.Processed(e).Settled().1 { PublishFromOrders(feed, es, s.Processed(e), t.Processed(s, e)); }
  }

  lemma ListedOnceListed(feed: Feed, es: seq<Event>, bid: bool, p: real, time: int)
    requires es != [] && ListedAt(feed, es[..|es| - 1], bid, p, time)
    ensures ListedAt(feed, es, bid, p, time)
  {
    var before := es[..|es| - 1];
    var k :| 0 <= k < |before| && !Foreign(feed, before[k]) && !Withdraws(before[k])
             && (before[k].order.side == Buy) == bid && before[k].order.price == p && before[k].order.time == time;
    assert es[k] == before[k];
  }

  lemma {:induction false} LiveIsListed(feed: Feed, es: seq<Event>)
    ensures forall k :: k in Live(feed, es) ==> Listed(feed, es, Live(feed, es)[k])
  {
    if es != [] {
      var before, e := es[..|es| - 1], es[|es| - 1];
      LiveIsListed(feed, before);
      forall k | k in Live(feed, es) ensures Listed(feed, es, Live(feed, es)[k]) {
        var o := Live(feed, es)[k];
        if k in Live(feed, before) && Live(feed, before)[k] == o {
          ListedOnceListed(feed, es, o.side == Buy, o.price, o.time);
        } else {
          assert es[|es| - 1].order == o;
        }
      }
    }
  }

  lemma SnapshotIsListed(feed: Feed, es: seq<Event>)
    ensures AllListed(feed, es, Run(feed, es).snapshot)
  {
    SnapshotIsLive(feed, es);
    LiveIsListed(feed, es);
  }

  lemma FromOrdersOnce(feed: Feed, es: seq<Event>, levels: seq<Level>, times: seq<int>, bid: bool)
    requires es != [] && FromOrders(feed, es[..|es| - 1], levels, times, bid)
    ensures FromOrders(feed, es, levels, times, bid)
  {
    hide ListedAt;
    forall i | 0 <= i < |levels| ensures ListedAt(feed, es, bid, levels[i].price, times[i]) {
      ListedOnceListed(feed, es, bid, levels[i].price, times[i]);
    }
  }

  lemma AllListedOnce(feed: Feed, es: seq<Event>, orders: seq<Order>)
    requires es != [] && AllListed(feed, es[..|es| - 1], orders)
    ensures AllListed(feed, es, orders)
  {
    hide ListedAt;
    forall i | 0 <= i < |orders| ensures Listed(feed, es, orders[i]) {
      ListedOnceListed(feed, es, orders[i].side == Buy, orders[i].price, orders[i].time);
    }
  }

  lemma PublishCopies(s: SourceState, t: Times)
    requires t.Of(s)
    ensures var p, q := s.Publish(), t.Publish(s);
            && (p.bids.updated ==> p.finalBids == p.bids.levels && q.finalBids == q.bids)
            && (p.asks.updated ==> p.finalAsks == p.asks.levels && q.finalAsks == q.asks)
  {
    hide BestLevels, LevelTimes, Beside;
  }

  /** A settled source has published the levels it keeps, with their times. */
  lemma {:induction false} SettledTimes(feed: Feed, es: seq<Event>)
    requires Run(feed, es).status == Full
    ensures var s, t := Run(feed, es), RunTimes(feed, es);
            && (s.bids.updated ==> s.finalBids == s.bids.levels && t.finalBids == t.bids)
            && (s.asks.updated ==> s.finalAsks == s.asks.levels && t.finalAsks == t.asks)
  {
    if es != [] {
      hide SourceState.Publish, Times.Publish, SourceState.Started, SourceState.Processed, Times.Processed, Times.Of;
      var before, e := es[..|es| - 1], es[|es| - 1];
      if !feed.Accepts(e) {
        SettledTimes(feed, before);
      } else {
        var s, t := Run(feed, before), RunTimes(feed, before);
        RunStaysQuiet(feed, before);
        NeverUnknown(s, e);
        PublishCopies(s.Processed(e), t.Processed(s, e));
      }
    }
  }

  /** After any run every time on a level, kept or published, is that of an order that was listed on its
      side at its price. */
  lemma {:induction false} TimesAreOfOrders(feed: Feed, es: seq<Event>)
    ensures AllFromOrders(feed, es, Run(feed, es), RunTimes(feed, es))
  {
    hide FromOrders, AllListed, ListedAt, SourceState.Handle, Times.Handle, Times.Of;
    if es == [] {
      NothingFromOrders(feed, es, true);
      NothingFromOrders(feed, es, false);
    } else {
      var before, e := es[..|es| - 1], es[|es| - 1];
      var s, t := Run(feed, before), RunTimes(feed, before);
      TimesAreOfOrders(feed, before);
      FromOrdersOnce(feed, es, s.bids.levels, t.bids, true);
      FromOrdersOnce(feed, es, s.finalBids, t.finalBids, true);
      FromOrdersOnce(feed, es, s.asks.levels, t.asks, false);
      FromOrdersOnce(feed, es, s.finalAsks, t.finalAsks, false);
      if !Foreign(feed, e) {
        RunStaysQuiet(feed, before);
        SnapshotIsListed(feed, before);
        AllListedOnce(feed, es, s.snapshot);
        SnapshotIsListed(feed, es);
        LastIsListed(feed, es);
        HandledFromOrders(feed, es, s, t, e);
      }
    }
  }

  lemma LastIsListed(feed: Feed, es: seq<Event>)
    requires es != [] && !Foreign(feed, es[|es| - 1])
    ensures es[|es| - 1].Removes() || Listed(feed, es, es[|es| - 1].order)
  {}

  // ---------- events of small runs ----------

  const MARKET := Feed("A", "NTV")

  /** An event that lists an order of the run, or removes it. */
  function Listing(o: Order): Event { Event(true, "A", "NTV", 0, o) }
  function Removal(o: Order): Event { Event(true, "A", "NTV", REMOVE_EVENT, o) }
}
