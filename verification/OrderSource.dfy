/** One order source of a price level book: its snapshot of orders, the incrementally kept best
    levels of both sides, and the machine that decides when they are published. */
module OrderSources {
  import opened DxArrays
  import opened PriceLevels
  import opened LevelSides

  datatype Side = Undefined | Buy | Sell

  datatype Order = Order(index: int, price: real, size: real, side: Side, time: int)

  datatype Status = Unknown | Begin | Full | Pending

  const TX_PENDING: bv32 := 0x01
  const REMOVE_EVENT: bv32 := 0x02
  const SNAPSHOT_BEGIN: bv32 := 0x04
  const SNAPSHOT_END: bv32 := 0x08
  const SNAPSHOT_SNIP: bv32 := 0x10

  /** What the event listener is called with. */
  datatype Event = Event(isOrder: bool, symbol: string, source: string, flags: bv32, order: Order) {
    predicate Begins() { flags & SNAPSHOT_BEGIN != 0 }
    predicate Ends() { flags & SNAPSHOT_END != 0 || flags & SNAPSHOT_SNIP != 0 }
    predicate InTransaction() { flags & TX_PENDING != 0 }
    predicate Removes() { flags & REMOVE_EVENT != 0 || order.size == 0.0 }
  }

  /** Which orders a source listens to. */
  datatype Feed = Feed(symbol: string, source: string) {
    predicate Accepts(e: Event) {
      e.isOrder && e.symbol == symbol && e.source == source
    }
  }

  /** What is left of an order whose size is zeroed. */
  function Blank(index: int): Order {
    Order(index, 0.0, 0.0, Undefined, 0)
  }

  function LevelOf(o: Order): Level {
    Level(o.price, o.size)
  }

  ghost predicate SortedByIndex(orders: seq<Order>) {
    forall i, j :: 0 <= i < j < |orders| ==> orders[i].index < orders[j].index
  }

  /** How many orders of a sorted snapshot have a smaller index. */
  function Position(orders: seq<Order>, index: int): (pos: nat)
    ensures pos <= |orders|
  {
    if orders == [] || orders[0].index >= index then 0 else 1 + Position(orders[1..], index)
  }

  predicate HasOrderAt(orders: seq<Order>, pos: nat, index: int) {
    pos < |orders| && orders[pos].index == index
  }

  /** The live orders of one side, as levels. */
  function Rows(orders: seq<Order>, side: Side): seq<Level> {
    if orders == [] then []
    else Rows(orders[..|orders| - 1], side) + Row(orders[|orders| - 1], side)
  }

  function Row(o: Order, side: Side): seq<Level> {
    if o.side == side && o.size != 0.0 then [LevelOf(o)] else []
  }

  /** The best ten levels of the simple book of one side. */
  function BestLevels(orders: seq<Order>, side: Side): seq<Level> {
    Top(Book(Rows(orders, side), side == Buy))
  }

  datatype SourceState = SourceState(snapshot: seq<Order>, bids: SideState, asks: SideState,
                                     finalBids: seq<Level>, finalAsks: seq<Level>, status: Status) {
    function Enter(o: Order): SourceState {
      if o.side == Buy then this.(bids := bids.Add(LevelOf(o), true))
      else this.(asks := asks.Add(LevelOf(o), false))
    }

    function Leave(o: Order): SourceState {
      if o.side == Buy then this.(bids := bids.Remove(LevelOf(o)))
      else this.(asks := asks.Remove(LevelOf(o)))
    }

    function Drop(o: Order, rm: bool, pos: nat): SourceState
      requires HasOrderAt(snapshot, pos, o.index)
    {
      Leave(snapshot[pos]).(
      snapshot := if rm then snapshot[..pos] + snapshot[pos + 1..]
                  else snapshot[pos := Blank(o.index)])
    }

    function Replace(o: Order, pos: nat): SourceState
      requires HasOrderAt(snapshot, pos, o.index)
    {
      Enter(o).Leave(snapshot[pos]).(snapshot := snapshot[pos := o])
    }

    function List(o: Order, pos: nat): SourceState
      requires pos <= |snapshot|
    {
      Enter(o).(snapshot := snapshot[..pos] + [o] + snapshot[pos..])
    }

    function ResetSnapshot(): SourceState {
      this.(snapshot := [], bids := bids.(levels := []), asks := asks.(levels := []),
            finalBids := [], finalAsks := [])
    }

    /** One order processed, `rm` saying that it is a removal. */
    function ProcessOrder(o: Order, rm: bool): SourceState {
      var pos := Position(snapshot, o.index);
      if HasOrderAt(snapshot, pos, o.index) then
        if rm || o.size == 0.0 then Drop(o, rm, pos) else Replace(o, pos)
      else if !rm && o.size != 0.0 then List(o, pos)
      else this
    }

    function Rebuilt(): SourceState {
      this.(bids := if bids.rebuild then SideState(BestLevels(snapshot, Buy), false, true) else bids,
            asks := if asks.rebuild then SideState(BestLevels(snapshot, Sell), false, true) else asks)
    }

    function Publish(): SourceState {
      var r := Rebuilt();
      r.(finalBids := if r.bids.updated then r.bids.levels else finalBids,
         finalAsks := if r.asks.updated then r.asks.levels else finalAsks)
    }

    function NextStatus(e: Event): Status {
      var ended := if e.Ends() then Full else status;
      if e.InTransaction() && ended == Full then Pending
      else if !e.InTransaction() && ended == Pending then Full
      else ended
    }

    function Started(e: Event): SourceState {
      if e.Begins() then ResetSnapshot().(status := Begin) else this
    }

    /** The order of the event processed and the status advanced. */
    function Processed(e: Event): SourceState {
      var t := Started(e).ProcessOrder(e.order, e.Removes());
      t.(status := t.NextStatus(e))
    }

    /** The listener's reaction to an event it accepts: the new state, and whether the books of all
        consumers are updated. */
    function Handle(e: Event): (SourceState, bool) {
      if Started(e).status == Unknown then (Started(e), false) else Processed(e).Settled()
    }

    /** Publication, when there is anything to publish and the state is settled. */
    function Settled(): (SourceState, bool) {
      if (asks.updated || bids.updated) && status == Full then (Publish(), true) else (this, false)
    }

    function Step(feed: Feed, e: Event): (SourceState, bool) {
      if feed.Accepts(e) then Handle(e) else (this, false)
    }
  }

  /** A source as dx_plb_source_create leaves it. */
  const Created := SourceState([], SideState([], false, false), SideState([], false, false), [], [], Full)

  // ---------- the times of the levels ----------

  ghost predicate Beside(times: seq<int>, levels: seq<Level>, bid: bool) {
    |times| == |levels| <= MAX_PRICE_LEVELS && Sorted(levels, bid)
  }

  /** The times of the levels of a source, which change beside its state */
  datatype Times = Times(bids: seq<int>, asks: seq<int>, finalBids: seq<int>, finalAsks: seq<int>) {

    ghost predicate Of(s: SourceState) {
      && Beside(bids, s.bids.levels, true) && Beside(finalBids, s.finalBids, true)
      && Beside(asks, s.asks.levels, false) && Beside(finalAsks, s.finalAsks, false)
    }

    ghost function Enter(s: SourceState, o: Order): (t: Times)
      requires Of(s)
      ensures t.Of(s.Enter(o))
    {
      if o.side == Buy then
        AddedBeside(bids, s.bids.levels, LevelOf(o), o.time, true);
        this.(bids := TimesAdded(bids, s.bids.levels, o.price, o.time, true))
      else
        AddedBeside(asks, s.asks.levels, LevelOf(o), o.time, false);
        this.(asks := TimesAdded(asks, s.asks.levels, o.price, o.time, false))
    }

    ghost function Leave(s: SourceState, o: Order): (t: Times)
      requires Of(s)
      ensures t.Of(s.Leave(o))
    {
      if o.side == Buy then
        RemovedBeside(bids, s.bids.levels, LevelOf(o), o.time, true);
        this.(bids := TimesRemoved(bids, s.bids.levels, o.price, o.time, true))
      else
        RemovedBeside(asks, s.asks.levels, LevelOf(o), o.time, false);
        this.(asks := TimesRemoved(asks, s.asks.levels, o.price, o.time, false))
    }

    ghost function ProcessOrder(s: SourceState, o: Order, rm: bool): (t: Times)
      requires Of(s)
      ensures t.Of(s.ProcessOrder(o, rm))
    {
      var pos := Position(s.snapshot, o.index);
      if HasOrderAt(s.snapshot, pos, o.index) then
        if rm || o.size == 0.0 then Leave(s, s.snapshot[pos]) else Enter(s, o).Leave(s.Enter(o), s.snapshot[pos])
      else if !rm && o.size != 0.0 then Enter(s, o)
      else this
    }

    ghost function Publish(s: SourceState): (t: Times)
      requires Of(s)
      ensures t.Of(s.Publish())
    {
      var r := s.Rebuilt();
      var b, a := if s.bids.rebuild then LevelTimes(s.snapshot, Buy) else bids,
                  if s.asks.rebuild then LevelTimes(s.snapshot, Sell) else asks;
      BestLevelsSorted(s.snapshot, Buy);
      BestLevelsSorted(s.snapshot, Sell);
      Times(b, a, if r.bids.updated then b else finalBids, if r.asks.updated then a else finalAsks)
    }

    ghost function Started(s: SourceState, e: Event): (t: Times)
      requires Of(s)
      ensures t.Of(s.Started(e))
    {
      if e.Begins() then Times([], [], [], []) else this
    }

    ghost function Processed(s: SourceState, e: Event): (t: Times)
      requires Of(s)
      ensures t.Of(s.Processed(e))
    {
      Started(s, e).ProcessOrder(s.Started(e), e.order, e.Removes())
    }

    ghost function Settled(s: SourceState): (t: Times)
      requires Of(s)
      ensures t.Of(s.Settled().0)
    {
      if s.Settled().1 then Publish(s) else this
    }

    ghost function Handle(s: SourceState, e: Event): (t: Times)
      requires Of(s)
      ensures t.Of(s.Handle(e).0)
    {
      if s.Started(e).status == Unknown then Started(s, e) else Processed(s, e).Settled(s.Processed(e))
    }

    ghost function Step(s: SourceState, feed: Feed, e: Event): (t: Times)
      requires Of(s)
      ensures t.Of(s.Step(feed, e).0)
    {
      if feed.Accepts(e) then Handle(s, e) else this
    }
  }

  lemma AddedBeside(times: seq<int>, levels: seq<Level>, l: Level, time: int, bid: bool)
    requires Beside(times, levels, bid)
    ensures Beside(TimesAdded(times, levels, l.price, time, bid), Top(Insert(levels, l, bid)), bid)
  {
    AddedLength(times, levels, l, time, bid);
    InsertSorted(levels, l, bid);
  }

  lemma RemovedBeside(times: seq<int>, levels: seq<Level>, l: Level, time: int, bid: bool)
    requires Beside(times, levels, bid)
    ensures Beside(TimesRemoved(times, levels, l.price, time, bid), Reduce(levels, l), bid)
  {
    ReducePrices(levels, l);
  }

  lemma {:induction false} ReducePrices(levels: seq<Level>, l: Level)
    ensures |Reduce(levels, l)| == |levels|
    ensures forall i :: 0 <= i < |levels| ==> Reduce(levels, l)[i].price == levels[i].price
  {
    if levels != [] && levels[0].price != l.price {
      ReducePrices(levels[1..], l);
    }
  }

  lemma BestLevelsSorted(orders: seq<Order>, side: Side)
    ensures Sorted(BestLevels(orders, side), side == Buy) && |BestLevels(orders, side)| <= MAX_PRICE_LEVELS
  {
    BookIsAggregate(Rows(orders, side), side == Buy);
  }

  class OrderSource {
    const feed: Feed
    const snapshot: DxArray<Order>
    const bids: LevelSide
    const asks: LevelSide
    const finalBids: LevelSide
    const finalAsks: LevelSide
    var status: Status

    ghost predicate Valid()
      reads this, snapshot, snapshot.elements, bids, bids.levels, asks, asks.levels,
            finalBids, finalBids.levels, finalAsks, finalAsks.levels
    {
      && snapshot.Valid() && SortedByIndex(snapshot.Contents())
      && bids.Valid() && bids.bid && finalBids.Valid() && finalBids.bid
      && asks.Valid() && !asks.bid && finalAsks.Valid() && !finalAsks.bid
      && bids != finalBids && asks != finalAsks
      && bids.levels != finalBids.levels && bids.levels != asks.levels && bids.levels != finalAsks.levels
      && finalBids.levels != asks.levels && finalBids.levels != finalAsks.levels
      && asks.levels != finalAsks.levels
    }

    ghost function State(): SourceState
      reads this, snapshot, snapshot.elements, bids, bids.levels, asks, asks.levels,
            finalBids, finalBids.levels, finalAsks, finalAsks.levels
      requires Valid()
    {
      SourceState(snapshot.Contents(), bids.State(), asks.State(),
                  finalBids.State().levels, finalAsks.State().levels, status)
    }

    /** The times of its levels */
    ghost function Clock(): (t: Times)
      reads this, snapshot, snapshot.elements, bids, bids.levels, asks, asks.levels,
            finalBids, finalBids.levels, finalAsks, finalAsks.levels
      requires Valid()
      ensures t.Of(State())
    {
      Times(bids.times[..bids.count], asks.times[..asks.count],
                  finalBids.times[..finalBids.count], finalAsks.times[..finalAsks.count])
    }

    /** dx_plb_source_create, as far as this state goes. */
    constructor (feed: Feed)
      ensures Valid() && fresh(snapshot) && fresh(snapshot.elements)
      ensures fresh(bids) && fresh(bids.levels) && fresh(asks) && fresh(asks.levels)
      ensures fresh(finalBids) && fresh(finalBids.levels) && fresh(finalAsks) && fresh(finalAsks.levels)
      ensures this.feed == feed && State() == Created
      ensures Clock() == Times([], [], [], [])
    {
      var orders := new DxArray();
      var b := new LevelSide(true);
      var a := new LevelSide(false);
      var fb := new LevelSide(true);
      var fa := new LevelSide(false);
      this.feed, status, snapshot := feed, Full, orders;
      bids, asks, finalBids, finalAsks := b, a, fb, fa;
      new;
      assert snapshot.Contents() == [];
      assert |bids.State().levels| == bids.count == |finalBids.State().levels| == finalBids.count == 0;
      assert |asks.State().levels| == asks.count == |finalAsks.State().levels| == finalAsks.count == 0;
      assert Valid();
    }

    /** Where an order is, or belongs: the slot named by the low half of its index is tried first,
        and otherwise halves the range of the binary search. */
    method Locate(index: int) returns (found: bool, pos: nat)
      requires Valid()
      ensures pos == Position(snapshot.Contents(), index)
      ensures found <==> HasOrderAt(snapshot.Contents(), pos, index)
    {
      var orders := snapshot.elements[..snapshot.size];
      found := true;
      pos := index % 0x1_0000_0000;
      if pos >= snapshot.size || orders[pos].index != index {
        var top, bottom := 0, snapshot.size;
        if pos < snapshot.size {
          if orders[pos].index < index {
            top, bottom := pos, snapshot.size;
          } else {
            top, bottom := 0, pos;
          }
        }
        found, pos := BinarySearch(orders, top, bottom, (o: Order) => NumericComparator(o.index, index));
      }
      PositionIs(orders, index, pos);
    }

    /** dx_plb_source_add_order_to_levels on the side the order belongs to */
    method Enter(o: Order)
      requires Valid()
      modifies bids, bids.levels, asks, asks.levels
      ensures Valid()
      ensures State() == old(State()).Enter(o)
      ensures Clock() == old(Clock().Enter(State(), o))
    {
      if o.side == Buy {
        bids.AddOrder(LevelOf(o), o.time);
      } else {
        asks.AddOrder(LevelOf(o), o.time);
      }
    }

    /** dx_plb_source_remove_order_from_levels on the side the order belongs to */
    method Leave(o: Order)
      requires Valid()
      modifies bids, bids.levels, asks, asks.levels
      ensures Valid()
      ensures State() == old(State()).Leave(o)
      ensures Clock() == old(Clock().Leave(State(), o))
    {
      if o.side == Buy {
        bids.RemoveOrder(LevelOf(o), o.time);
      } else {
        asks.RemoveOrder(LevelOf(o), o.time);
      }
    }

    /** An order of the snapshot is removed, or blanked out when its size is zeroed. */
    method Drop(order: Order, rm: bool, pos: nat)
      requires Valid() && HasOrderAt(snapshot.Contents(), pos, order.index)
      modifies snapshot, snapshot.elements, bids, bids.levels, asks, asks.levels
      ensures Valid()
      ensures snapshot.elements == old(snapshot.elements) || fresh(snapshot.elements)
      ensures State() == old(State()).Drop(order, rm, pos)
      ensures Clock() == old(Clock().Leave(State(), State().snapshot[pos]))
    {
      hide SourceState.Leave, SourceState.Enter, Times.Leave, Times.Enter, Sorted;
      Leave(snapshot.elements[pos]);
      if rm {
        snapshot.Delete(pos);
      } else {
        snapshot.elements[pos] := Blank(order.index);
        assert snapshot.Contents() == old(snapshot.Contents())[pos := Blank(order.index)];
      }
    }

    /** An order of the snapshot is replaced; the new one is added to the levels first. */
    method Replace(order: Order, pos: nat)
      requires Valid() && HasOrderAt(snapshot.Contents(), pos, order.index)
      modifies snapshot, snapshot.elements, bids, bids.levels, asks, asks.levels
      ensures Valid()
      ensures snapshot.elements == old(snapshot.elements)
      ensures State() == old(State()).Replace(order, pos)
      ensures Clock() == old(Clock().Enter(State(), order).Leave(State().Enter(order), State().snapshot[pos]))
    {
      hide SourceState.Leave, SourceState.Enter, Times.Leave, Times.Enter, Sorted;
      Enter(order);
      Leave(snapshot.elements[pos]);
      snapshot.elements[pos] := order;
      assert snapshot.Contents() == old(snapshot.Contents())[pos := order];
    }

    /** A new order takes its place in the snapshot. */
    method List(order: Order, pos: nat)
      requires Valid() && pos == Position(snapshot.Contents(), order.index)
      requires !HasOrderAt(snapshot.Contents(), pos, order.index)
      modifies snapshot, snapshot.elements, bids, bids.levels, asks, asks.levels
      ensures Valid()
      ensures snapshot.elements == old(snapshot.elements) || fresh(snapshot.elements)
      ensures State() == old(State()).List(order, pos)
      ensures Clock() == old(Clock().Enter(State(), order))
    {
      hide SideState.Add, Sorted, TimesAdded, LevelTimes, SortedByIndex, Position;
      InsertedInOrder(snapshot.Contents(), order);
      snapshot.Insert(order, pos);
      Enter(order);
    }

    /** dx_plb_source_process_order */
    method ProcessOrder(order: Order, rm: bool)
      requires Valid()
      modifies snapshot, snapshot.elements, bids, bids.levels, asks, asks.levels
      ensures Valid()
      ensures snapshot.elements == old(snapshot.elements) || fresh(snapshot.elements)
      ensures State() == old(State()).ProcessOrder(order, rm)
      ensures Clock() == old(Clock().ProcessOrder(State(), order, rm))
    {
      var found, pos := Locate(order.index);
      if found {
        if rm || order.size == 0.0 {
          Drop(order, rm, pos);
        } else {
          Replace(order, pos);
        }
      } else if !rm && order.size != 0.0 {
        List(order, pos);
      }
    }

    /** dx_plb_source_reset_snapshot */
    method ResetSnapshot()
      requires Valid()
      modifies snapshot, bids, bids.levels, asks, asks.levels
      modifies finalBids, finalBids.levels, finalAsks, finalAsks.levels
      ensures Valid() && snapshot.elements == old(snapshot.elements)
      ensures State() == old(State()).ResetSnapshot()
      ensures Clock() == Times([], [], [], [])
    {
      snapshot.size := 0;
      bids.Clear();
      finalBids.CopyFrom(bids);
      asks.Clear();
      finalAsks.CopyFrom(asks);
    }

    /** The rebuilds and the two side assignments of plb_event_listener */
    method Publish()
      requires Valid()
      modifies bids, bids.levels, asks, asks.levels
      modifies finalBids, finalBids.levels, finalAsks, finalAsks.levels
      ensures Valid()
      ensures State() == old(State()).Publish()
      ensures Clock() == old(Clock().Publish(State()))
    {
      PublishSide(snapshot.elements[..snapshot.size], bids, finalBids, Buy);
      PublishSide(snapshot.elements[..snapshot.size], asks, finalAsks, Sell);
    }

    /** plb_event_listener; `published` when it goes on to update the books of all consumers. */
    method OnEvent(e: Event) returns (published: bool)
      requires Valid()
      modifies this`status, snapshot, snapshot.elements, bids, bids.levels, asks, asks.levels
      modifies finalBids, finalBids.levels, finalAsks, finalAsks.levels
      ensures Valid()
      ensures snapshot.elements == old(snapshot.elements) || fresh(snapshot.elements)
      ensures (State(), published) == old(State()).Step(feed, e)
      ensures Clock() == old(Clock().Step(State(), feed, e))
    {
      published := false;
      if !e.isOrder {
        return;
      }
      if feed.symbol != e.symbol {
        return;
      }
      if feed.source != e.source {
        return;
      }
      published := Handle(e);
    }

    /** plb_event_listener from the point where the event is accepted */
    method Handle(e: Event) returns (published: bool)
      requires Valid()
      modifies this`status, snapshot, snapshot.elements, bids, bids.levels, asks, asks.levels
      modifies finalBids, finalBids.levels, finalAsks, finalAsks.levels
      ensures Valid()
      ensures snapshot.elements == old(snapshot.elements) || fresh(snapshot.elements)
      ensures (State(), published) == old(State()).Handle(e)
      ensures Clock() == old(Clock().Handle(State(), e))
    {
      published := false;
      Start(e);
      if status == Unknown {
        return;
      }
      ProcessOrder(e.order, e.Removes());
      AdvanceStatus(e);
      published := Settle();
    }

    method Start(e: Event)
      requires Valid()
      modifies this`status, snapshot, bids, bids.levels, asks, asks.levels
      modifies finalBids, finalBids.levels, finalAsks, finalAsks.levels
      ensures Valid() && snapshot.elements == old(snapshot.elements)
      ensures State() == old(State()).Started(e)
      ensures Clock() == old(Clock().Started(State(), e))
    {
      if e.Begins() {
        ResetSnapshot();
        status := Begin;
      }
    }

    method Settle() returns (published: bool)
      requires Valid()
      modifies bids, bids.levels, asks, asks.levels
      modifies finalBids, finalBids.levels, finalAsks, finalAsks.levels
      ensures Valid()
      ensures (State(), published) == old(State()).Settled()
      ensures Clock() == old(Clock().Settled(State()))
    {
      published := (asks.updated || bids.updated) && status == Full;
      if published {
        Publish();
      }
    }

    method AdvanceStatus(e: Event)
      requires Valid()
      modifies this`status
      ensures Valid()
      ensures State() == old(State()).(status := old(State()).NextStatus(e))
      ensures Clock() == old(Clock())
    {
      if e.Ends() {
        status := Full;
      }
      if e.InTransaction() && status == Full {
        status := Pending;
      } else if !e.InTransaction() && status == Pending {
        status := Full;
      }
    }
  }

  method PublishSide(orders: seq<Order>, ob: LevelSide, final: LevelSide, side: Side)
    requires ob.Valid() && final.Valid() && ob.bid == final.bid == (side == Buy)
    requires ob != final && ob.levels != final.levels
    modifies ob, ob.levels, final, final.levels
    ensures ob.Valid() && final.Valid()
    ensures ob.State() ==
            if old(ob.rebuild) then SideState(BestLevels(orders, side), false, true) else old(ob.State())
    ensures final.State().levels == if ob.updated then ob.State().levels else old(final.State().levels)
    ensures if old(ob.rebuild) then ob.times[..ob.count] == LevelTimes(orders, side) else ob.times == old(ob.times)
    ensures final.times == if ob.updated then ob.times else old(final.times)
  {
    if ob.rebuild {
      RebuildLevels(orders, ob, side);
    }
    if ob.updated {
      final.CopyFrom(ob);
    }
  }

  /** dx_plb_source_rebuild_levels */
  method RebuildLevels(orders: seq<Order>, ob: LevelSide, side: Side)
    requires ob.Valid() && ob.bid == (side == Buy)
    modifies ob, ob.levels
    ensures ob.Valid()
    ensures ob.State() == SideState(BestLevels(orders, side), false, true)
    ensures ob.times[..ob.count] == LevelTimes(orders, side)
  {
    hide LevelTimes, BestLevels;
    NothingRebuilt(orders, side);
    ob.Clear();
    for i := 0 to |orders|
      invariant ob.Valid() && ob.times[..ob.count] == LevelTimes(orders[..i], side)
      invariant ob.State().levels == BestLevels(orders[..i], side)
    {
      BestLevelsStep(orders, side, i);
      LevelTimesStep(orders, side, i);
      if orders[i].side != side || orders[i].size == 0.0 {
        continue;
      }
      ob.AddOrder(LevelOf(orders[i]), orders[i].time);
    }
    assert orders[..|orders|] == orders;
    ob.rebuild := false;
    ob.updated := true;
  }

  /** The times a rebuild leaves on the best ten levels: that of the last order at each price, in the
      order of the snapshot, since the level was last taken in. */
  function LevelTimes(orders: seq<Order>, side: Side): (r: seq<int>)
    ensures |r| == |BestLevels(orders, side)|
  {
    if orders == [] then []
    else
      var n := |orders| - 1;
      var o, times, levels := orders[n], LevelTimes(orders[..n], side), BestLevels(orders[..n], side);
      BestLevelsStep(orders, side, n);
      assert orders[..n + 1] == orders;
      BookIsAggregate(Rows(orders[..n], side), side == Buy);
      AddedLength(times, levels, LevelOf(o), o.time, side == Buy);
      if o.side != side || o.size == 0.0 then times else TimesAdded(times, levels, o.price, o.time, side == Buy)
  }

  /** The last order of a side at a price has this time. */
  ghost predicate IsLastTime(orders: seq<Order>, side: Side, p: real, time: int) {
    exists k :: 0 <= k < |orders| && IsAt(orders[k], side, p) && orders[k].time == time
                && forall j :: k < j < |orders| ==> !IsAt(orders[j], side, p)
  }

  predicate IsAt(o: Order, side: Side, p: real) {
    o.side == side && o.size != 0.0 && o.price == p
  }

  /** A rebuild gives every level the time of the last order of its price in the snapshot. */
  lemma {:induction false} RebuiltTimes(orders: seq<Order>, side: Side)
    ensures forall i :: 0 <= i < |BestLevels(orders, side)| ==>
                          IsLastTime(orders, side, BestLevels(orders, side)[i].price, LevelTimes(orders, side)[i])
  {
    hide BestLevels, LevelTimes, TimesAdded, Insert, Top;
    if orders == [] {
      NothingRebuilt(orders, side);
      assert orders[..0] == orders;
    } else {
      var n := |orders| - 1;
      var o, levels, times := orders[n], BestLevels(orders[..n], side), LevelTimes(orders[..n], side);
      RebuiltTimes(orders[..n], side);
      BestLevelsStep(orders, side, n);
      LevelTimesStep(orders, side, n);
      assert orders[..n + 1] == orders;
      if o.side == side && o.size != 0.0 {
        BestLevelsSorted(orders[..n], side);
        AddedTimes(times, levels, LevelOf(o), o.time, side == Buy);
      }
      var after, r := BestLevels(orders, side), LevelTimes(orders, side);
      forall i | 0 <= i < |after| ensures IsLastTime(orders, side, after[i].price, r[i]) {
        if IsAt(o, side, after[i].price) {
          assert orders[n].time == r[i];
        } else if o.side == side && o.size != 0.0 {
          var k :| 0 <= k < |levels| && levels[k].price == after[i].price && times[k] == r[i];
          LastTimeStays(orders, side, after[i].price, r[i]);
        } else {
          LastTimeStays(orders, side, after[i].price, r[i]);
        }
      }
    }
  }

  lemma LastTimeStays(orders: seq<Order>, side: Side, p: real, time: int)
    requires orders != [] && !IsAt(orders[|orders| - 1], side, p)
    requires IsLastTime(orders[..|orders| - 1], side, p, time)
    ensures IsLastTime(orders, side, p, time)
  {
    var before := orders[..|orders| - 1];
    var k :| 0 <= k < |before| && IsAt(before[k], side, p) && before[k].time == time
             && forall j :: k < j < |before| ==> !IsAt(before[j], side, p);
    assert orders[k] == before[k];
    forall j | k < j < |orders| ensures !IsAt(orders[j], side, p) {
      if j < |before| { assert orders[j] == before[j]; }
    }
  }

  lemma NothingRebuilt(orders: seq<Order>, side: Side)
    ensures BestLevels(orders[..0], side) == [] && LevelTimes(orders[..0], side) == []
  {}

  lemma LevelTimesStep(orders: seq<Order>, side: Side, i: nat)
    requires i < |orders|
    ensures LevelTimes(orders[..i + 1], side) ==
            var o, times, levels := orders[i], LevelTimes(orders[..i], side), BestLevels(orders[..i], side);
            if o.side != side || o.size == 0.0 then times else TimesAdded(times, levels, o.price, o.time, side == Buy)
  {
    hide BestLevels;
    assert orders[..i + 1][..i] == orders[..i];
  }

  lemma BestLevelsStep(orders: seq<Order>, side: Side, i: nat)
    requires i < |orders|
    ensures BestLevels(orders[..i + 1], side) ==
            if orders[i].side != side || orders[i].size == 0.0 then BestLevels(orders[..i], side)
            else Top(Insert(BestLevels(orders[..i], side), LevelOf(orders[i]), side == Buy))
  {
    assert orders[..i + 1][..i] == orders[..i];
    var rows := Rows(orders[..i], side);
    var l := LevelOf(orders[i]);
    assert (rows + [l])[..|rows|] == rows && rows + [] == rows;
    TakeInsert(Book(rows, side == Buy), l, side == Buy, MAX_PRICE_LEVELS);
  }

  lemma {:induction false} PositionSplits(orders: seq<Order>, index: int)
    requires SortedByIndex(orders)
    ensures forall i :: 0 <= i < Position(orders, index) ==> orders[i].index < index
    ensures forall i :: Position(orders, index) <= i < |orders| ==> index <= orders[i].index
  {
    if orders != [] && orders[0].index < index {
      PositionSplits(orders[1..], index);
      var pos := Position(orders, index);
      forall i | 0 <= i < pos ensures orders[i].index < index {
        assert i > 0 ==> orders[i] == orders[1..][i - 1];
      }
      forall i | pos <= i < |orders| ensures index <= orders[i].index {
        assert orders[i] == orders[1..][i - 1];
      }
    }
  }

  lemma InsertedInOrder(orders: seq<Order>, o: Order)
    requires SortedByIndex(orders)
    requires !HasOrderAt(orders, Position(orders, o.index), o.index)
    ensures var pos := Position(orders, o.index); SortedByIndex(orders[..pos] + [o] + orders[pos..])
  {
    PositionSplits(orders, o.index);
  }

  lemma {:induction false} PositionIs(orders: seq<Order>, index: int, pos: nat)
    requires SortedByIndex(orders) && pos <= |orders|
    requires pos > 0 ==> orders[pos - 1].index < index
    requires pos < |orders| ==> index <= orders[pos].index
    ensures Position(orders, index) == pos
  {
    if pos > 0 {
      PositionIs(orders[1..], index, pos - 1);
    }
  }
}
