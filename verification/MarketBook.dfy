/** A price level book over several sources: what it holds after any interleaving of their events. */
module MarketBook {
  import opened PriceLevels
  import opened LevelSides
  import opened OrderSources
  import opened SourceRuns
  import opened BookMerge

  /** The published sides of one side of the market, source by source. */
  function Finals(states: seq<SourceState>, side: Side): seq<seq<Level>> {
    seq(|states|, j requires 0 <= j < |states| => if side == Buy then states[j].finalBids else states[j].finalAsks)
  }

  /** The live orders of that side, source by source. */
  function AllRows(states: seq<SourceState>, side: Side): seq<seq<Level>> {
    seq(|states|, j requires 0 <= j < |states| => Rows(states[j].snapshot, side))
  }

  /** The orders of that side that each source last made public */
  function PublicRows(feeds: seq<Feed>, runs: seq<seq<Event>>, side: Side): seq<seq<Level>>
    requires |feeds| == |runs|
  {
    seq(|runs|, j requires 0 <= j < |runs| => Rows(PublicOrders(feeds[j], runs[j]), side))
  }

  ghost predicate AfterRuns(states: seq<SourceState>, feeds: seq<Feed>, runs: seq<seq<Event>>) {
    && |feeds| == |runs| == |states|
    && forall j :: 0 <= j < |runs| ==> states[j] == Run(feeds[j], runs[j])
  }

  ghost predicate AllRight(feeds: seq<Feed>, runs: seq<seq<Event>>, side: Side) {
    |feeds| == |runs| && forall j :: 0 <= j < |runs| ==> RightWhenPublic(feeds[j], runs[j], side == Buy)
  }

  lemma RowIn(levels: seq<Level>, p: real)
    requires SizeAt(levels, p) != 0.0
    ensures exists l :: l in levels && l.price == p
  {
    if !HasPrice(levels, p) {
      SizeAtAbsent(levels, p);
    }
    var i :| 0 <= i < |levels| && levels[i].price == p;
    assert levels[i] in levels;
  }

  /** Merging what the sources have published, whatever state each of them is in, gives the ten best
      prices of all public orders of all sources, with the sizes added up across sources; the start
      value of the merge takes nothing away if no order is worse than it. */
  lemma MergedRunsAreExact(feeds: seq<Feed>, runs: seq<seq<Event>>, states: seq<SourceState>, side: Side, start: real)
    requires AfterRuns(states, feeds, runs) && AllRight(feeds, runs, side) && side != Undefined
    ensures AllBooks(Finals(states, side), side == Buy)
    ensures var top := Top(Book(Flat(Finals(states, side)), side == Buy));
            && top == Top(Book(Flat(PublicRows(feeds, runs, side)), side == Buy))
            && IsTopTen(top, Flat(PublicRows(feeds, runs, side)), side == Buy)
            && ((forall l :: l in Flat(PublicRows(feeds, runs, side)) ==> !Better(side == Buy, start, l.price)) ==>
                  NotWorse(top, start, side == Buy) == top)
  {
    var rows, tops, bid := PublicRows(feeds, runs, side), Finals(states, side), side == Buy;
    forall j | 0 <= j < |states| ensures Positive(rows[j]) && tops[j] == Top(Book(rows[j], bid)) {
      FinalSidesArePublic(feeds[j], runs[j], side == Buy);
      RowsPositive(PublicOrders(feeds[j], runs[j]), side);
    }
    MergeIsExact(rows, tops, bid);
    NothingCut(Flat(rows), Top(Book(Flat(tops), bid)), start, bid);
  }

  lemma NothingCut(rows: seq<Level>, top: seq<Level>, start: real, bid: bool)
    requires IsTopTen(top, rows, bid)
    ensures (forall l :: l in rows ==> !Better(bid, start, l.price)) ==> NotWorse(top, start, bid) == top
  {
    if forall l :: l in rows ==> !Better(bid, start, l.price) {
      forall i | 0 <= i < |top| ensures !Better(bid, start, top[i].price) {
        RowIn(rows, top[i].price);
      }
      StartValueExactly(top, start, bid);
    }
  }

  /** When every source is settled these are all live orders. */
  lemma SettledRunsArePublic(feeds: seq<Feed>, runs: seq<seq<Event>>, states: seq<SourceState>, side: Side)
    requires AfterRuns(states, feeds, runs)
    requires forall j :: 0 <= j < |states| ==> states[j].status == Full
    ensures PublicRows(feeds, runs, side) == AllRows(states, side)
  {
    forall j | 0 <= j < |states| ensures Rows(PublicOrders(feeds[j], runs[j]), side) == Rows(states[j].snapshot, side) {
      SettledIsPublic(feeds[j], runs[j]);
    }
  }

  // ---------- the sources and the book together ----------

  function Start(side: Side): real {
    if side == Buy then 0.0 else LARGEST_ASK
  }

  /** What a merge of these published sides writes */
  function Merge(sides: seq<seq<Level>>, side: Side): seq<Level> {
    NotWorse(Top(Book(Flat(sides), side == Buy)), Start(side), side == Buy)
  }

  /** An event reaches the listener of one of the sources. */
  datatype Arrival = Arrival(source: nat, event: Event)

  datatype Market = Market(sources: seq<SourceState>, bids: seq<Level>, asks: seq<Level>) {

    /** dx_plb_book_update, called for the book by the source `from` */
    function Updated(from: SourceState): Market {
      this.(bids := if from.bids.updated then Merge(Finals(sources, Buy), Buy) else bids,
            asks := if from.asks.updated then Merge(Finals(sources, Sell), Sell) else asks)
    }

    function Step(feeds: seq<Feed>, a: Arrival): Market
      requires a.source < |feeds| == |sources|
    {
      var (s, published) := sources[a.source].Step(feeds[a.source], a.event);
      var after := this.(sources := sources[a.source := s]);
      if published then after.Updated(s) else after
    }
  }

  predicate ToSources(arrivals: seq<Arrival>, n: nat) {
    forall i :: 0 <= i < |arrivals| ==> arrivals[i].source < n
  }

  function MarketRun(feeds: seq<Feed>, arrivals: seq<Arrival>): (m: Market)
    requires ToSources(arrivals, |feeds|)
    ensures |m.sources| == |feeds|
  {
    if arrivals == [] then Market(seq(|feeds|, _ => Created), [], [])
    else MarketRun(feeds, arrivals[..|arrivals| - 1]).Step(feeds, arrivals[|arrivals| - 1])
  }

  /** The events that reach one source */
  function Own(arrivals: seq<Arrival>, j: nat): seq<Event> {
    if arrivals == [] then []
    else
      var before, a := Own(arrivals[..|arrivals| - 1], j), arrivals[|arrivals| - 1];
      if a.source == j then before + [a.event] else before
  }

  function Owns(arrivals: seq<Arrival>, n: nat): seq<seq<Event>> {
    seq(n, j requires 0 <= j < n => Own(arrivals, j))
  }

  /** Each source only sees its own events. */
  lemma {:induction false} SourcesRunApart(feeds: seq<Feed>, arrivals: seq<Arrival>, j: nat)
    requires ToSources(arrivals, |feeds|) && j < |feeds|
    ensures MarketRun(feeds, arrivals).sources[j] == Run(feeds[j], Own(arrivals, j))
  {
    if arrivals != [] {
      var before, a := arrivals[..|arrivals| - 1], arrivals[|arrivals| - 1];
      SourcesRunApart(feeds, before, j);
      assert (Own(before, j) + [a.event])[..|Own(before, j)|] == Own(before, j);
    }
  }

  lemma MarketRuns(feeds: seq<Feed>, arrivals: seq<Arrival>)
    requires ToSources(arrivals, |feeds|)
    ensures AfterRuns(MarketRun(feeds, arrivals).sources, feeds, Owns(arrivals, |feeds|))
  {
    forall j | 0 <= j < |feeds|
      ensures MarketRun(feeds, arrivals).sources[j] == Run(feeds[j], Own(arrivals, j))
    {
      SourcesRunApart(feeds, arrivals, j);
    }
  }

  /** The last arrival makes its source publish, and an order was ever listed on that side of it. */
  predicate Merges(feeds: seq<Feed>, arrivals: seq<Arrival>, side: Side)
    requires ToSources(arrivals, |feeds|)
  {
    && arrivals != []
    && var j := arrivals[|arrivals| - 1].source;
       Published(feeds[j], Own(arrivals, j)) && EverListedOn(feeds[j], Own(arrivals, j), side == Buy)
  }

  /** The public orders of all sources at the last merge of that side */
  function MergedRows(feeds: seq<Feed>, arrivals: seq<Arrival>, side: Side): seq<Level>
    requires ToSources(arrivals, |feeds|)
  {
    if arrivals == [] then []
    else if Merges(feeds, arrivals, side) then Flat(PublicRows(feeds, Owns(arrivals, |feeds|), side))
    else MergedRows(feeds, arrivals[..|arrivals| - 1], side)
  }

  /** At the last merge of that side what each source had published was right. */
  ghost predicate RightWhenMerged(feeds: seq<Feed>, arrivals: seq<Arrival>, side: Side)
    requires ToSources(arrivals, |feeds|)
  {
    if arrivals == [] then true
    else if Merges(feeds, arrivals, side) then AllRight(feeds, Owns(arrivals, |feeds|), side)
    else RightWhenMerged(feeds, arrivals[..|arrivals| - 1], side)
  }

  function SideOfBook(m: Market, side: Side): seq<Level> {
    if side == Buy then m.bids else m.asks
  }

  /** The best ten levels of these orders up to the first that is worse than the start value */
  function Shown(rows: seq<Level>, side: Side): seq<Level> {
    NotWorse(Top(Book(rows, side == Buy)), Start(side), side == Buy)
  }

  /** Which of sorted levels the start value keeps: the first ones, those that are not worse than it. */
  lemma {:induction false} NotWorseKeeps(levels: seq<Level>, start: real, bid: bool)
    requires Sorted(levels, bid)
    ensures NotWorse(levels, start, bid) <= levels
    ensures forall l :: l in NotWorse(levels, start, bid) <==> l in levels && !Better(bid, start, l.price)
  {
    if levels != [] {
      var rest := levels[1..];
      assert levels == [levels[0]] + rest;
      if Better(bid, start, levels[0].price) {
        forall l | l in levels ensures Better(bid, start, l.price) {
          var i :| 0 <= i < |levels| && levels[i] == l;
        }
      } else {
        NotWorseKeeps(rest, start, bid);
      }
    }
  }

  /** What a book shows of these orders: of their ten best prices, bids of at least zero and asks of at
      most 10 to the power of 38. */
  lemma ShownExactly(rows: seq<Level>)
    ensures var top := Top(Book(rows, true));
            Shown(rows, Buy) <= top && forall l :: l in Shown(rows, Buy) <==> l in top && l.price >= 0.0
    ensures var top := Top(Book(rows, false));
            Shown(rows, Sell) <= top &&
            forall l :: l in Shown(rows, Sell) <==>
                          l in top && l.price <= 100_000_000_000_000_000_000_000_000_000_000_000_000.0
  {
    BookIsAggregate(rows, true);
    BookIsAggregate(rows, false);
    NotWorseKeeps(Top(Book(rows, true)), Start(Buy), true);
    NotWorseKeeps(Top(Book(rows, false)), Start(Sell), false);
  }

  /** Nothing is lost of orders within these bounds. */
  lemma BoundedAreShown(rows: seq<Level>)
    requires Positive(rows)
    ensures (forall l :: l in rows ==> l.price >= 0.0) ==> Shown(rows, Buy) == Top(Book(rows, true))
    ensures (forall l :: l in rows ==> l.price <= 100_000_000_000_000_000_000_000_000_000_000_000_000.0) ==>
              Shown(rows, Sell) == Top(Book(rows, false))
  {
    TopIsTopTen(rows, true);
    TopIsTopTen(rows, false);
    NothingCut(rows, Top(Book(rows, true)), Start(Buy), true);
    NothingCut(rows, Top(Book(rows, false)), Start(Sell), false);
  }

  /** An ask above the bound is on offer but never reaches the book. */
  lemma DearAskIsLost()
    ensures var rows := [Level(100_000_000_000_000_000_000_000_000_000_000_000_001.0, 5.0)];
            Top(Book(rows, false)) == rows && Shown(rows, Sell) == []
  {
    var rows := [Level(100_000_000_000_000_000_000_000_000_000_000_000_001.0, 5.0)];
    SortedIsBook(rows, false);
    assert Top(Book(rows, false)) == rows;
  }

  lemma StepMerges(m: Market, feeds: seq<Feed>, a: Arrival, side: Side)
    requires a.source < |feeds| == |m.sources| && side != Undefined
    ensures var after := m.Step(feeds, a);
            var (s, published) := m.sources[a.source].Step(feeds[a.source], a.event);
            SideOfBook(after, side) ==
            if published && SideOf(s, side == Buy).updated then Merge(Finals(after.sources, side), side)
            else SideOfBook(m, side)
  {}

  lemma MergesExactly(feeds: seq<Feed>, arrivals: seq<Arrival>, side: Side)
    requires ToSources(arrivals, |feeds|) && arrivals != []
    ensures var before, a := MarketRun(feeds, arrivals[..|arrivals| - 1]), arrivals[|arrivals| - 1];
            var (s, published) := before.sources[a.source].Step(feeds[a.source], a.event);
            Merges(feeds, arrivals, side) <==> published && SideOf(s, side == Buy).updated
  {
    var before, a := arrivals[..|arrivals| - 1], arrivals[|arrivals| - 1];
    SourcesRunApart(feeds, before, a.source);
    SideUpdatedExactly(feeds[a.source], Own(arrivals, a.source), side == Buy);
    assert (Own(before, a.source) + [a.event])[..|Own(before, a.source)|] == Own(before, a.source);
  }

  /** After any interleaving of the sources' events a side of the book is the best ten prices of all
      orders that were public at its last merge, up to the first that is worse than the start value. */
  lemma {:induction false} BookIsLastMerge(feeds: seq<Feed>, arrivals: seq<Arrival>, side: Side)
    requires ToSources(arrivals, |feeds|) && RightWhenMerged(feeds, arrivals, side) && side != Undefined
    ensures SideOfBook(MarketRun(feeds, arrivals), side) == Shown(MergedRows(feeds, arrivals, side), side)
    ensures Positive(MergedRows(feeds, arrivals, side))
  {
    if arrivals != [] {
      var before, a := arrivals[..|arrivals| - 1], arrivals[|arrivals| - 1];
      MergesExactly(feeds, arrivals, side);
      StepMerges(MarketRun(feeds, before), feeds, a, side);
      if Merges(feeds, arrivals, side) {
        MarketRuns(feeds, arrivals);
        MergedRunsAreExact(feeds, Owns(arrivals, |feeds|), MarketRun(feeds, arrivals).sources, side, Start(side));
        PublicPositive(feeds, Owns(arrivals, |feeds|), side);
      } else {
        BookIsLastMerge(feeds, before, side);
      }
    }
  }

  lemma PublicPositive(feeds: seq<Feed>, runs: seq<seq<Event>>, side: Side)
    requires AllRight(feeds, runs, side)
    ensures Positive(Flat(PublicRows(feeds, runs, side)))
  {
    forall j | 0 <= j < |runs| ensures Positive(PublicRows(feeds, runs, side)[j]) {
      FinalSidesArePublic(feeds[j], runs[j], side == Buy);
      RowsPositive(PublicOrders(feeds[j], runs[j]), side);
    }
    FlatRowsPositive(PublicRows(feeds, runs, side));
  }

  /** When the last event merged a side and left all sources settled, that side of the book is the top
      ten of all live orders, up to the first that is worse than the start value. */
  lemma SettledBookIsExact(feeds: seq<Feed>, arrivals: seq<Arrival>, side: Side)
    requires ToSources(arrivals, |feeds|) && side != Undefined && Merges(feeds, arrivals, side)
    requires RightWhenMerged(feeds, arrivals, side)
    requires forall s :: s in MarketRun(feeds, arrivals).sources ==> s.status == Full
    ensures var m := MarketRun(feeds, arrivals);
            var rows := Flat(AllRows(m.sources, side));
            SideOfBook(m, side) == Shown(rows, side) && IsTopTen(Top(Book(rows, side == Buy)), rows, side == Buy)
  {
    BookIsLastMerge(feeds, arrivals, side);
    MarketRuns(feeds, arrivals);
    SettledRunsArePublic(feeds, Owns(arrivals, |feeds|), MarketRun(feeds, arrivals).sources, side);
    TopIsTopTen(MergedRows(feeds, arrivals, side), side == Buy);
  }
}
