/** One side of a price level book: at most ten aggregated levels kept in a fixed array. */
module LevelSides {
  import opened DxArrays
  import opened PriceLevels

  /** The value of a side: its live levels and its two flags. */
  datatype SideState = SideState(levels: seq<Level>, rebuild: bool, updated: bool) {

    /** An order of this price and size enters the side. */
    function Add(l: Level, bid: bool): SideState {
      var after := Top(Insert(levels, l, bid));
      SideState(after, rebuild, updated || HasPrice(after, l.price))
    }

    /** An order of this price and size leaves the side. A level used up asks for a rebuild. */
    function Remove(l: Level): SideState {
      if HasPrice(levels, l.price) then
        SideState(Reduce(levels, l), rebuild || SizeLeft(levels, l) <= 0.0, true)
      else this
    }
  }

  class LevelSide {
    const bid: bool
    const levels: array<Level>
    /** The times of the same ten cells */
    var times: seq<int>
    var count: nat
    var rebuild: bool
    var updated: bool

    ghost predicate Valid()
      reads this, levels
    {
      && levels.Length == |times| == MAX_PRICE_LEVELS
      && count <= MAX_PRICE_LEVELS
      && Sorted(levels[..count], bid)
    }

    /** Everything but the times */
    ghost function State(): SideState
      reads this, levels
      requires Valid()
    {
      SideState(levels[..count], rebuild, updated)
    }

    constructor (bid: bool)
      ensures Valid() && this.bid == bid && fresh(levels)
      ensures State() == SideState([], false, false)
      ensures times == NO_TIMES && levels[..] == NO_LEVELS
    {
      this.bid := bid;
      levels := new Level[MAX_PRICE_LEVELS](_ => EMPTY);
      times := NO_TIMES;
      count, rebuild, updated := 0, false, false;
    }

    /** Where the level of a price is, or where it belongs. */
    method FindLevel(price: real) returns (found: bool, pos: nat)
      requires Valid()
      ensures pos <= count && (found ==> pos < count && levels[pos].price == price)
      ensures forall i :: 0 <= i < pos ==> Better(bid, levels[i].price, price)
      ensures forall i :: pos <= i < count && (found ==> i != pos) ==> Better(bid, price, levels[i].price)
      ensures found <==> HasPrice(levels[..count], price)
    {
      var key := Level(price, 0.0);
      var side := bid;
      found, pos := BinarySearch(levels[..count], 0, count, (l: Level) => Compare(side, l, key));
      assert found ==> levels[..count][pos].price == price;
    }

    /** The three branches of dx_plb_source_add_order_to_levels after its search. */
    method Place(l: Level, time: int, found: bool, pos: nat)
      requires levels.Length == |times| == MAX_PRICE_LEVELS && pos <= count <= MAX_PRICE_LEVELS
      requires found ==> pos < count && levels[pos].price == l.price
      modifies this, levels
      ensures count <= MAX_PRICE_LEVELS
      ensures levels[..count] == Placed(old(levels[..count]), l, found, pos)
      ensures |times| == MAX_PRICE_LEVELS
      ensures times[..count] == TimesPlaced(old(times[..count]), time, found, pos)
      ensures rebuild == old(rebuild) && updated == (old(updated) || found || pos < MAX_PRICE_LEVELS)
    {
      if found {
        levels[pos] := Level(levels[pos].price, levels[pos].size + l.size);
        times := times[pos := time];
        updated := true;
      } else if pos < count && count == MAX_PRICE_LEVELS {
        SlicesOf(levels[..], count, pos, count - 1);
        SlicesOf(times, count, pos, count - 1);
        PutBetween(l, time, pos, count - 1);
        updated := true;
      } else if count < MAX_PRICE_LEVELS {
        SlicesOf(levels[..], count, pos, count);
        SlicesOf(times, count, pos, count);
        PutBetween(l, time, pos, count);
        count := count + 1;
        updated := true;
      }
    }

    /** The levels and times from `pos` to `n` move up by one cell and a new level is put before them. */
    method PutBetween(l: Level, time: int, pos: nat, n: nat)
      requires levels.Length == |times| == MAX_PRICE_LEVELS && pos <= n < MAX_PRICE_LEVELS
      modifies levels, this`times
      ensures |times| == MAX_PRICE_LEVELS
      ensures levels[..n + 1] == old(levels[..pos] + [l] + levels[pos..n])
      ensures times[..n + 1] == old(times[..pos] + [time] + times[pos..n])
    {
      OpenGap(levels, levels, pos, n, l);
      times := times[..pos] + [time] + times[pos..n] + times[n + 1..];
    }

    /** dx_plb_source_add_order_to_levels */
    method AddOrder(l: Level, time: int)
      requires Valid()
      modifies this, levels
      ensures Valid()
      ensures State() == old(State()).Add(l, bid)
      ensures times[..count] == old(TimesAdded(times[..count], levels[..count], l.price, time, bid))
    {
      var found, pos := FindLevel(l.price);
      PlacedIsTop(levels[..count], l, bid, found, pos);
      RankIs(levels[..count], l.price, bid, pos);
      Place(l, time, found, pos);
    }

    /** dx_plb_source_remove_order_from_levels */
    method RemoveOrder(l: Level, time: int)
      requires Valid()
      modifies this, levels
      ensures Valid()
      ensures State() == old(State()).Remove(l)
      ensures times[..count] == old(TimesRemoved(times[..count], levels[..count], l.price, time, bid))
    {
      hide Reduce, SizeLeft, Rank;
      var found, pos := FindLevel(l.price);
      RankIs(levels[..count], l.price, bid, pos);
      if !found {
        return;
      }
      ReduceAt(levels[..count], l, pos);
      SizeLeftAt(levels[..count], l, pos);
      levels[pos] := Level(levels[pos].price, levels[pos].size - l.size);
      times := times[pos := time];
      rebuild := rebuild || levels[pos].size <= 0.0;
      updated := true;
      assert levels[..count] == old(levels[..count])[pos := levels[pos]];
    }

    /** The levels and their times go; the flags stay as they are. */
    method Clear()
      requires Valid()
      modifies this, levels
      ensures Valid()
      ensures State() == old(State()).(levels := []) && times == NO_TIMES
    {
      times := NO_TIMES;
      forall i | 0 <= i < MAX_PRICE_LEVELS { levels[i] := EMPTY; }
      count := 0;
    }

    /** Assignment of one side to another. */
    method CopyFrom(other: LevelSide)
      requires Valid() && other.Valid() && other.bid == bid && other.levels != levels
      modifies this, levels
      ensures Valid() && State() == old(other.State()) && times == old(other.times)
    {
      times := other.times;
      forall i | 0 <= i < MAX_PRICE_LEVELS { levels[i] := other.levels[i]; }
      count, rebuild, updated := other.count, other.rebuild, other.updated;
      assert levels[..count] == old(other.levels[..other.count]);
    }
  }

  const NO_TIMES: seq<int> := [0, 0, 0, 0, 0, 0, 0, 0, 0, 0]
  const EMPTY := Level(0.0, 0.0)
  const NO_LEVELS: seq<Level> := [EMPTY, EMPTY, EMPTY, EMPTY, EMPTY, EMPTY, EMPTY, EMPTY, EMPTY, EMPTY]

  /** How many levels have a better price. */
  function Rank(levels: seq<Level>, p: real, bid: bool): (pos: nat)
    ensures pos <= |levels|
  {
    if levels == [] || !Better(bid, levels[0].price, p) then 0 else 1 + Rank(levels[1..], p, bid)
  }

  lemma {:induction false} RankIs(levels: seq<Level>, p: real, bid: bool, pos: nat)
    requires pos <= |levels|
    requires forall i :: 0 <= i < pos ==> Better(bid, levels[i].price, p)
    requires pos < |levels| ==> !Better(bid, levels[pos].price, p)
    ensures Rank(levels, p, bid) == pos
  {
    if pos > 0 {
      RankIs(levels[1..], p, bid, pos - 1);
    }
  }

  lemma {:induction false} RankSplits(levels: seq<Level>, p: real, bid: bool)
    requires Sorted(levels, bid)
    ensures forall i :: 0 <= i < Rank(levels, p, bid) ==> Better(bid, levels[i].price, p)
    ensures forall i :: Rank(levels, p, bid) <= i < |levels| ==> !Better(bid, levels[i].price, p)
  {
    if levels != [] && Better(bid, levels[0].price, p) {
      RankSplits(levels[1..], p, bid);
      var pos := Rank(levels, p, bid);
      forall i | 0 <= i < pos ensures Better(bid, levels[i].price, p) {
        assert i > 0 ==> levels[i] == levels[1..][i - 1];
      }
      forall i | pos <= i < |levels| ensures !Better(bid, levels[i].price, p) {
        assert levels[i] == levels[1..][i - 1];
      }
    }
  }

  /** The times after an order entered at a rank: on its level, or in between with the last of ten
      falling off the end. */
  function TimesPlaced(times: seq<int>, time: int, found: bool, pos: nat): seq<int>
    requires pos <= |times| <= MAX_PRICE_LEVELS && (found ==> pos < |times|)
  {
    if found then times[pos := time]
    else if |times| < MAX_PRICE_LEVELS then times[..pos] + [time] + times[pos..]
    else if pos < MAX_PRICE_LEVELS then times[..pos] + [time] + times[pos..|times| - 1]
    else times
  }

  lemma SlicesOf<T>(s: seq<T>, n: nat, i: nat, j: nat)
    requires i <= j <= n <= |s|
    ensures s[..n][..i] == s[..i] && s[..n][i..j] == s[i..j]
  {}

  /** The times after an order of this price entered the side. */
  function TimesAdded(times: seq<int>, levels: seq<Level>, p: real, time: int, bid: bool): seq<int>
    requires |times| == |levels| <= MAX_PRICE_LEVELS
  {
    var pos := Rank(levels, p, bid);
    TimesPlaced(times, time, pos < |levels| && levels[pos].price == p, pos)
  }

  lemma AddedLength(times: seq<int>, levels: seq<Level>, l: Level, time: int, bid: bool)
    requires Sorted(levels, bid) && |times| == |levels| <= MAX_PRICE_LEVELS
    ensures |TimesAdded(times, levels, l.price, time, bid)| == |Top(Insert(levels, l, bid))|
  {
    RankSplits(levels, l.price, bid);
    var pos := Rank(levels, l.price, bid);
    PlacedIsTop(levels, l, bid, pos < |levels| && levels[pos].price == l.price, pos);
  }

  /** The times after an order of this price left the side. */
  function TimesRemoved(times: seq<int>, levels: seq<Level>, p: real, time: int, bid: bool): seq<int>
    requires |times| == |levels|
  {
    var pos := Rank(levels, p, bid);
    if pos < |levels| && levels[pos].price == p then times[pos := time] else times
  }

  /** Beside a level of this price stands this time. */
  ghost predicate HasTime(levels: seq<Level>, times: seq<int>, p: real, time: int)
    requires |times| == |levels|
  {
    exists i :: 0 <= i < |levels| && levels[i].price == p && times[i] == time
  }

  /** After an order has entered, the level of its price has its time, if it shows, and every other level
      the time that its price had before. */
  lemma AddedTimes(times: seq<int>, levels: seq<Level>, l: Level, time: int, bid: bool)
    requires Sorted(levels, bid) && |times| == |levels| <= MAX_PRICE_LEVELS
    ensures var after, r := Top(Insert(levels, l, bid)), TimesAdded(times, levels, l.price, time, bid);
            |r| == |after| &&
            forall i :: 0 <= i < |after| ==>
                          if after[i].price == l.price then r[i] == time
                          else HasTime(levels, times, after[i].price, r[i])
  {
    hide Insert, Top, Placed, TimesPlaced, HasTime;
    RankSplits(levels, l.price, bid);
    var pos := Rank(levels, l.price, bid);
    var found := pos < |levels| && levels[pos].price == l.price;
    PlacedIsTop(levels, l, bid, found, pos);
    PlacedTimes(times, levels, l, time, found, pos);
  }

  lemma PlacedTimes(times: seq<int>, levels: seq<Level>, l: Level, time: int, found: bool, pos: nat)
    requires pos <= |levels| == |times| <= MAX_PRICE_LEVELS
    requires found ==> pos < |levels| && levels[pos].price == l.price
    requires forall i :: 0 <= i < |levels| && (found ==> i != pos) ==> levels[i].price != l.price
    ensures var after, r := Placed(levels, l, found, pos), TimesPlaced(times, time, found, pos);
            |r| == |after| &&
            forall i :: 0 <= i < |after| ==>
                          if after[i].price == l.price then r[i] == time
                          else HasTime(levels, times, after[i].price, r[i])
  {
    var after, r := Placed(levels, l, found, pos), TimesPlaced(times, time, found, pos);
    forall i | 0 <= i < |after|
      ensures if after[i].price == l.price then r[i] == time else HasTime(levels, times, after[i].price, r[i])
    {
      if i != pos {
        var k := if i < pos || found then i else i - 1;
        assert levels[k].price == after[i].price && times[k] == r[i];
      }
    }
  }

  /** After an order has left, the level of its price has its time, and every other level the time that
      its price had before. */
  lemma RemovedTimes(times: seq<int>, levels: seq<Level>, l: Level, time: int, bid: bool)
    requires Sorted(levels, bid) && |times| == |levels|
    ensures var r := TimesRemoved(times, levels, l.price, time, bid);
            |r| == |levels| &&
            forall i :: 0 <= i < |levels| ==> r[i] == if levels[i].price == l.price then time else times[i]
  {
    RankSplits(levels, l.price, bid);
  }

  /** Where adding puts a level that belongs at `pos`: on top of its price, or in between, the last
      of ten falling off the end. */
  function Placed(levels: seq<Level>, l: Level, found: bool, pos: nat): seq<Level>
    requires pos <= |levels| <= MAX_PRICE_LEVELS && (found ==> pos < |levels|)
  {
    if found then levels[pos := Level(levels[pos].price, levels[pos].size + l.size)]
    else if |levels| < MAX_PRICE_LEVELS then levels[..pos] + [l] + levels[pos..]
    else if pos < MAX_PRICE_LEVELS then levels[..pos] + [l] + levels[pos..|levels| - 1]
    else levels
  }

  lemma PlacedIsTop(levels: seq<Level>, l: Level, bid: bool, found: bool, pos: nat)
    requires pos <= |levels| <= MAX_PRICE_LEVELS && Sorted(levels, bid)
    requires forall i :: 0 <= i < pos ==> Better(bid, levels[i].price, l.price)
    requires forall i :: pos <= i < |levels| && (found ==> i != pos) ==> Better(bid, l.price, levels[i].price)
    requires found ==> pos < |levels| && levels[pos].price == l.price
    ensures Placed(levels, l, found, pos) == Top(Insert(levels, l, bid))
    ensures HasPrice(Placed(levels, l, found, pos), l.price) <==> found || pos < MAX_PRICE_LEVELS
    ensures Sorted(Placed(levels, l, found, pos), bid)
  {
    hide Insert;
    InsertAt(levels, l, bid, pos);
    InsertSorted(levels, l, bid);
    var after, all := Placed(levels, l, found, pos), Insert(levels, l, bid);
    if !found && |levels| == MAX_PRICE_LEVELS {
      assert all[..MAX_PRICE_LEVELS] == if pos < MAX_PRICE_LEVELS then after else levels;
    }
    assert after == Top(all);
    if found || pos < MAX_PRICE_LEVELS {
      assert after[pos].price == l.price;
    } else {
      forall i | 0 <= i < |after| ensures after[i].price != l.price {}
    }
  }

  lemma {:induction false} SizeLeftAt(levels: seq<Level>, l: Level, pos: nat)
    requires pos < |levels| && levels[pos].price == l.price
    requires forall i :: 0 <= i < pos ==> levels[i].price != l.price
    ensures SizeLeft(levels, l) == levels[pos].size - l.size
  {
    if pos > 0 {
      SizeLeftAt(levels[1..], l, pos - 1);
    }
  }

  /** Ten better prices keep an order from showing. */
  predicate Hidden(levels: seq<Level>, price: real, bid: bool) {
    |levels| == MAX_PRICE_LEVELS && Better(bid, levels[MAX_PRICE_LEVELS - 1].price, price)
  }

  /** Adding leaves the best ten alone exactly when ten better prices are there. */
  lemma TopUnmoved(levels: seq<Level>, l: Level, bid: bool)
    requires Sorted(levels, bid) && |levels| <= MAX_PRICE_LEVELS && l.size > 0.0
    ensures Top(Insert(levels, l, bid)) == levels <==>
            |levels| == MAX_PRICE_LEVELS && Better(bid, levels[MAX_PRICE_LEVELS - 1].price, l.price)
  {
    var found, at := PlaceOf(levels, l, bid);
    PlacedIsTop(levels, l, bid, found, at);
    var after := Placed(levels, l, found, at);
    if found || at < MAX_PRICE_LEVELS {
      assert at < |levels| ==> after[at] != levels[at];
    }
  }

  lemma PlaceOf(levels: seq<Level>, l: Level, bid: bool) returns (found: bool, pos: nat)
    requires Sorted(levels, bid)
    ensures pos <= |levels| && (found ==> pos < |levels| && levels[pos].price == l.price)
    ensures forall i :: 0 <= i < pos ==> Better(bid, levels[i].price, l.price)
    ensures forall i :: pos <= i < |levels| && (found ==> i != pos) ==> Better(bid, l.price, levels[i].price)
  {
    pos := 0;
    while pos < |levels| && Better(bid, levels[pos].price, l.price)
      invariant pos <= |levels|
      invariant forall i :: 0 <= i < pos ==> Better(bid, levels[i].price, l.price)
    {
      pos := pos + 1;
    }
    found := pos < |levels| && levels[pos].price == l.price;
  }
}
