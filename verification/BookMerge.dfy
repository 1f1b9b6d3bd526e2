/** Merging the published sides of several order sources into one side of a price level book. */
module BookMerge {
  import opened PriceLevels
  import opened LevelSides

  /** The levels of all sources, one source after another. */
  function Flat(sides: seq<seq<Level>>): seq<Level> {
    if sides == [] then [] else Flat(sides[..|sides| - 1]) + sides[|sides| - 1]
  }

  /** The levels up to the first that is worse than the start value. */
  function NotWorse(levels: seq<Level>, start: real, bid: bool): seq<Level> {
    if levels == [] || Better(bid, start, levels[0].price) then []
    else [levels[0]] + NotWorse(levels[1..], start, bid)
  }

  lemma {:induction false} NotWorseIs(levels: seq<Level>, start: real, bid: bool, n: nat)
    requires n <= |levels|
    requires forall i :: 0 <= i < n ==> !Better(bid, start, levels[i].price)
    requires n == |levels| || Better(bid, start, levels[n].price)
    ensures NotWorse(levels, start, bid) == levels[..n]
  {
    if n > 0 {
      NotWorseIs(levels[1..], start, bid, n - 1);
      assert levels[..n] == [levels[0]] + levels[1..][..n - 1];
    }
  }

  // ---------- the state of the k-way merge ----------

  ghost predicate IsBook(side: seq<Level>, bid: bool) {
    Sorted(side, bid) && Positive(side)
  }

  ghost predicate AllBooks(sides: seq<seq<Level>>, bid: bool) {
    forall j :: 0 <= j < |sides| ==> IsBook(sides[j], bid)
  }

  /** The first `k` levels of a side are in the first `n` levels of the merge, the rest come later. */
  ghost predicate Consumed(side: seq<Level>, k: nat, merged: seq<Level>, n: nat, bid: bool) {
    && k <= |side| && n <= |merged|
    && (forall x :: 0 <= x < k ==> n > 0 && !Better(bid, merged[n - 1].price, side[x].price))
    && (n > 0 ==> forall x :: k <= x < |side| ==> Better(bid, merged[n - 1].price, side[x].price))
  }

  predicate HasHead(sides: seq<seq<Level>>, at: seq<nat>, j: nat)
    requires |at| == |sides|
  {
    j < |sides| && at[j] < |sides[j]|
  }

  function Head(sides: seq<seq<Level>>, at: seq<nat>, j: nat): Level
    requires |at| == |sides| && HasHead(sides, at, j)
  {
    sides[j][at[j]]
  }

  /** What the heads of the first `i` sides offer at one price. */
  function HeadSizes(sides: seq<seq<Level>>, at: seq<nat>, i: nat, p: real): real
    requires |at| == |sides| && i <= |sides|
  {
    if i == 0 then 0.0
    else HeadSizes(sides, at, i - 1, p) +
         if HasHead(sides, at, i - 1) && Head(sides, at, i - 1).price == p then Head(sides, at, i - 1).size else 0.0
  }

  lemma {:induction false} NoHeadNoSize(sides: seq<seq<Level>>, at: seq<nat>, i: nat, p: real)
    requires |at| == |sides| && i <= |sides|
    requires forall j: nat :: j < i && HasHead(sides, at, j) ==> Head(sides, at, j).price != p
    ensures HeadSizes(sides, at, i, p) == 0.0
  {
    if i > 0 { NoHeadNoSize(sides, at, i - 1, p); }
  }

  lemma {:induction false} SomeHeadSomeSize(sides: seq<seq<Level>>, at: seq<nat>, i: nat, p: real, bid: bool)
    requires |at| == |sides| && i <= |sides|
    requires AllBooks(sides, bid)
    ensures HeadSizes(sides, at, i, p) >= 0.0
    ensures (exists j: nat :: j < i && HasHead(sides, at, j) && Head(sides, at, j).price == p) <==>
            HeadSizes(sides, at, i, p) > 0.0
  {
    if i > 0 { SomeHeadSomeSize(sides, at, i - 1, p, bid); }
  }

  /** What one side still offers at a price that no head beats is its head, if that has the price. */
  lemma HeadIsRest(side: seq<Level>, k: nat, merged: seq<Level>, n: nat, bid: bool, p: real)
    requires Sorted(side, bid) && Consumed(side, k, merged, n, bid)
    requires n > 0 ==> Better(bid, merged[n - 1].price, p)
    requires k < |side| ==> !Better(bid, side[k].price, p)
    ensures SizeAt(side, p) == if k < |side| && side[k].price == p then side[k].size else 0.0
  {
    if k < |side| && side[k].price == p {
      SizeAtLevel(side, bid, k);
    } else {
      SizeAtAbsent(side, p);
    }
  }

  lemma {:induction false} HeadsAreRest(sides: seq<seq<Level>>, at: seq<nat>, merged: seq<Level>, n: nat,
                                        bid: bool, p: real, i: nat)
    requires |at| == |sides| && i <= |sides| && n <= |merged|
    requires forall j :: 0 <= j < |sides| ==> Sorted(sides[j], bid) && Consumed(sides[j], at[j], merged, n, bid)
    requires n > 0 ==> Better(bid, merged[n - 1].price, p)
    requires forall j: nat :: j < i && HasHead(sides, at, j) ==> !Better(bid, Head(sides, at, j).price, p)
    ensures SizeAt(Flat(sides[..i]), p) == HeadSizes(sides, at, i, p)
  {
    hide Consumed, Sorted, Better;
    if i > 0 {
      HeadsAreRest(sides, at, merged, n, bid, p, i - 1);
      assert sides[..i][..i - 1] == sides[..i - 1];
      SizeAtConcat(Flat(sides[..i - 1]), sides[i - 1], p);
      assert HasHead(sides, at, i - 1) ==> !Better(bid, Head(sides, at, i - 1).price, p);
      HeadIsRest(sides[i - 1], at[i - 1], merged, n, bid, p);
    }
  }

  /** The level of a book that follows its first `n`. */
  lemma NextLevel(merged: seq<Level>, n: nat, bid: bool, l: Level)
    requires IsBook(merged, bid) && n <= |merged|
    requires n > 0 ==> Better(bid, merged[n - 1].price, l.price)
    requires SizeAt(merged, l.price) == l.size > 0.0
    requires forall q :: (n > 0 ==> Better(bid, merged[n - 1].price, q)) && Better(bid, q, l.price) ==>
                           SizeAt(merged, q) == 0.0
    ensures n < |merged| && merged[n] == l
  {
    var k := PriceOnOffer(merged, merged, l.price);
    SizeAtLevel(merged, bid, k);
    if k > n {
      SizeAtLevel(merged, bid, n);
      assert false;
    }
  }

  // ---------- the loops ----------

  ghost predicate Views(srcs: seq<LevelSide>, sides: seq<seq<Level>>, bid: bool)
    reads srcs, set s | s in srcs :: s.levels
  {
    && |sides| == |srcs|
    && forall j :: 0 <= j < |srcs| ==>
      srcs[j].Valid() && srcs[j].bid == bid && srcs[j].levels[..srcs[j].count] == sides[j]
  }

  /** The times beside the levels of the sides */
  ghost predicate Clocked(sides: seq<seq<Level>>, clocks: seq<seq<int>>) {
    |clocks| == |sides| && forall j :: 0 <= j < |sides| ==> |sides[j]| <= |clocks[j]|
  }

  ghost predicate Clocks(srcs: seq<LevelSide>, clocks: seq<seq<int>>)
    reads srcs
  {
    |clocks| == |srcs| && forall j :: 0 <= j < |srcs| ==> srcs[j].times == clocks[j]
  }

  /** The latest time of the first `i` heads at a price; the start value counts as a head of time 0. */
  ghost predicate IsLatestHead(time: int, sides: seq<seq<Level>>, clocks: seq<seq<int>>, at: seq<nat>, i: nat,
                               p: real, start: real)
    requires |at| == |sides| && i <= |sides| && Clocked(sides, clocks)
  {
    && (p == start ==> time >= 0)
    && (forall j: nat :: j < i && HasHead(sides, at, j) && Head(sides, at, j).price == p ==> clocks[j][at[j]] <= time)
    && (|| (p == start && time == 0)
        || exists j: nat :: j < i && HasHead(sides, at, j) && Head(sides, at, j).price == p && clocks[j][at[j]] == time)
  }

  /** The latest time that any side has at a price; the start value counts as time 0. */
  ghost predicate IsLatest(time: int, sides: seq<seq<Level>>, clocks: seq<seq<int>>, p: real, start: real)
    requires Clocked(sides, clocks)
  {
    && (p == start ==> time >= 0)
    && (forall j, x :: 0 <= j < |sides| && 0 <= x < |sides[j]| && sides[j][x].price == p ==> clocks[j][x] <= time)
    && (|| (p == start && time == 0)
        || exists j, x :: 0 <= j < |sides| && 0 <= x < |sides[j]| && sides[j][x].price == p && clocks[j][x] == time)
  }

  /** Every level of a price that no head beats and the merge has not reached is a head. */
  lemma LatestHeadIsLatest(time: int, sides: seq<seq<Level>>, clocks: seq<seq<int>>, at: seq<nat>,
                           merged: seq<Level>, n: nat, start: real, bid: bool)
    requires |at| == |sides| && Clocked(sides, clocks) && n < |merged| && IsBook(merged, bid)
    requires forall j :: 0 <= j < |sides| ==> Sorted(sides[j], bid) && Consumed(sides[j], at[j], merged, n, bid)
    requires forall j: nat :: j < |sides| && HasHead(sides, at, j) ==>
               !Better(bid, Head(sides, at, j).price, merged[n].price)
    requires IsLatestHead(time, sides, clocks, at, |sides|, merged[n].price, start)
    ensures IsLatest(time, sides, clocks, merged[n].price, start)
  {
    var p := merged[n].price;
    forall j, x | 0 <= j < |sides| && 0 <= x < |sides[j]| && sides[j][x].price == p
      ensures x == at[j] && HasHead(sides, at, j) && clocks[j][x] <= time
    {
      OnlyHead(sides[j], at[j], merged, n, bid, x);
      assert HasHead(sides, at, j) && Head(sides, at, j).price == p;
    }
    if j: nat :| j < |sides| && HasHead(sides, at, j) && Head(sides, at, j).price == p && clocks[j][at[j]] == time {
      assert sides[j][at[j]].price == p;
    }
  }

  lemma OnlyHead(side: seq<Level>, k: nat, merged: seq<Level>, n: nat, bid: bool, x: nat)
    requires Sorted(side, bid) && Consumed(side, k, merged, n, bid) && n < |merged| && IsBook(merged, bid)
    requires k < |side| ==> !Better(bid, side[k].price, merged[n].price)
    requires x < |side| && side[x].price == merged[n].price
    ensures x == k
  {}

  /** The best head that is not worse than the start value, with the sizes of all heads of that
      price added up; of size zero when there is none. */
  ghost predicate IsBestHead(best: Level, sides: seq<seq<Level>>, at: seq<nat>, i: nat, start: real, bid: bool)
    requires |at| == |sides| && i <= |sides|
  {
    && !Better(bid, start, best.price)
    && (forall j: nat :: j < i && HasHead(sides, at, j) ==> !Better(bid, Head(sides, at, j).price, best.price))
    && best.size == HeadSizes(sides, at, i, best.price)
    && (best.price == start || best.size > 0.0)
  }

  lemma BestHeadStep(best: Level, next: Level, sides: seq<seq<Level>>, at: seq<nat>, i: nat, start: real, bid: bool)
    requires |at| == |sides| && i < |sides| && IsBestHead(best, sides, at, i, start, bid)
    requires AllBooks(sides, bid)
    requires !HasHead(sides, at, i) ==> next == best
    requires HasHead(sides, at, i) ==>
               var cmp := Compare(bid, best, Head(sides, at, i));
               next == if cmp == 0 then Level(best.price, best.size + Head(sides, at, i).size)
                       else if cmp > 0 then Head(sides, at, i) else best
    ensures IsBestHead(next, sides, at, i + 1, start, bid)
  {
    SomeHeadSomeSize(sides, at, i, best.price, bid);
    if HasHead(sides, at, i) && next.price != best.price {
      NoHeadNoSize(sides, at, i, next.price);
    }
  }

  /** The first inner loop of dx_plb_book_update_one_side */
  method BestHead(srcs: seq<LevelSide>, sidx: array<nat>, bid: bool, startValue: real,
                  ghost sides: seq<seq<Level>>, ghost clocks: seq<seq<int>>) returns (best: Level, time: int)
    requires sidx.Length == |srcs| && Views(srcs, sides, bid) && Clocks(srcs, clocks) && Clocked(sides, clocks)
    requires AllBooks(sides, bid)
    ensures IsBestHead(best, sides, sidx[..], |sides|, startValue, bid)
    ensures IsLatestHead(time, sides, clocks, sidx[..], |sides|, best.price, startValue)
  {
    best, time := Level(startValue, 0.0), 0;
    for i := 0 to |srcs|
      invariant IsBestHead(best, sides, sidx[..], i, startValue, bid)
      invariant IsLatestHead(time, sides, clocks, sidx[..], i, best.price, startValue)
    {
      ghost var was, earlier := best, time;
      if sidx[i] < srcs[i].count {
        var head := srcs[i].levels[sidx[i]];
        assert head == Head(sides, sidx[..], i);
        var cmp := Compare(bid, best, head);
        if cmp == 0 {
          best := Level(best.price, best.size + head.size);
          time := if time > srcs[i].times[sidx[i]] then time else srcs[i].times[sidx[i]];
        } else if cmp > 0 {
          best := head;
          time := srcs[i].times[sidx[i]];
        }
      }
      LatestHeadStep(was, best, earlier, time, sides, clocks, sidx[..], i, startValue, bid);
      BestHeadStep(was, best, sides, sidx[..], i, startValue, bid);
    }
  }

  lemma LatestHeadStep(was: Level, best: Level, earlier: int, time: int, sides: seq<seq<Level>>, clocks: seq<seq<int>>,
                       at: seq<nat>, i: nat, start: real, bid: bool)
    requires |at| == |sides| && i < |sides| && Clocked(sides, clocks) && IsBestHead(was, sides, at, i, start, bid)
    requires IsLatestHead(earlier, sides, clocks, at, i, was.price, start)
    requires !HasHead(sides, at, i) ==> best == was && time == earlier
    requires HasHead(sides, at, i) ==>
               var cmp := Compare(bid, was, Head(sides, at, i));
               && best.price == (if cmp > 0 then Head(sides, at, i).price else was.price)
               && time == if cmp < 0 || (cmp == 0 && earlier > clocks[i][at[i]]) then earlier else clocks[i][at[i]]
    ensures IsLatestHead(time, sides, clocks, at, i + 1, best.price, start)
  {
    if HasHead(sides, at, i) {
      if Compare(bid, was, Head(sides, at, i)) < 0 {
        StillLatest(earlier, sides, clocks, at, i, was.price, start);
      } else {
        assert time == clocks[i][at[i]] || time == earlier;
        if time == earlier { StillLatest(earlier, sides, clocks, at, i, was.price, start); }
      }
    } else {
      StillLatest(earlier, sides, clocks, at, i, was.price, start);
    }
  }

  lemma StillLatest(time: int, sides: seq<seq<Level>>, clocks: seq<seq<int>>, at: seq<nat>, i: nat,
                    p: real, start: real)
    requires |at| == |sides| && i < |sides| && Clocked(sides, clocks)
    requires IsLatestHead(time, sides, clocks, at, i, p, start)
    requires HasHead(sides, at, i) && Head(sides, at, i).price == p ==> clocks[i][at[i]] <= time
    ensures IsLatestHead(time, sides, clocks, at, i + 1, p, start)
  {
    if !(p == start && time == 0) {
      var j: nat :| j < i && HasHead(sides, at, j) && Head(sides, at, j).price == p && clocks[j][at[j]] == time;
      assert j < i + 1;
    }
  }

  /** The second inner loop of dx_plb_book_update_one_side */
  method Advance(srcs: seq<LevelSide>, sidx: array<nat>, bid: bool, price: real, ghost sides: seq<seq<Level>>)
    requires sidx.Length == |srcs| && Views(srcs, sides, bid)
    modifies sidx
    ensures forall j :: 0 <= j < |srcs| ==>
              sidx[j] == if HasHead(sides, old(sidx[..]), j) && Head(sides, old(sidx[..]), j).price == price
                         then old(sidx[j]) + 1 else old(sidx[j])
  {
    for i := 0 to |srcs|
      invariant forall j :: i <= j < |srcs| ==> sidx[j] == old(sidx[j])
      invariant forall j :: 0 <= j < i ==>
                  sidx[j] == if HasHead(sides, old(sidx[..]), j) && Head(sides, old(sidx[..]), j).price == price
                             then old(sidx[j]) + 1 else old(sidx[j])
    {
      assert sides[i] == srcs[i].levels[..srcs[i].count];
      if sidx[i] < srcs[i].count && srcs[i].levels[sidx[i]].price == price {
        sidx[i] := sidx[i] + 1;
      }
    }
  }

  /** When the best head is used, the next level of the merge is complete. */
  lemma ConsumeHead(side: seq<Level>, k: nat, merged: seq<Level>, n: nat, bid: bool)
    requires IsBook(side, bid) && IsBook(merged, bid) && Consumed(side, k, merged, n, bid) && n < |merged|
    requires k < |side| ==> !Better(bid, side[k].price, merged[n].price)
    ensures Consumed(side, if k < |side| && side[k].price == merged[n].price then k + 1 else k, merged, n + 1, bid)
  {}

  /** The best head is the next level of the merged book, or no level that is not worse than the
      start value is left. */
  lemma BestHeadIsNext(sides: seq<seq<Level>>, at: seq<nat>, merged: seq<Level>, n: nat, bid: bool, start: real,
                       best: Level)
    requires |at| == |sides| && merged == Book(Flat(sides), bid) && n <= |merged|
    requires forall j :: 0 <= j < |sides| ==> IsBook(sides[j], bid) && Consumed(sides[j], at[j], merged, n, bid)
    requires IsBestHead(best, sides, at, |sides|, start, bid)
    ensures best.size != 0.0 ==> n < |merged| && merged[n] == best
    ensures best.size == 0.0 ==> n == |merged| || Better(bid, start, merged[n].price)
  {
    FlatPositive(sides, bid);
    BookIsAggregate(Flat(sides), bid);
    SomeHeadSomeSize(sides, at, |sides|, best.price, bid);
    forall q | (n > 0 ==> Better(bid, merged[n - 1].price, q)) && !Better(bid, best.price, q)
      ensures SizeAt(merged, q) == HeadSizes(sides, at, |sides|, q)
      ensures q != best.price ==> SizeAt(merged, q) == 0.0
    {
      assert sides[..|sides|] == sides;
      HeadsAreRest(sides, at, merged, n, bid, q, |sides|);
      if q != best.price { NoHeadNoSize(sides, at, |sides|, q); }
    }
    if best.size != 0.0 {
      var j: nat :| j < |sides| && HasHead(sides, at, j) && Head(sides, at, j).price == best.price;
      assert n > 0 ==> Better(bid, merged[n - 1].price, sides[j][at[j]].price);
      NextLevel(merged, n, bid, best);
    } else if n < |merged| && !Better(bid, start, merged[n].price) {
      SizeAtLevel(merged, bid, n);
      assert false;
    }
  }

  lemma {:induction false} FlatPositive(sides: seq<seq<Level>>, bid: bool)
    requires AllBooks(sides, bid)
    ensures Positive(Flat(sides))
  {
    if sides != [] { FlatPositive(sides[..|sides| - 1], bid); }
  }

  ghost predicate AllConsumed(sides: seq<seq<Level>>, at: seq<nat>, merged: seq<Level>, n: nat, bid: bool)
    requires |at| == |sides|
  {
    forall j :: 0 <= j < |sides| ==> Consumed(sides[j], at[j], merged, n, bid)
  }

  /** The next level of the merge with its time; of size zero at the end. */
  method NextCell(srcs: seq<LevelSide>, sidx: array<nat>, bid: bool, didx: nat, startValue: real,
                  ghost sides: seq<seq<Level>>, ghost clocks: seq<seq<int>>, ghost merged: seq<Level>)
    returns (best: Level, time: int)
    requires sidx.Length == |srcs| && Views(srcs, sides, bid) && Clocks(srcs, clocks) && Clocked(sides, clocks)
    requires merged == Book(Flat(sides), bid) && IsBook(merged, bid) && didx <= |merged|
    requires AllBooks(sides, bid) && AllConsumed(sides, sidx[..], merged, didx, bid)
    ensures best.size == 0.0 ==> didx == |merged| || Better(bid, startValue, merged[didx].price)
    ensures best.size != 0.0 ==> didx < |merged| && merged[didx] == best && !Better(bid, startValue, best.price)
    ensures best.size != 0.0 ==> IsLatest(time, sides, clocks, best.price, startValue)
    ensures best.size != 0.0 ==> forall j: nat :: j < |sides| && HasHead(sides, sidx[..], j) ==>
              !Better(bid, Head(sides, sidx[..], j).price, best.price)
  {
    best, time := BestHead(srcs, sidx, bid, startValue, sides, clocks);
    BestHeadIsNext(sides, sidx[..], merged, didx, bid, startValue, best);
    if best.size != 0.0 {
      LatestHeadIsLatest(time, sides, clocks, sidx[..], merged, didx, startValue, bid);
    }
  }

  /** A cell is written unless it is the same in price, size and time. */
  method WriteCell(dst: LevelSide, didx: nat, best: Level, time: int) returns (changed: bool)
    requires dst.levels.Length == |dst.times| == MAX_PRICE_LEVELS && didx < MAX_PRICE_LEVELS
    modifies dst.levels, dst`times
    ensures dst.levels[..] == old(dst.levels[..])[didx := best] && dst.times == old(dst.times)[didx := time]
    ensures changed <==> old(dst.levels[didx]) != best || old(dst.times)[didx] != time
  {
    changed := false;
    if dst.levels[didx] != best || dst.times[didx] != time {
      dst.levels[didx] := best;
      dst.times := dst.times[didx := time];
      changed := true;
    }
  }

  /** The heads of the merged price are used up. */
  method UseHeads(srcs: seq<LevelSide>, sidx: array<nat>, bid: bool, didx: nat, price: real,
                  ghost sides: seq<seq<Level>>, ghost merged: seq<Level>)
    requires sidx.Length == |srcs| && Views(srcs, sides, bid) && IsBook(merged, bid) && didx < |merged|
    requires AllBooks(sides, bid) && AllConsumed(sides, sidx[..], merged, didx, bid) && price == merged[didx].price
    requires forall j: nat :: j < |sides| && HasHead(sides, sidx[..], j) ==>
               !Better(bid, Head(sides, sidx[..], j).price, price)
    modifies sidx
    ensures AllConsumed(sides, sidx[..], merged, didx + 1, bid)
  {
    ghost var at := sidx[..];
    Advance(srcs, sidx, bid, price, sides);
    forall j | 0 <= j < |sides| ensures Consumed(sides[j], sidx[j], merged, didx + 1, bid) {
      assert HasHead(sides, at, j) ==> !Better(bid, Head(sides, at, j).price, price);
      ConsumeHead(sides[j], at[j], merged, didx, bid);
    }
  }

  /** One round of the outer loop of dx_plb_book_update_one_side, `more` unless it breaks. */
  method MergeLevel(dst: LevelSide, srcs: seq<LevelSide>, sidx: array<nat>, didx: nat, startValue: real,
                    ghost sides: seq<seq<Level>>, ghost clocks: seq<seq<int>>, ghost merged: seq<Level>)
    returns (more: bool, changed: bool)
    requires dst.levels.Length == |dst.times| == MAX_PRICE_LEVELS && didx < MAX_PRICE_LEVELS && didx <= |merged|
    requires Views(srcs, sides, dst.bid) && sidx.Length == |srcs| == |sides|
    requires Clocks(srcs, clocks) && Clocked(sides, clocks)
    requires forall s :: s in srcs ==> s != dst && s.levels != dst.levels
    requires merged == Book(Flat(sides), dst.bid) && IsBook(merged, dst.bid) && AllBooks(sides, dst.bid)
    requires AllConsumed(sides, sidx[..], merged, didx, dst.bid)
    modifies dst.levels, dst`times, sidx
    ensures Views(srcs, sides, dst.bid) && Clocks(srcs, clocks)
    ensures !more ==> didx == |merged| || Better(dst.bid, startValue, merged[didx].price)
    ensures more ==> didx < |merged| && !Better(dst.bid, startValue, merged[didx].price)
    ensures dst.levels[..] == if more then old(dst.levels[..])[didx := merged[didx]] else old(dst.levels[..])
    ensures !more ==> !changed
    ensures |dst.times| == MAX_PRICE_LEVELS
    ensures dst.times == if more then old(dst.times)[didx := dst.times[didx]] else old(dst.times)
    ensures more ==> IsLatest(dst.times[didx], sides, clocks, merged[didx].price, startValue)
    ensures more ==> (changed <==> old(dst.levels[didx]) != merged[didx] || old(dst.times)[didx] != dst.times[didx])
    ensures more ==> AllConsumed(sides, sidx[..], merged, didx + 1, dst.bid)
  {
    hide IsLatest, AllConsumed, IsBook, AllBooks, Book, Flat;
    more, changed := false, false;
    var best, time := NextCell(srcs, sidx, dst.bid, didx, startValue, sides, clocks, merged);
    if best.size == 0.0 {
      return;
    }
    more := true;
    changed := WriteCell(dst, didx, best, time);
    UseHeads(srcs, sidx, dst.bid, didx, best.price, sides, merged);
  }

  /** The outer loop of dx_plb_book_update_one_side: `n` levels of the merge are written. */
  method MergeLevels(dst: LevelSide, srcs: seq<LevelSide>, startValue: real,
                     ghost sides: seq<seq<Level>>, ghost clocks: seq<seq<int>>, ghost merged: seq<Level>)
    returns (n: nat, changed: bool)
    requires dst.levels.Length == |dst.times| == MAX_PRICE_LEVELS && Views(srcs, sides, dst.bid)
    requires Clocks(srcs, clocks) && Clocked(sides, clocks) && |srcs| == |sides|
    requires forall s :: s in srcs ==> s != dst && s.levels != dst.levels
    requires merged == Book(Flat(sides), dst.bid) && IsBook(merged, dst.bid) && AllBooks(sides, dst.bid)
    modifies dst.levels, dst`times
    ensures n <= MAX_PRICE_LEVELS && n <= |merged| && |dst.times| == MAX_PRICE_LEVELS
    ensures Written(dst.levels[..], old(dst.levels[..]), merged, n, startValue, dst.bid)
    ensures n < MAX_PRICE_LEVELS ==> n == |merged| || Better(dst.bid, startValue, merged[n].price)
    ensures TimesWritten(dst.times, old(dst.times), sides, clocks, merged, n, startValue)
    ensures changed <==> merged[..n] != old(dst.levels[..n]) || dst.times[..n] != old(dst.times)[..n]
  {
    hide Written, IsLatest, Views, Clocks, TimesWritten, AllConsumed, IsBook, AllBooks, Book, Flat, Clocked;
    var sidx := new nat[|srcs|](_ => 0);
    n, changed := 0, false;
    ghost var was, stamps := dst.levels[..], dst.times;
    var more := true;
    NothingWritten(was, merged, startValue, dst.bid);
    NoTimesWritten(stamps, sides, clocks, merged, startValue);
    NothingConsumed(sides, sidx[..], merged, dst.bid);
    while n < MAX_PRICE_LEVELS && more
      invariant 0 <= n <= MAX_PRICE_LEVELS && n <= |merged|
      invariant Views(srcs, sides, dst.bid) && fresh(sidx)
      invariant Clocks(srcs, clocks) && |dst.times| == MAX_PRICE_LEVELS
      invariant TimesWritten(dst.times, stamps, sides, clocks, merged, n, startValue)
      invariant Written(dst.levels[..], was, merged, n, startValue, dst.bid)
      invariant more ==> AllConsumed(sides, sidx[..], merged, n, dst.bid)
      invariant !more ==> n == |merged| || Better(dst.bid, startValue, merged[n].price)
      invariant changed <==> merged[..n] != was[..n] || dst.times[..n] != stamps[..n]
      decreases MAX_PRICE_LEVELS - n, more
    {
      ghost var before, earlier := dst.levels[..], dst.times;
      var wrote;
      more, wrote := MergeLevel(dst, srcs, sidx, n, startValue, sides, clocks, merged);
      if more {
        OneMoreWritten(before, was, merged, n, startValue, dst.bid);
        OneMoreTime(dst.times, earlier, stamps, sides, clocks, merged, n, startValue);
        changed := changed || wrote;
        n := n + 1;
      }
    }
  }

  lemma NothingConsumed(sides: seq<seq<Level>>, at: seq<nat>, merged: seq<Level>, bid: bool)
    requires |at| == |sides| && forall j :: 0 <= j < |at| ==> at[j] == 0
    ensures AllConsumed(sides, at, merged, 0, bid)
  {}

  lemma NoTimesWritten(was: seq<int>, sides: seq<seq<Level>>, clocks: seq<seq<int>>, merged: seq<Level>, start: real)
    requires Clocked(sides, clocks)
    ensures TimesWritten(was, was, sides, clocks, merged, 0, start)
  {}

  /** The first `n` levels of `was` are replaced by those of the merge. */
  ghost predicate Written(levels: seq<Level>, was: seq<Level>, merged: seq<Level>, n: nat, start: real, bid: bool) {
    && n <= |was| == |levels| && n <= |merged|
    && levels[..n] == merged[..n] && levels[n..] == was[n..]
    && forall i :: 0 <= i < n ==> !Better(bid, start, merged[i].price)
  }

  /** The first `n` times of `was` are replaced by the latest of the sources at the merged prices. */
  ghost predicate TimesWritten(times: seq<int>, was: seq<int>, sides: seq<seq<Level>>, clocks: seq<seq<int>>,
                               merged: seq<Level>, n: nat, start: real)
    requires Clocked(sides, clocks)
  {
    && n <= |was| == |times| && n <= |merged| && times[n..] == was[n..]
    && forall i :: 0 <= i < n ==> IsLatest(times[i], sides, clocks, merged[i].price, start)
  }

  lemma OneMoreTime(times: seq<int>, before: seq<int>, was: seq<int>, sides: seq<seq<Level>>, clocks: seq<seq<int>>,
                    merged: seq<Level>, n: nat, start: real)
    requires Clocked(sides, clocks) && TimesWritten(before, was, sides, clocks, merged, n, start)
    requires n < |was| == |times| && n < |merged| && times == before[n := times[n]]
    requires IsLatest(times[n], sides, clocks, merged[n].price, start)
    ensures TimesWritten(times, was, sides, clocks, merged, n + 1, start) && before[n] == was[n]
    ensures times[..n + 1] == was[..n + 1] <==> before[..n] == was[..n] && times[n] == was[n]
  {
    hide IsLatest;
    assert before[n..][0] == was[n..][0];
    assert times[..n + 1] == before[..n] + [times[n]] && was[..n + 1] == was[..n] + [was[n]];
  }

  lemma NothingWritten(was: seq<Level>, merged: seq<Level>, start: real, bid: bool)
    ensures Written(was, was, merged, 0, start, bid) && merged[..0] == was[..0]
  {}

  lemma OneMoreWritten(levels: seq<Level>, was: seq<Level>, merged: seq<Level>, n: nat, start: real, bid: bool)
    requires Written(levels, was, merged, n, start, bid) && n < |was| && n < |merged|
    requires !Better(bid, start, merged[n].price)
    ensures Written(levels[n := merged[n]], was, merged, n + 1, start, bid) && levels[n] == was[n]
    ensures merged[..n + 1] == was[..n + 1] <==> merged[..n] == was[..n] && merged[n] == was[n]
  {
    assert levels[n..][0] == was[n..][0];
    assert merged[..n + 1] == merged[..n] + [merged[n]] && was[..n + 1] == was[..n] + [was[n]];
  }

  /** dx_plb_book_update_one_side: the best ten prices of all sources together, those that are not
      worse than the start value, with the sizes added up across sources and the latest of their
      times. `changed` tells of a cell written anew, not of cells no longer in use. */
  method UpdateOneSide(dst: LevelSide, srcs: seq<LevelSide>, startValue: real,
                       ghost sides: seq<seq<Level>>, ghost clocks: seq<seq<int>>)
    returns (changed: bool)
    requires dst.Valid() && Views(srcs, sides, dst.bid) && Clocks(srcs, clocks) && Clocked(sides, clocks)
    requires forall s :: s in srcs ==> s != dst && s.levels != dst.levels
    requires AllBooks(sides, dst.bid)
    modifies dst, dst.levels
    ensures dst.Valid()
    ensures dst.State() == old(dst.State()).(
                           levels := NotWorse(Top(Book(Flat(sides), dst.bid)), startValue, dst.bid))
    ensures TimesWritten(dst.times, old(dst.times), sides, clocks, dst.State().levels, dst.count, startValue)
    ensures dst.levels[dst.count..] == old(dst.levels[..])[dst.count..]
    ensures changed <==> || dst.levels[..dst.count] != old(dst.levels[..])[..dst.count]
                         || dst.times[..dst.count] != old(dst.times)[..dst.count]
  {
    hide IsLatest;
    ghost var merged := Book(Flat(sides), dst.bid);
    MergedIsBook(sides, dst.bid);
    var n;
    n, changed := MergeLevels(dst, srcs, startValue, sides, clocks, merged);
    dst.count := n;
    assert dst.levels[..n] == merged[..n];
    WrittenLevels(merged, n, startValue, dst.bid);
  }

  lemma MergedIsBook(sides: seq<seq<Level>>, bid: bool)
    requires AllBooks(sides, bid)
    ensures IsBook(Book(Flat(sides), bid), bid)
  {
    FlatPositive(sides, bid);
    BookIsAggregate(Flat(sides), bid);
  }

  lemma WrittenLevels(merged: seq<Level>, n: nat, start: real, bid: bool)
    requires n <= MAX_PRICE_LEVELS && n <= |merged| && IsBook(merged, bid)
    requires forall i :: 0 <= i < n ==> !Better(bid, start, merged[i].price)
    requires n < MAX_PRICE_LEVELS ==> n == |merged| || Better(bid, start, merged[n].price)
    ensures merged[..n] == NotWorse(Top(merged), start, bid) && Sorted(merged[..n], bid)
  {
    NotWorseIs(Top(merged), start, bid, n);
  }

  /** A cell in use differs from what was there before, be it in price, size or time. */
  ghost predicate CellsChanged(levels: seq<Level>, times: seq<int>, side: LevelSide)
    requires side.Valid() && |levels| == |times| == MAX_PRICE_LEVELS
    reads side, side.levels
  {
    side.levels[..side.count] != levels[..side.count] || side.times[..side.count] != times[..side.count]
  }

  /** A price level book and the published sides of the sources it merges. */
  class PriceLevelBook {
    const bids: LevelSide
    const asks: LevelSide
    const srcBids: seq<LevelSide>
    const srcAsks: seq<LevelSide>
    /** The counts its listeners see */
    var bidsCount: nat
    var asksCount: nat

    ghost predicate Valid()
      reads this, bids, bids.levels, asks, asks.levels
    {
      && bids.Valid() && bids.bid && asks.Valid() && !asks.bid && bids.levels != asks.levels
      && (forall s :: s in srcBids + srcAsks ==>
            s != bids && s != asks && s.levels != bids.levels && s.levels != asks.levels)
    }

    constructor (srcBids: seq<LevelSide>, srcAsks: seq<LevelSide>)
      ensures Valid() && fresh(bids) && fresh(bids.levels) && fresh(asks) && fresh(asks.levels)
      ensures this.srcBids == srcBids && this.srcAsks == srcAsks
      ensures bids.State().levels == [] && asks.State().levels == [] && bidsCount == asksCount == 0
      ensures bids.levels[..] == asks.levels[..] == NO_LEVELS && bids.times == asks.times == NO_TIMES
    {
      var b := new LevelSide(true);
      var a := new LevelSide(false);
      this.srcBids, this.srcAsks := srcBids, srcAsks;
      bids, asks, bidsCount, asksCount := b, a, 0, 0;
    }

    /** dx_plb_book_update: each side that was ever updated in the source `from` is merged again.
        Listeners are called, and the counts they see refreshed, only when a level was written. */
    method Update(fromBids: LevelSide, fromAsks: LevelSide,
                  ghost bidSides: seq<seq<Level>>, ghost askSides: seq<seq<Level>>,
                  ghost bidClocks: seq<seq<int>>, ghost askClocks: seq<seq<int>>) returns (notified: bool)
      requires Valid() && Views(srcBids, bidSides, true) && Views(srcAsks, askSides, false)
      requires Clocks(srcBids, bidClocks) && Clocked(bidSides, bidClocks)
      requires Clocks(srcAsks, askClocks) && Clocked(askSides, askClocks)
      requires AllBooks(bidSides, true)
      requires AllBooks(askSides, false)
      modifies this, bids, bids.levels, asks, asks.levels
      ensures Valid()
      ensures bids.State().levels ==
              if old(fromBids.updated) then NotWorse(Top(Book(Flat(bidSides), true)), 0.0, true)
              else old(bids.State().levels)
      ensures asks.State().levels ==
              if old(fromAsks.updated) then NotWorse(Top(Book(Flat(askSides), false)), LARGEST_ASK, false)
              else old(asks.State().levels)
      ensures if old(fromBids.updated)
              then TimesWritten(bids.times, old(bids.times), bidSides, bidClocks, bids.State().levels, bids.count, 0.0)
              else bids.times == old(bids.times)
      ensures if old(fromAsks.updated)
              then TimesWritten(asks.times, old(asks.times), askSides, askClocks, asks.State().levels, asks.count,
                                LARGEST_ASK)
              else asks.times == old(asks.times)
      ensures bids.levels[bids.count..] == old(bids.levels[..])[bids.count..]
      ensures asks.levels[asks.count..] == old(asks.levels[..])[asks.count..]
      ensures notified ==> bidsCount == bids.count && asksCount == asks.count
      ensures !notified ==> bidsCount == old(bidsCount) && asksCount == old(asksCount)
      ensures notified <==> || (old(fromBids.updated) && CellsChanged(old(bids.levels[..]), old(bids.times), bids))
                            || (old(fromAsks.updated) && CellsChanged(old(asks.levels[..]), old(asks.times), asks))
    {
      hide TimesWritten, IsLatest, AllBooks, Book, NotWorse, Views, Clocked, Top, Flat, Sorted;
      notified := false;
      var asksUpdated := fromAsks.updated;
      if fromBids.updated {
        notified := UpdateOneSide(bids, srcBids, 0.0, bidSides, bidClocks);
      }
      if asksUpdated {
        var changed := UpdateOneSide(asks, srcAsks, LARGEST_ASK, askSides, askClocks);
        notified := notified || changed;
      }
      if notified {
        bidsCount := bids.count;
        asksCount := asks.count;
      }
    }
  }

  /** 1.0E38, the start value of the ask merge */
  const LARGEST_ASK := 100000000000000000000000000000000000000.0

  // ---------- merging the best levels is merging everything ----------

  lemma {:induction false} TakeAddAll(levels: seq<Level>, rows: seq<Level>, bid: bool, n: nat)
    ensures Take(AddAll(levels, rows, bid), n) == Take(AddAll(Take(levels, n), rows, bid), n)
  {
    if rows != [] {
      var k := |rows| - 1;
      TakeAddAll(levels, rows[..k], bid, n);
      TakeInsert(AddAll(levels, rows[..k], bid), rows[k], bid, n);
      TakeInsert(AddAll(Take(levels, n), rows[..k], bid), rows[k], bid, n);
    }
  }

  lemma {:induction false} AddAllConcat(levels: seq<Level>, a: seq<Level>, b: seq<Level>, bid: bool)
    ensures AddAll(levels, a + b, bid) == AddAll(AddAll(levels, a, bid), b, bid)
  {
    if b == [] {
      assert a + b == a;
    } else {
      assert (a + b)[..|a + b| - 1] == a + b[..|b| - 1];
      AddAllConcat(levels, a, b[..|b| - 1], bid);
    }
  }

  lemma AddAllCommutes(a: seq<Level>, b: seq<Level>, bid: bool)
    requires IsBook(a, bid) && IsBook(b, bid)
    ensures AddAll(a, b, bid) == AddAll(b, a, bid)
  {
    AddAllBook(a, b, bid);
    AddAllBook(b, a, bid);
    BookIsUnique(AddAll(a, b, bid), AddAll(b, a, bid), bid);
  }

  /** Each source only publishes its best ten levels. The ten best levels of their merge are those
      of the merge of the full books. */
  lemma {:induction false} TruncationLosesNothing(fulls: seq<seq<Level>>, tops: seq<seq<Level>>, bid: bool)
    requires |tops| == |fulls|
    requires forall j :: 0 <= j < |fulls| ==> IsBook(fulls[j], bid) && tops[j] == Top(fulls[j])
    ensures Top(Book(Flat(tops), bid)) == Top(Book(Flat(fulls), bid))
  {
    hide IsBook, AddAll, Top, Flat;
    if fulls != [] {
      var k := |fulls| - 1;
      forall j | 0 <= j < |tops| ensures IsBook(tops[j], bid) { TopIsBook(fulls[j], bid); }
      LastOfFlat(fulls);
      LastOfFlat(tops);
      TruncationLosesNothing(fulls[..k], tops[..k], bid);
      var x, y := Book(Flat(fulls[..k]), bid), Book(Flat(tops[..k]), bid);
      AddAllConcat([], Flat(fulls[..k]), fulls[k], bid);
      AddAllConcat([], Flat(tops[..k]), tops[k], bid);
      MergedIsBook(fulls[..k], bid);
      MergedIsBook(tops[..k], bid);
      TruncatedAdd(x, y, fulls[k], bid);
    }
  }

  lemma TopIsBook(full: seq<Level>, bid: bool)
    requires IsBook(full, bid)
    ensures IsBook(Top(full), bid)
  {}

  lemma LastOfFlat(sides: seq<seq<Level>>)
    requires sides != []
    ensures Flat(sides) == Flat(sides[..|sides| - 1]) + sides[|sides| - 1]
  {}

  lemma TruncatedAdd(x: seq<Level>, y: seq<Level>, full: seq<Level>, bid: bool)
    requires IsBook(x, bid) && IsBook(y, bid) && IsBook(full, bid) && Top(x) == Top(y)
    ensures Top(AddAll(y, Top(full), bid)) == Top(AddAll(x, full, bid))
  {
    var n := MAX_PRICE_LEVELS;
    calc {
      Take(AddAll(y, Take(full, n), bid), n);
      { AddAllCommutes(y, Take(full, n), bid); }
      Take(AddAll(Take(full, n), y, bid), n);
      { TakeAddAll(full, y, bid, n); }
      Take(AddAll(full, y, bid), n);
      { AddAllCommutes(full, y, bid); }
      Take(AddAll(y, full, bid), n);
      { TakeAddAll(y, full, bid, n); }
      Take(AddAll(Take(x, n), full, bid), n);
      { TakeAddAll(x, full, bid, n); }
      Take(AddAll(x, full, bid), n);
    }
  }

  lemma {:induction false} FlatBooks(rows: seq<seq<Level>>, books: seq<seq<Level>>, bid: bool, p: real)
    requires |books| == |rows|
    requires forall j :: 0 <= j < |rows| ==> books[j] == Book(rows[j], bid)
    ensures SizeAt(Flat(books), p) == SizeAt(Flat(rows), p)
  {
    if rows != [] {
      var k := |rows| - 1;
      FlatBooks(rows[..k], books[..k], bid, p);
      SizeAtConcat(Flat(rows[..k]), rows[k], p);
      SizeAtConcat(Flat(books[..k]), books[k], p);
      BookIsAggregate(rows[k], bid);
    }
  }

  lemma {:induction false} FlatRowsPositive(rows: seq<seq<Level>>)
    requires forall j :: 0 <= j < |rows| ==> Positive(rows[j])
    ensures Positive(Flat(rows))
  {
    if rows != [] { FlatRowsPositive(rows[..|rows| - 1]); }
  }

  /** What the merge writes, in terms of all rows of all sources: their ten best prices with the
      sizes added up across sources, cut at the first price worse than the start value. */
  lemma MergeIsExact(rows: seq<seq<Level>>, tops: seq<seq<Level>>, bid: bool)
    requires |tops| == |rows|
    requires forall j :: 0 <= j < |rows| ==> Positive(rows[j]) && tops[j] == Top(Book(rows[j], bid))
    ensures AllBooks(tops, bid)
    ensures Top(Book(Flat(tops), bid)) == Top(Book(Flat(rows), bid))
    ensures IsTopTen(Top(Book(Flat(tops), bid)), Flat(rows), bid)
  {
    var books := seq(|rows|, j requires 0 <= j < |rows| => Book(rows[j], bid));
    forall j | 0 <= j < |rows| ensures IsBook(books[j], bid) && IsBook(tops[j], bid) {
      BookIsAggregate(rows[j], bid);
    }
    assert Top(Book(Flat(tops), bid)) == Top(Book(Flat(books), bid)) by {
      TruncationLosesNothing(books, tops, bid);
    }
    assert Book(Flat(books), bid) == Book(Flat(rows), bid) by { BookOfBooks(rows, books, bid); }
    assert IsTopTen(Top(Book(Flat(rows), bid)), Flat(rows), bid) by {
      FlatRowsPositive(rows);
      TopIsTopTen(Flat(rows), bid);
    }
  }

  lemma BookOfBooks(rows: seq<seq<Level>>, books: seq<seq<Level>>, bid: bool)
    requires |books| == |rows|
    requires forall j :: 0 <= j < |rows| ==> Positive(rows[j]) && books[j] == Book(rows[j], bid)
    requires forall j :: 0 <= j < |rows| ==> IsBook(books[j], bid)
    ensures Book(Flat(books), bid) == Book(Flat(rows), bid)
  {
    MergedIsBook(books, bid);
    FlatRowsPositive(rows);
    BookIsAggregate(Flat(rows), bid);
    BookIsAggregate(Flat(books), bid);
    forall p ensures SizeAt(Book(Flat(books), bid), p) == SizeAt(Book(Flat(rows), bid), p) {
      FlatBooks(rows, books, bid, p);
    }
    BookIsUnique(Book(Flat(books), bid), Book(Flat(rows), bid), bid);
  }

  /** The start value cuts nothing exactly when none of the best levels is worse than it. */
  lemma {:induction false} StartValueExactly(levels: seq<Level>, start: real, bid: bool)
    ensures NotWorse(levels, start, bid) == levels <==>
            forall i :: 0 <= i < |levels| ==> !Better(bid, start, levels[i].price)
  {
    if levels != [] && !Better(bid, start, levels[0].price) {
      StartValueExactly(levels[1..], start, bid);
      assert levels == [levels[0]] + levels[1..];
      if NotWorse(levels, start, bid) == levels {
        assert NotWorse(levels, start, bid)[1..] == levels[1..];
        forall i | 0 <= i < |levels| ensures !Better(bid, start, levels[i].price) {
          assert i > 0 ==> levels[i] == levels[1..][i - 1];
        }
      }
    }
  }

  /** A bid below zero is on offer but never reaches the book. */
  lemma NegativeBidIsLost()
    ensures var rows := [[Level(-1.0, 5.0)]];
            Top(Book(Flat(rows), true)) == [Level(-1.0, 5.0)] &&
            NotWorse(Top(Book(Flat(rows), true)), 0.0, true) == []
  {
    var row := [Level(-1.0, 5.0)];
    var one: seq<seq<Level>>, none: seq<seq<Level>> := [row], [];
    assert one[..0] == none && row[..0] == [];
    assert Flat([row]) == row;
  }
}
