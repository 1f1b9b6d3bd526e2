/** Price levels as values: the book obtained by summing sizes by price, its best levels, and the
    effect on the best levels of adding or taking away one quantity. */
module PriceLevels {

  datatype Level = Level(price: real, size: real)

  const MAX_PRICE_LEVELS := 10

  /** Bids are ordered from the highest price, asks from the lowest. */
  predicate Better(bid: bool, p: real, q: real) {
    if bid then p > q else p < q
  }

  /** dx_plb_pricelvel_comparator_bid and dx_plb_pricelvel_comparator_ask */
  function Compare(bid: bool, p: Level, q: Level): int {
    if p.price == q.price then 0 else if Better(bid, p.price, q.price) then -1 else 1
  }

  ghost predicate Sorted(levels: seq<Level>, bid: bool) {
    forall i, j :: 0 <= i < j < |levels| ==> Better(bid, levels[i].price, levels[j].price)
  }

  ghost predicate Positive(levels: seq<Level>) {
    forall i :: 0 <= i < |levels| ==> levels[i].size > 0.0
  }

  predicate HasPrice(levels: seq<Level>, p: real) {
    exists i :: 0 <= i < |levels| && levels[i].price == p
  }

  /** The total size offered at one price. */
  function SizeAt(rows: seq<Level>, p: real): real {
    if rows == [] then 0.0
    else SizeAt(rows[..|rows| - 1], p) + if rows[|rows| - 1].price == p then rows[|rows| - 1].size else 0.0
  }

  /** One quantity added to a sorted list of levels of unlimited length. */
  function Insert(levels: seq<Level>, l: Level, bid: bool): seq<Level> {
    if levels == [] then [l]
    else if levels[0].price == l.price then [Level(l.price, levels[0].size + l.size)] + levels[1..]
    else if Better(bid, l.price, levels[0].price) then [l] + levels
    else [levels[0]] + Insert(levels[1..], l, bid)
  }

  function AddAll(levels: seq<Level>, rows: seq<Level>, bid: bool): seq<Level> {
    if rows == [] then levels
    else Insert(AddAll(levels, rows[..|rows| - 1], bid), rows[|rows| - 1], bid)
  }

  /** The simple book: every row added up by price, best price first. */
  function Book(rows: seq<Level>, bid: bool): seq<Level> {
    AddAll([], rows, bid)
  }

  function Take(levels: seq<Level>, n: nat): seq<Level> {
    if |levels| <= n then levels else levels[..n]
  }

  /** The best ten levels. */
  function Top(levels: seq<Level>): seq<Level> {
    Take(levels, MAX_PRICE_LEVELS)
  }

  /** One quantity taken away from the level of its price; a level that comes to nothing goes. */
  function Subtract(levels: seq<Level>, l: Level): seq<Level> {
    if levels == [] then []
    else if levels[0].price == l.price then
      (if levels[0].size == l.size then [] else [Level(l.price, levels[0].size - l.size)]) + levels[1..]
    else [levels[0]] + Subtract(levels[1..], l)
  }

  /** One quantity taken away from the level of its price, which stays whatever is left of it. */
  function Reduce(levels: seq<Level>, l: Level): seq<Level> {
    if levels == [] then []
    else if levels[0].price == l.price then [Level(l.price, levels[0].size - l.size)] + levels[1..]
    else [levels[0]] + Reduce(levels[1..], l)
  }

  // ---------- position of a price in a sorted list ----------

  lemma InsertBehind(levels: seq<Level>, l: Level, bid: bool)
    requires levels != [] && Better(bid, levels[0].price, l.price)
    ensures Insert(levels, l, bid) == [levels[0]] + Insert(levels[1..], l, bid)
  {}

  /** Binary search on sorted levels tells how `Insert` and `Reduce` act. */
  lemma {:induction false} InsertAt(levels: seq<Level>, l: Level, bid: bool, pos: nat)
    requires Sorted(levels, bid) && pos <= |levels|
    requires forall i :: 0 <= i < pos ==> Better(bid, levels[i].price, l.price)
    requires pos < |levels| ==> levels[pos].price == l.price || Better(bid, l.price, levels[pos].price)
    ensures Insert(levels, l, bid) ==
            if pos < |levels| && levels[pos].price == l.price
            then levels[pos := Level(l.price, levels[pos].size + l.size)]
            else levels[..pos] + [l] + levels[pos..]
  {
    if pos > 0 {
      hide Insert;
      var rest := levels[1..];
      InsertAt(rest, l, bid, pos - 1);
      InsertBehind(levels, l, bid);
      if pos < |levels| && levels[pos].price == l.price {
        assert [levels[0]] + rest[pos - 1 := Level(l.price, levels[pos].size + l.size)]
            == levels[pos := Level(l.price, levels[pos].size + l.size)];
      } else {
        assert [levels[0]] + (rest[..pos - 1] + [l] + rest[pos - 1..]) == levels[..pos] + [l] + levels[pos..];
      }
    } else {
      assert levels != [] && levels[0].price == l.price ==> Insert(levels, l, bid)[1..] == levels[1..];
    }
  }

  lemma {:induction false} ReduceAt(levels: seq<Level>, l: Level, pos: nat)
    requires pos < |levels| && levels[pos].price == l.price
    requires forall i :: 0 <= i < pos ==> levels[i].price != l.price
    ensures Reduce(levels, l) == levels[pos := Level(l.price, levels[pos].size - l.size)]
  {
    if pos > 0 {
      ReduceAt(levels[1..], l, pos - 1);
    }
  }

  lemma {:induction false} ReduceAbsent(levels: seq<Level>, l: Level)
    requires !HasPrice(levels, l.price)
    ensures Reduce(levels, l) == levels
  {
    if levels != [] {
      forall i | 0 <= i < |levels| - 1 ensures levels[1..][i].price != l.price {
        assert levels[1..][i] == levels[i + 1];
      }
      ReduceAbsent(levels[1..], l);
    }
  }

  // ---------- sizes by price ----------

  lemma {:induction false} SizeAtConcat(a: seq<Level>, b: seq<Level>, p: real)
    ensures SizeAt(a + b, p) == SizeAt(a, p) + SizeAt(b, p)
  {
    if b == [] {
      assert a + b == a;
    } else {
      assert (a + b)[..|a + b| - 1] == a + b[..|b| - 1];
      SizeAtConcat(a, b[..|b| - 1], p);
    }
  }

  lemma SizeAtCons(l: Level, b: seq<Level>, p: real)
    ensures SizeAt([l] + b, p) == SizeAt(b, p) + if l.price == p then l.size else 0.0
  {
    SizeAtConcat([l], b, p);
    assert [l][..0] == [];
  }

  /** In a list with distinct prices the total at a price is the size of its level. */
  lemma {:induction false} SizeAtLevel(levels: seq<Level>, bid: bool, k: nat)
    requires Sorted(levels, bid) && k < |levels|
    ensures SizeAt(levels, levels[k].price) == levels[k].size
  {
    var n := |levels| - 1;
    if k < n {
      SizeAtLevel(levels[..n], bid, k);
    } else {
      SizeAtAbsent(levels[..n], levels[k].price);
    }
  }

  lemma {:induction false} SizeAtAbsent(levels: seq<Level>, p: real)
    requires !HasPrice(levels, p)
    ensures SizeAt(levels, p) == 0.0
  {
    if levels != [] {
      var n := |levels| - 1;
      forall i | 0 <= i < n ensures levels[..n][i].price != p { assert levels[..n][i] == levels[i]; }
      SizeAtAbsent(levels[..n], p);
    }
  }

  lemma {:induction false} InsertSizes(levels: seq<Level>, l: Level, bid: bool, p: real)
    ensures SizeAt(Insert(levels, l, bid), p) == SizeAt(levels, p) + if l.price == p then l.size else 0.0
  {
    if levels == [] {
      assert [l][..0] == [];
    } else {
      var rest := levels[1..];
      assert levels == [levels[0]] + rest;
      SizeAtCons(levels[0], rest, p);
      if levels[0].price == l.price {
        SizeAtCons(Level(l.price, levels[0].size + l.size), rest, p);
      } else if Better(bid, l.price, levels[0].price) {
        SizeAtCons(l, levels, p);
      } else {
        InsertSizes(rest, l, bid, p);
        SizeAtCons(levels[0], Insert(rest, l, bid), p);
      }
    }
  }

  // ---------- insertion keeps books ----------

  /** Every price of the result is an old one or the new one. */
  lemma {:induction false} InsertPrices(levels: seq<Level>, l: Level, bid: bool)
    ensures forall i :: 0 <= i < |Insert(levels, l, bid)| ==>
              Insert(levels, l, bid)[i].price == l.price || HasPrice(levels, Insert(levels, l, bid)[i].price)
  {
    var r := Insert(levels, l, bid);
    forall i | 0 <= i < |r| ensures r[i].price == l.price || HasPrice(levels, r[i].price) {
      if levels == [] || levels[0].price == l.price {
        assert i > 0 ==> r[i] == levels[i];
      } else if Better(bid, l.price, levels[0].price) {
        assert i > 0 ==> r[i] == levels[i - 1];
      } else if i > 0 {
        InsertPrices(levels[1..], l, bid);
        assert r[i] == Insert(levels[1..], l, bid)[i - 1];
        if HasPrice(levels[1..], r[i].price) {
          var k :| 0 <= k < |levels[1..]| && levels[1..][k].price == r[i].price;
          assert levels[k + 1].price == r[i].price;
        }
      }
    }
  }

  lemma {:induction false} InsertSorted(levels: seq<Level>, l: Level, bid: bool)
    requires Sorted(levels, bid)
    ensures Sorted(Insert(levels, l, bid), bid)
    ensures Positive(levels) && l.size > 0.0 ==> Positive(Insert(levels, l, bid))
  {
    if levels != [] && levels[0].price != l.price && !Better(bid, l.price, levels[0].price) {
      InsertSorted(levels[1..], l, bid);
      InsertPrices(levels[1..], l, bid);
      var tail := Insert(levels[1..], l, bid);
      forall j | 0 <= j < |tail| ensures Better(bid, levels[0].price, tail[j].price) {
        if HasPrice(levels[1..], tail[j].price) {
          var k :| 0 <= k < |levels[1..]| && levels[1..][k].price == tail[j].price;
          assert levels[k + 1].price == tail[j].price;
        }
      }
    }
  }

  lemma {:induction false} AddAllBook(levels: seq<Level>, rows: seq<Level>, bid: bool)
    requires Sorted(levels, bid)
    ensures Sorted(AddAll(levels, rows, bid), bid)
    ensures Positive(levels) && Positive(rows) ==> Positive(AddAll(levels, rows, bid))
    ensures forall p :: SizeAt(AddAll(levels, rows, bid), p) == SizeAt(levels, p) + SizeAt(rows, p)
  {
    if rows != [] {
      var n := |rows| - 1;
      AddAllBook(levels, rows[..n], bid);
      InsertSorted(AddAll(levels, rows[..n], bid), rows[n], bid);
      forall p ensures SizeAt(AddAll(levels, rows, bid), p) == SizeAt(levels, p) + SizeAt(rows, p) {
        InsertSizes(AddAll(levels, rows[..n], bid), rows[n], bid, p);
      }
    }
  }

  /** The simple book holds the total size at every price, best price first. */
  lemma BookIsAggregate(rows: seq<Level>, bid: bool)
    ensures Sorted(Book(rows, bid), bid)
    ensures Positive(rows) ==> Positive(Book(rows, bid))
    ensures forall p :: SizeAt(Book(rows, bid), p) == SizeAt(rows, p)
  {
    AddAllBook([], rows, bid);
  }

  // ---------- a book is determined by its sizes ----------

  lemma SizeAtHead(levels: seq<Level>, bid: bool, p: real)
    requires Sorted(levels, bid) && levels != []
    ensures SizeAt(levels, levels[0].price) == levels[0].size
    ensures Better(bid, p, levels[0].price) ==> SizeAt(levels, p) == 0.0
  {
    SizeAtLevel(levels, bid, 0);
    if Better(bid, p, levels[0].price) {
      SizeAtAbsent(levels, p);
    }
  }

  /** Two sorted lists of positive levels that agree on every price are the same list. */
  lemma {:induction false} BookIsUnique(a: seq<Level>, b: seq<Level>, bid: bool)
    requires Sorted(a, bid) && Sorted(b, bid) && Positive(a) && Positive(b)
    requires forall p :: SizeAt(a, p) == SizeAt(b, p)
    ensures a == b
  {
    if a == [] {
      if b != [] { SizeAtHead(b, bid, b[0].price); }
    } else if b == [] {
      SizeAtHead(a, bid, a[0].price);
    } else {
      SizeAtHead(a, bid, b[0].price);
      SizeAtHead(b, bid, a[0].price);
      assert a[0] == b[0];
      assert a == [a[0]] + a[1..] && b == [b[0]] + b[1..];
      forall p ensures SizeAt(a[1..], p) == SizeAt(b[1..], p) {
        SizeAtCons(a[0], a[1..], p);
        SizeAtCons(b[0], b[1..], p);
      }
      BookIsUnique(a[1..], b[1..], bid);
    }
  }

  /** Rows that are in order with distinct prices are their own book. */
  lemma {:induction false} SortedIsBook(rows: seq<Level>, bid: bool)
    requires Sorted(rows, bid)
    ensures Book(rows, bid) == rows
  {
    if rows != [] {
      var n := |rows| - 1;
      SortedIsBook(rows[..n], bid);
      InsertAt(rows[..n], rows[n], bid, n);
    }
  }

  /** A row may be added at any place of the list of rows. */
  lemma BookOfMiddle(a: seq<Level>, l: Level, b: seq<Level>, bid: bool)
    requires Positive(a) && Positive(b) && l.size > 0.0
    ensures Book(a + [l] + b, bid) == Insert(Book(a + b, bid), l, bid)
  {
    BookIsAggregate(a + [l] + b, bid);
    BookIsAggregate(a + b, bid);
    InsertSorted(Book(a + b, bid), l, bid);
    forall p ensures SizeAt(Book(a + [l] + b, bid), p) == SizeAt(Insert(Book(a + b, bid), l, bid), p) {
      InsertSizes(Book(a + b, bid), l, bid, p);
      SizeAtConcat(a + [l], b, p);
      SizeAtConcat(a, [l], p);
      SizeAtConcat(a, b, p);
      assert [l][..0] == [];
    }
    BookIsUnique(Book(a + [l] + b, bid), Insert(Book(a + b, bid), l, bid), bid);
  }

  // ---------- the best levels ----------

  lemma TakeCons(l: Level, rest: seq<Level>, n: nat)
    requires n > 0
    ensures Take([l] + rest, n) == [l] + Take(rest, n - 1)
  {}

  /** Adding to the best levels and cutting again gives the best levels of the larger book. */
  lemma {:induction false} TakeInsert(levels: seq<Level>, l: Level, bid: bool, n: nat)
    ensures Take(Insert(levels, l, bid), n) == Take(Insert(Take(levels, n), l, bid), n)
  {
    if n > 0 && levels != [] {
      var rest := levels[1..];
      assert levels == [levels[0]] + rest;
      TakeCons(levels[0], rest, n);
      var cut := Take(levels, n);
      assert cut[0] == levels[0] && cut[1..] == Take(rest, n - 1);
      if levels[0].price == l.price {
        var sum := Level(l.price, levels[0].size + l.size);
        TakeCons(sum, rest, n);
      } else if Better(bid, l.price, levels[0].price) {
        TakeCons(l, levels, n);
        TakeCons(l, cut, n);
      } else {
        TakeInsert(rest, l, bid, n - 1);
        TakeCons(levels[0], Insert(rest, l, bid), n);
        TakeCons(levels[0], Insert(cut[1..], l, bid), n);
      }
    }
  }

  /** Taking away what was added gives the book back. */
  lemma {:induction false} SubtractUndoesInsert(levels: seq<Level>, l: Level, bid: bool)
    requires Positive(levels)
    ensures Subtract(Insert(levels, l, bid), l) == levels
  {
    if levels == [] {
    } else if levels[0].price == l.price {
    } else if Better(bid, l.price, levels[0].price) {
    } else {
      SubtractUndoesInsert(levels[1..], l, bid);
    }
  }

  /** The best levels change with the book unless a level is used up. */
  lemma {:induction false} TakeSubtract(levels: seq<Level>, l: Level, n: nat)
    requires !HasPrice(Take(levels, n), l.price) || SizeLeft(Take(levels, n), l) != 0.0
    ensures Take(Subtract(levels, l), n) == Reduce(Take(levels, n), l)
  {
    if n > 0 && levels != [] {
      var rest := levels[1..];
      assert levels == [levels[0]] + rest;
      TakeCons(levels[0], rest, n);
      var cut := Take(levels, n);
      assert cut[0] == levels[0] && cut[1..] == Take(rest, n - 1);
      if levels[0].price == l.price {
        TakeCons(Level(l.price, levels[0].size - l.size), rest, n);
      } else {
        if HasPrice(cut[1..], l.price) {
          var k :| 0 <= k < |cut[1..]| && cut[1..][k].price == l.price;
          assert cut[k + 1].price == l.price;
        }
        TakeSubtract(rest, l, n - 1);
        TakeCons(levels[0], Subtract(rest, l), n);
      }
    }
  }

  /** What is left of the level of `l` after taking `l` away. */
  function SizeLeft(levels: seq<Level>, l: Level): real {
    if levels == [] then 0.0
    else if levels[0].price == l.price then levels[0].size - l.size
    else SizeLeft(levels[1..], l)
  }

  // ---------- what the best ten levels are ----------

  /** The best ten levels said without computing them: sorted, each with the full positive total of
      its price, and every other price on offer is worse than ten of them. */
  ghost predicate IsTopTen(levels: seq<Level>, rows: seq<Level>, bid: bool) {
    && |levels| <= 10
    && Sorted(levels, bid)
    && (forall i :: 0 <= i < |levels| ==> levels[i].size == SizeAt(rows, levels[i].price) > 0.0)
    && forall p :: SizeAt(rows, p) > 0.0 && !HasPrice(levels, p) ==>
                     |levels| == 10 && Better(bid, levels[9].price, p)
  }

  lemma TopIsTopTen(rows: seq<Level>, bid: bool)
    requires Positive(rows)
    ensures IsTopTen(Top(Book(rows, bid)), rows, bid)
  {
    BookIsAggregate(rows, bid);
    var book := Book(rows, bid);
    var top := Top(book);
    forall i | 0 <= i < |top| ensures top[i].size == SizeAt(rows, top[i].price) > 0.0 {
      SizeAtLevel(book, bid, i);
    }
    forall p | SizeAt(rows, p) > 0.0 && !HasPrice(top, p)
      ensures |top| == MAX_PRICE_LEVELS && Better(bid, top[MAX_PRICE_LEVELS - 1].price, p)
    {
      var k := PriceOnOffer(rows, book, p);
      if k < |top| { assert false; }
    }
  }

  lemma PriceOnOffer(rows: seq<Level>, book: seq<Level>, p: real) returns (k: nat)
    requires SizeAt(book, p) == SizeAt(rows, p) > 0.0
    ensures k < |book| && book[k].price == p
  {
    if !HasPrice(book, p) { SizeAtAbsent(book, p); }
    k :| 0 <= k < |book| && book[k].price == p;
  }

  lemma MissingFromTopTen(levels: seq<Level>, rows: seq<Level>, book: seq<Level>, bid: bool, i: nat)
    requires Sorted(book, bid) && i < |levels| && i < |book|
    requires forall j :: 0 <= j < i ==> levels[j] == book[j]
    requires SizeAt(rows, book[i].price) > 0.0
    requires Better(bid, book[i].price, levels[i].price)
    ensures !IsTopTen(levels, rows, bid)
  {
    var p := book[i].price;
    forall j | 0 <= j < |levels| && Sorted(levels, bid) ensures levels[j].price != p {
      assert j > i ==> Better(bid, levels[i].price, levels[j].price);
    }
  }

  /** The first levels of any list that is a top ten are those of the simple book. */
  lemma {:induction false} TopTenPrefix(levels: seq<Level>, rows: seq<Level>, bid: bool, n: nat)
    requires Positive(rows) && IsTopTen(levels, rows, bid) && n <= |levels|
    ensures n <= |Book(rows, bid)| && levels[..n] == Book(rows, bid)[..n]
  {
    hide Book, SizeAt;
    if n > 0 {
      var i := n - 1;
      TopTenPrefix(levels, rows, bid, i);
      var book := Book(rows, bid);
      BookIsAggregate(rows, bid);
      var k := PriceOnOffer(rows, book, levels[i].price);
      forall j | 0 <= j < i ensures levels[j] == book[j] {
        assert levels[..i][j] == book[..i][j];
      }
      assert k >= i;
      SizeAtLevel(book, bid, i);
      if k > i {
        MissingFromTopTen(levels, rows, book, bid, i);
      }
      assert levels[..n] == levels[..i] + [levels[i]];
      assert book[..n] == book[..i] + [book[i]];
    }
  }

  /** The description above holds of one list only, the first ten levels of the simple book. */
  lemma TopTenExactly(levels: seq<Level>, rows: seq<Level>, bid: bool)
    requires Positive(rows)
    ensures IsTopTen(levels, rows, bid) <==> levels == Top(Book(rows, bid))
  {
    TopIsTopTen(rows, bid);
    if IsTopTen(levels, rows, bid) {
      TopTenPrefix(levels, rows, bid, |levels|);
      var book := Book(rows, bid);
      assert book[..|levels|] == levels;
      if |levels| < |book| && |levels| < MAX_PRICE_LEVELS {
        TopTenStopsShort(levels, rows, book, bid);
      }
    }
  }

  lemma TopTenStopsShort(levels: seq<Level>, rows: seq<Level>, book: seq<Level>, bid: bool)
    requires Positive(rows) && book == Book(rows, bid)
    requires |levels| < |book| && |levels| < MAX_PRICE_LEVELS && levels == book[..|levels|]
    ensures !IsTopTen(levels, rows, bid)
  {
    BookIsAggregate(rows, bid);
    SizeAtLevel(book, bid, |levels|);
    var p := book[|levels|].price;
    assert SizeAt(rows, p) > 0.0 && !HasPrice(levels, p);
  }
}
