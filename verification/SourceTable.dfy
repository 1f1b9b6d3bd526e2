/** The open-addressing hash table of order sources: linear probing, deletion by shifting entries
    back, and the sweep that deletes while it scans. */
module SourceTables {

  class Source {
    const symbol: string
    const source: string
    const hash: nat
    /** How many books use this source */
    var consumers: nat

    constructor (symbol: string, source: string, hash: nat)
      ensures this.symbol == symbol && this.source == source && this.hash == hash && consumers == 0
    {
      this.symbol, this.source, this.hash, consumers := symbol, source, hash, 0;
    }
  }

  type Hash = (string, string) -> nat

  predicate SameKey(a: Source, b: Source) {
    a.symbol == b.symbol && a.source == b.source
  }

  /** The remainder, spelled out so that proofs about slots stay linear. */
  function Mod(x: nat, m: nat): (r: nat)
    requires m > 0
    ensures r < m
  {
    if x < m then x else Mod(x - m, m)
  }

  lemma {:induction false} ModIsRemainder(x: nat, m: nat)
    requires m > 0
    ensures Mod(x, m) == x % m
  {
    if x >= m {
      ModIsRemainder(x - m, m);
      assert x % m == (x - m) % m by { RemainderStep(x, m); }
    }
  }

  lemma RemainderStep(x: nat, m: nat)
    requires x >= m > 0
    ensures x % m == (x - m) % m
  {
    var q, r := (x - m) / m, (x - m) % m;
    var d := q + 1 - x / m;
    assert m * d == m * (q + 1) - m * (x / m) == x % m - r;
    if d >= 1 { Grows(m, d); } else if d <= -1 { Grows(m, -d); }
  }

  lemma Grows(m: nat, d: int)
    requires d >= 1
    ensures m * d >= m && m * -d <= 0 - m
  {}

  function Home(hash: Hash, capacity: nat, s: Source): nat
    requires capacity > 0
  {
    Mod(hash(s.symbol, s.source), capacity)
  }

  /** `x` is met when walking upwards from `a` to `b`, around the end if need be. */
  predicate OnPath(a: nat, b: nat, x: nat) {
    if a <= b then a <= x <= b else x >= a || x <= b
  }

  /** `x` is met when walking upwards from `a` before reaching `b`. */
  predicate Before(a: nat, b: nat, x: nat) {
    if a <= b then a <= x < b else x >= a || x < b
  }

  /** How many steps upwards from `a` to `b`. */
  function Steps(capacity: nat, a: nat, b: nat): nat
    requires a < capacity && b < capacity
  {
    if a <= b then b - a else b + capacity - a
  }

  type Slots = seq<Source?>

  ghost predicate NoGapBefore(t: Slots, hash: Hash, q: nat)
    requires q < |t| && t[q] != null
  {
    forall x :: 0 <= x < |t| && OnPath(Home(hash, |t|, t[q]), q, x) ==> t[x] != null
  }

  ghost predicate HasGap(t: Slots) {
    exists e :: 0 <= e < |t| && t[e] == null
  }

  /** Every entry is reached from its home without meeting an empty slot, no key is there twice,
      and a search cannot run around forever. */
  ghost predicate WellFormed(t: Slots, hash: Hash) {
    && HasGap(t)
    && (forall q :: 0 <= q < |t| && t[q] != null ==> t[q].hash == hash(t[q].symbol, t[q].source))
    && (forall q :: 0 <= q < |t| && t[q] != null ==> NoGapBefore(t, hash, q))
    && (forall q, r :: 0 <= q < |t| && 0 <= r < |t| && t[q] != null && t[r] != null && SameKey(t[q], t[r]) ==> q == r)
  }

  ghost function Entries(t: Slots): set<Source> {
    set q | 0 <= q < |t| && t[q] != null :: t[q]
  }

  function Occupied(t: Slots): nat {
    if t == [] then 0 else Occupied(t[..|t| - 1]) + if t[|t| - 1] != null then 1 else 0
  }

  lemma {:induction false} OccupiedSet(t: Slots, i: nat, x: Source?)
    requires i < |t|
    ensures Occupied(t[i := x]) ==
            Occupied(t) - (if t[i] != null then 1 else 0) + (if x != null then 1 else 0)
  {
    var n := |t| - 1;
    if i < n {
      OccupiedSet(t[..n], i, x);
      assert t[i := x][..n] == t[..n][i := x];
    } else {
      assert t[i := x][..n] == t[..n];
    }
  }

  lemma {:induction false} GapFromCount(t: Slots)
    ensures Occupied(t) <= |t|
    ensures Occupied(t) < |t| ==> HasGap(t)
  {
    if t != [] {
      var n := |t| - 1;
      GapFromCount(t[..n]);
      if HasGap(t[..n]) {
        var e :| 0 <= e < n && t[..n][e] == null;
        assert t[e] == null;
      } else if Occupied(t) < |t| {
        assert t[n] == null;
      }
    }
  }

  function Next(i: nat, capacity: nat): nat
    requires i < capacity
  {
    if i + 1 == capacity then 0 else i + 1
  }

  /** The slot after `i`, as the C code computes it. */
  method StepUp(i: nat, capacity: nat) returns (n: nat)
    requires i < capacity
    ensures n == Next(i, capacity)
  {
    n := (i + 1) % capacity;
    if i + 1 < capacity { SmallMod(i + 1, capacity); }
  }

  lemma SmallMod(x: nat, m: nat)
    requires x < m
    ensures x % m == x
  {}

  /** dx_plb_source_find_pos: where the key is, or the empty slot its search ends at. */
  method FindPos(t: Slots, hash: Hash, symbol: string, src: string) returns (i: nat)
    requires WellFormed(t, hash)
    ensures i < |t|
    ensures t[i] != null ==> t[i].symbol == symbol && t[i].source == src
    ensures t[i] == null ==> forall q :: 0 <= q < |t| && t[q] != null ==> !(t[q].symbol == symbol && t[q].source == src)
    ensures forall x :: 0 <= x < |t| && Before(Mod(hash(symbol, src), |t|), i, x) ==> t[x] != null
  {
    ghost var gap :| 0 <= gap < |t| && t[gap] == null;
    var h := hash(symbol, src);
    i := h % |t|;
    ModIsRemainder(h, |t|);
    ghost var home := Mod(h, |t|);
    while t[i] != null
      invariant 0 <= i < |t|
      invariant forall x :: 0 <= x < |t| && Before(home, i, x) ==>
                  t[x] != null && !(t[x].symbol == symbol && t[x].source == src)
      decreases Steps(|t|, i, gap)
    {
      if t[i].hash == h && t[i].symbol == symbol && t[i].source == src {
        return;
      }
      i := StepUp(i, |t|);
    }
    forall q | 0 <= q < |t| && t[q] != null ensures !(t[q].symbol == symbol && t[q].source == src) {
      NotBeyondGap(t, hash, q, symbol, src, i);
    }
  }

  /** A key is not found behind the empty slot its search ends at. */
  lemma NotBeyondGap(t: Slots, hash: Hash, q: nat, symbol: string, src: string, i: nat)
    requires q < |t| && t[q] != null && NoGapBefore(t, hash, q)
    requires i < |t| && t[i] == null
    requires forall x :: 0 <= x < |t| && Before(Mod(hash(symbol, src), |t|), i, x) ==>
                  t[x] != null && !(t[x].symbol == symbol && t[x].source == src)
    ensures !(t[q].symbol == symbol && t[q].source == src)
  {
    assert !OnPath(Home(hash, |t|, t[q]), q, i);
  }

  // ---------- deletion ----------

  /** The table during a deletion: slot `pos` is to be refilled or emptied, the slots from there to
      `npos` are looked at, and `gap` is some empty slot ahead. No entry looked at so far is reached
      through `pos`. */
  ghost predicate Hole(t: Slots, hash: Hash, pos: nat, npos: nat, gap: nat) {
    && pos < |t| && npos < |t| && gap < |t| && t[gap] == null && !OnPath(pos, npos, gap)
    && (forall x :: 0 <= x < |t| && OnPath(pos, npos, x) ==> t[x] != null)
    && (forall q :: 0 <= q < |t| && t[q] != null ==> t[q].hash == hash(t[q].symbol, t[q].source))
    && (forall q :: 0 <= q < |t| && q != pos && t[q] != null ==> NoGapBut(t, hash, q, pos))
    && (forall q :: 0 <= q < |t| && q != pos && t[q] != null && OnPath(Home(hash, |t|, t[q]), q, pos) ==>
          !OnPath(pos, npos, q))
    && (forall q, r ::
          0 <= q < |t| && 0 <= r < |t| && q != pos && r != pos && t[q] != null && t[r] != null ==>
            (SameKey(t[q], t[r]) ==> q == r))
  }

  ghost predicate NoGapBut(t: Slots, hash: Hash, q: nat, pos: nat)
    requires q < |t| && t[q] != null
  {
    forall x :: 0 <= x < |t| && x != pos && OnPath(Home(hash, |t|, t[q]), q, x) ==> t[x] != null
  }

  /** The test of the C code says whether the entry at `npos` is reached through `pos`. */
  lemma MoveTest(pos: nat, npos: nat, tpos: nat)
    requires npos != pos
    ensures (npos > pos && (tpos <= pos || tpos > npos)) || (npos < pos && (tpos <= pos && tpos > npos))
            <==> OnPath(tpos, npos, pos)
  {}

  lemma HoleOpens(t: Slots, hash: Hash, pos: nat, gap: nat)
    requires WellFormed(t, hash) && pos < |t| && gap < |t| && t[pos] != null && t[gap] == null
    ensures Hole(t, hash, pos, pos, gap)
  {
    forall q | 0 <= q < |t| && t[q] != null ensures NoGapBut(t, hash, q, pos) {
      assert NoGapBefore(t, hash, q);
    }
  }

  lemma HoleStays(t: Slots, hash: Hash, pos: nat, npos: nat, gap: nat)
    requires Hole(t, hash, pos, npos, gap) && t[Next(npos, |t|)] != null
    requires !OnPath(Home(hash, |t|, t[Next(npos, |t|)]), Next(npos, |t|), pos)
    ensures Next(npos, |t|) != pos && Hole(t, hash, pos, Next(npos, |t|), gap)
  {}

  lemma HoleMoves(t: Slots, hash: Hash, pos: nat, npos: nat, gap: nat)
    requires Hole(t, hash, pos, npos, gap) && t[Next(npos, |t|)] != null
    requires OnPath(Home(hash, |t|, t[Next(npos, |t|)]), Next(npos, |t|), pos)
    ensures Next(npos, |t|) != pos
    ensures Hole(t[pos := t[Next(npos, |t|)]], hash, Next(npos, |t|), Next(npos, |t|), gap)
  {
    var n := Next(npos, |t|);
    var after := t[pos := t[n]];
    assert NoGapBut(t, hash, n, pos);
    forall q | 0 <= q < |t| && q != n && after[q] != null ensures NoGapBut(after, hash, q, n) {
      if q != pos { assert NoGapBut(t, hash, q, pos); }
    }
  }

  lemma HoleCloses(t: Slots, hash: Hash, pos: nat, npos: nat, gap: nat)
    requires Hole(t, hash, pos, npos, gap) && t[Next(npos, |t|)] == null
    ensures WellFormed(t[pos := null], hash)
  {
    var after := t[pos := null];
    assert after[pos] == null;
    forall q | 0 <= q < |t| && after[q] != null ensures NoGapBefore(after, hash, q) {
      assert NoGapBut(t, hash, q, pos);
      var n := Next(npos, |t|);
      if OnPath(Home(hash, |t|, t[q]), q, pos) {
        assert !OnPath(pos, npos, q);
        assert OnPath(Home(hash, |t|, t[q]), q, n);
      }
    }
  }

  /** How far the entries have moved since the deletion at `start` began: those not yet looked at
      are where they were, the others are all there but that of `start`, none further up. */
  ghost predicate Moved(t0: Slots, t: Slots, start: nat, pos: nat, npos: nat) {
    && |t| == |t0| && start < |t| && npos < |t| && OnPath(start, npos, pos)
    && Untouched(t0, t, start, npos) && AllCome(t0, t, start, pos, npos) && AllGone(t0, t, start, pos, npos)
  }

  ghost predicate Untouched(t0: Slots, t: Slots, start: nat, npos: nat)
    requires |t| == |t0|
  {
    forall q :: 0 <= q < |t| && !OnPath(start, npos, q) ==> t[q] == t0[q]
  }

  ghost predicate AllCome(t0: Slots, t: Slots, start: nat, pos: nat, npos: nat)
    requires |t| == |t0| && start < |t|
  {
    forall q :: 0 <= q < |t| && OnPath(start, npos, q) && q != pos ==> HasCome(t0, t, start, npos, q)
  }

  ghost predicate AllGone(t0: Slots, t: Slots, start: nat, pos: nat, npos: nat)
    requires |t| == |t0|
  {
    forall r :: 0 <= r < |t| && OnPath(start, npos, r) && r != start ==> HasGone(t0, t, start, pos, npos, r)
  }

  ghost predicate HasCome(t0: Slots, t: Slots, start: nat, npos: nat, q: nat)
    requires q < |t| == |t0| && start < |t|
  {
    exists r :: 0 <= r < |t0| && r != start && OnPath(start, npos, r) && t0[r] == t[q] &&
                Steps(|t|, start, q) <= Steps(|t|, start, r)
  }

  ghost predicate HasGone(t0: Slots, t: Slots, start: nat, pos: nat, npos: nat, r: nat)
    requires r < |t| == |t0|
  {
    exists q :: 0 <= q < |t| && q != pos && OnPath(start, npos, q) && t[q] == t0[r]
  }

  lemma MovedOn(t0: Slots, t: Slots, start: nat, pos: nat, npos: nat)
    requires Moved(t0, t, start, pos, npos) && Next(npos, |t|) != start
    ensures Moved(t0, t, start, pos, Next(npos, |t|))
    ensures pos < |t| ==> Moved(t0, t[pos := t[Next(npos, |t|)]], start, Next(npos, |t|), Next(npos, |t|))
  {
    var n := Next(npos, |t|);
    assert t[n] == t0[n];
    forall q | 0 <= q < |t| && OnPath(start, n, q) && q != pos ensures HasCome(t0, t, start, n, q) {
      if q != n {
        assert HasCome(t0, t, start, npos, q);
        var r :| 0 <= r < |t0| && r != start && OnPath(start, npos, r) && t0[r] == t[q] &&
                 Steps(|t|, start, q) <= Steps(|t|, start, r);
        assert OnPath(start, n, r);
      }
    }
    forall r | 0 <= r < |t| && OnPath(start, n, r) && r != start ensures HasGone(t0, t, start, pos, n, r) {
      if r != n {
        assert HasGone(t0, t, start, pos, npos, r);
        var q :| 0 <= q < |t| && q != pos && OnPath(start, npos, q) && t[q] == t0[r];
        assert OnPath(start, n, q);
      }
    }
    if pos < |t| {
      MovedBack(t0, t, start, pos, n);
    }
  }

  lemma MovedBack(t0: Slots, t: Slots, start: nat, pos: nat, n: nat)
    requires Moved(t0, t, start, pos, n) && pos < |t| && t[n] == t0[n] && n != start && pos != n
    ensures Moved(t0, t[pos := t[n]], start, n, n)
  {
    AllComeBack(t0, t, start, pos, n);
    AllGoneBack(t0, t, start, pos, n);
  }

  lemma AllComeBack(t0: Slots, t: Slots, start: nat, pos: nat, n: nat)
    requires |t| == |t0| && start < |t| && n < |t| && pos < |t| && pos != n
    requires OnPath(start, n, pos) && t[n] == t0[n] && n != start
    requires AllCome(t0, t, start, pos, n)
    ensures AllCome(t0, t[pos := t[n]], start, n, n)
  {
    forall q | 0 <= q < |t| && OnPath(start, n, q) && q != n ensures HasCome(t0, t[pos := t[n]], start, n, q) {
      ComeStill(t0, t, start, pos, n, q);
    }
  }

  lemma AllGoneBack(t0: Slots, t: Slots, start: nat, pos: nat, n: nat)
    requires |t| == |t0| && start < |t| && n < |t| && pos < |t| && pos != n
    requires OnPath(start, n, pos) && AllGone(t0, t, start, pos, n)
    ensures AllGone(t0, t[pos := t[n]], start, n, n)
  {
    forall r | 0 <= r < |t| && OnPath(start, n, r) && r != start
      ensures HasGone(t0, t[pos := t[n]], start, n, n, r)
    {
      GoneStill(t0, t, start, pos, n, r);
    }
  }

  lemma ComeStill(t0: Slots, t: Slots, start: nat, pos: nat, n: nat, q: nat)
    requires |t| == |t0| && start < |t| && n < |t| && pos < |t| && q < |t|
    requires OnPath(start, n, q) && OnPath(start, n, pos) && t[n] == t0[n] && n != start
    requires q != pos ==> HasCome(t0, t, start, n, q)
    ensures HasCome(t0, t[pos := t[n]], start, n, q)
  {
    if q != pos {
      var r :| 0 <= r < |t0| && r != start && OnPath(start, n, r) && t0[r] == t[q] &&
               Steps(|t|, start, q) <= Steps(|t|, start, r);
    } else {
      assert t0[n] == t[pos := t[n]][q];
    }
  }

  lemma GoneStill(t0: Slots, t: Slots, start: nat, pos: nat, n: nat, r: nat)
    requires |t| == |t0| && start < |t| && n < |t| && pos < |t| && r < |t| && pos != n
    requires OnPath(start, n, pos) && HasGone(t0, t, start, pos, n, r)
    ensures HasGone(t0, t[pos := t[n]], start, n, n, r)
  {
    var q :| 0 <= q < |t| && q != pos && OnPath(start, n, q) && t[q] == t0[r];
    assert t[pos := t[n]][if q == n then pos else q] == t0[r];
  }

  /** What a deletion leaves behind: every entry but one, none further up from there than it was. */
  ghost predicate Deleted(t0: Slots, t: Slots, start: nat) {
    && |t| == |t0| && start < |t|
    && (forall q :: 0 <= q < |t| && t[q] != null ==> CameFrom(t0, t, start, q))
    && (forall r :: 0 <= r < |t| && t0[r] != null && r != start ==> WentTo(t0, t, r))
  }

  ghost predicate CameFrom(t0: Slots, t: Slots, start: nat, q: nat)
    requires q < |t| == |t0| && start < |t|
  {
    exists r :: 0 <= r < |t0| && r != start && t0[r] == t[q] && Steps(|t|, start, q) <= Steps(|t|, start, r)
  }

  ghost predicate WentTo(t0: Slots, t: Slots, r: nat)
    requires r < |t| == |t0|
  {
    exists q :: 0 <= q < |t| && t[q] == t0[r]
  }

  lemma MovedAll(t0: Slots, t: Slots, start: nat, pos: nat, npos: nat)
    requires Moved(t0, t, start, pos, npos) && pos < |t|
    ensures Deleted(t0, t[pos := null], start)
  {
    var after := t[pos := null];
    forall q | 0 <= q < |t| && after[q] != null ensures CameFrom(t0, after, start, q) {
      if OnPath(start, npos, q) {
        assert HasCome(t0, t, start, npos, q);
      } else {
        assert t0[q] == after[q] && q != start;
      }
    }
    forall r | 0 <= r < |t| && t0[r] != null && r != start ensures WentTo(t0, after, r) {
      if OnPath(start, npos, r) {
        assert HasGone(t0, t, start, pos, npos, r);
        var q :| 0 <= q < |t| && q != pos && OnPath(start, npos, q) && t[q] == t0[r];
        assert after[q] == t0[r];
      } else {
        assert after[r] == t0[r];
      }
    }
  }

  lemma EntriesDeleted(t0: Slots, t: Slots, hash: Hash, start: nat)
    requires WellFormed(t0, hash) && Deleted(t0, t, start) && t0[start] != null
    ensures Entries(t) == Entries(t0) - {t0[start]}
  {
    forall s | s in Entries(t) ensures s in Entries(t0) && s != t0[start] {
      var q :| 0 <= q < |t| && t[q] == s;
      assert CameFrom(t0, t, start, q);
    }
    forall s | s in Entries(t0) && s != t0[start] ensures s in Entries(t) {
      var r :| 0 <= r < |t0| && t0[r] == s;
      assert WentTo(t0, t, r);
    }
  }

  lemma EntryFound(t: Slots, hash: Hash, source: Source, pos: nat)
    requires WellFormed(t, hash) && pos < |t|
    requires t[pos] != null ==> SameKey(t[pos], source)
    requires t[pos] == null ==> forall q :: 0 <= q < |t| && t[q] != null ==> !SameKey(t[q], source)
    ensures t[pos] == source <==> source in Entries(t)
  {
    if source in Entries(t) {
      var q :| 0 <= q < |t| && t[q] == source;
      assert t[pos] != null ==> SameKey(t[q], t[pos]);
    }
  }

  /** A new entry goes to the empty slot the search for its key ends at. */
  lemma EntryAdded(t: Slots, hash: Hash, s: Source, i: nat)
    requires WellFormed(t, hash) && i < |t| && t[i] == null && HasGap(t[i := s])
    requires s.hash == hash(s.symbol, s.source)
    requires forall q :: 0 <= q < |t| && t[q] != null ==> !SameKey(t[q], s)
    requires forall x :: 0 <= x < |t| && Before(Home(hash, |t|, s), i, x) ==> t[x] != null
    ensures WellFormed(t[i := s], hash) && Entries(t[i := s]) == Entries(t) + {s}
  {
    var after := t[i := s];
    forall q | 0 <= q < |t| && after[q] != null ensures NoGapBefore(after, hash, q) {
      if q != i { assert NoGapBefore(t, hash, q); }
    }
    forall e | e in Entries(t) + {s} ensures e in Entries(after) {
      if e == s {
        assert after[i] == s;
      } else {
        var q :| 0 <= q < |t| && t[q] == e;
        assert after[q] == e;
      }
    }
    forall e | e in Entries(after) ensures e in Entries(t) + {s} {
      var q :| 0 <= q < |t| && after[q] == e;
      assert q != i ==> t[q] == e;
    }
  }

  /** What every round of the deletion loop keeps. */
  ghost predicate Shifting(t0: Slots, t: Slots, hash: Hash, start: nat, hole: nat, last: nat, gap: nat) {
    && |t| == |t0| && hole < |t| && last < |t| && t[hole] != null
    && Hole(t, hash, hole, last, gap)
    && Moved(t0, t, start, hole, last) && !OnPath(start, last, gap)
    && Occupied(t) == Occupied(t0)
  }

  lemma SomeGap(t: Slots, hash: Hash) returns (gap: nat)
    requires WellFormed(t, hash)
    ensures gap < |t| && t[gap] == null
  {
    gap :| gap < |t| && t[gap] == null;
  }

  lemma ShiftingIs(t0: Slots, t: Slots, hash: Hash, start: nat, hole: nat, last: nat, gap: nat)
    requires Shifting(t0, t, hash, start, hole, last, gap)
    ensures hole < |t| && last < |t| && t[hole] != null && gap < |t| && Occupied(t) == Occupied(t0)
  {}

  lemma ShiftingStarts(t: Slots, hash: Hash, start: nat, gap: nat)
    requires WellFormed(t, hash) && start < |t| && gap < |t| && t[start] != null && t[gap] == null
    ensures Shifting(t, t, hash, start, start, start, gap)
  {
    HoleOpens(t, hash, start, gap);
  }

  lemma ShiftingEnds(t0: Slots, t: Slots, hash: Hash, start: nat, hole: nat, last: nat, gap: nat)
    requires Shifting(t0, t, hash, start, hole, last, gap) && t[Next(last, |t|)] == null
    ensures WellFormed(t[hole := null], hash) && Deleted(t0, t[hole := null], start)
  {
    HoleCloses(t, hash, hole, last, gap);
    MovedAll(t0, t, start, hole, last);
  }

  lemma ShiftingOn(t0: Slots, t: Slots, hash: Hash, start: nat, hole: nat, last: nat, gap: nat)
    requires Shifting(t0, t, hash, start, hole, last, gap) && t[Next(last, |t|)] != null
    ensures var n := Next(last, |t|);
            && n != hole && Steps(|t|, n, gap) < Steps(|t|, last, gap)
            && if OnPath(Home(hash, |t|, t[n]), n, hole) then Shifting(t0, t[hole := t[n]], hash, start, n, n, gap)
               else Shifting(t0, t, hash, start, hole, n, gap)
  {
    var n := Next(last, |t|);
    assert n != gap && n != start;
    MovedOn(t0, t, start, hole, last);
    if OnPath(Home(hash, |t|, t[n]), n, hole) {
      HoleMoves(t, hash, hole, last, gap);
      OccupiedSet(t, hole, t[n]);
    } else {
      HoleStays(t, hash, hole, last, gap);
    }
  }

  datatype Outcome = Added | NullDereference

  const INITIAL_CAPACITY := 1024

  class SourceTable {
    const hash: Hash
    var sources: array<Source?>
    var size: nat

    ghost predicate Valid()
      reads this, sources
    {
      && WellFormed(sources[..], hash)
      && size == Occupied(sources[..])
      && sources.Length >= INITIAL_CAPACITY
    }

    /** The sources in the table. */
    ghost function Contents(): set<Source>
      reads this, sources
    {
      Entries(sources[..])
    }

    constructor (hash: Hash)
      ensures Valid() && Contents() == {} && fresh(sources) && this.hash == hash
      ensures sources.Length == INITIAL_CAPACITY && size == 0
    {
      this.hash := hash;
      sources := new Source?[INITIAL_CAPACITY](_ => null);
      size := 0;
      new;
      NoneOccupied(sources[..]);
      assert sources[..][0] == null;
    }

    /** dx_plb_ctx_find_source */
    method FindSource(symbol: string, src: string) returns (s: Source?)
      requires Valid()
      ensures s != null ==> s in Contents() && s.symbol == symbol && s.source == src
      ensures s == null ==> forall e :: e in Contents() ==> !(e.symbol == symbol && e.source == src)
    {
      var pos := FindPos(sources[..], hash, symbol, src);
      s := sources[pos];
      assert sources[..][pos] == s;
    }

    /** dx_plb_ctx_grow_sources_hashtable: the loop that re-inserts looks at every slot of the old
        table, and cannot pass an empty one. */
    method Grow() returns (stopped: bool)
      requires Valid()
      ensures stopped
    {
      stopped := false;
      var i := 0;
      while i < sources.Length && !stopped
        invariant i <= sources.Length
        invariant !stopped ==> forall x :: 0 <= x < i ==> sources[..][x] != null
        decreases sources.Length - i, !stopped
      {
        if sources[i] == null {
          stopped := true;
        } else {
          i := i + 1;
        }
      }
    }

    /** dx_plb_ctx_add_source for a key that is not in the table yet: it works exactly while the
        table is at most half full. */
    method AddSource(source: Source) returns (outcome: Outcome)
      requires Valid() && source.hash == hash(source.symbol, source.source)
      requires forall e :: e in Contents() ==> !SameKey(e, source)
      modifies this`size, sources
      ensures outcome == Added <==> old(size) <= sources.Length / 2
      ensures outcome == Added ==> Valid() && Contents() == old(Contents()) + {source} && size == old(size) + 1
      ensures outcome != Added ==> Valid() && Contents() == old(Contents()) && size == old(size)
    {
      var pos := FindPos(sources[..], hash, source.symbol, source.source);
      if size > sources.Length / 2 {
        var stopped := Grow();
        if stopped {
          return NullDereference;
        }
      }
      ghost var t := sources[..];
      forall q | 0 <= q < |t| && t[q] != null ensures !SameKey(t[q], source) {
        assert t[q] in Entries(t);
      }
      assert t[pos] == null;
      OccupiedSet(t, pos, source);
      GapFromCount(t[pos := source]);
      EntryAdded(t, hash, source, pos);
      sources[pos] := source;
      size := size + 1;
      assert sources[..] == t[pos := source];
      return Added;
    }

    /** One round of the loop of dx_plb_ctx_remove_source: the entry at `npos` moves to the slot to be
        refilled if it is reached through that slot. */
    method ShiftEntry(pos: nat, npos: nat) returns (hole: nat)
      requires pos < sources.Length && npos < sources.Length && npos != pos && sources[npos] != null
      modifies sources
      ensures if OnPath(Home(hash, sources.Length, old(sources[npos])), npos, pos)
              then hole == npos && sources[..] == old(sources[..])[pos := old(sources[npos])]
              else hole == pos && sources[..] == old(sources[..])
    {
      hole := pos;
      var tpos := hash(sources[npos].symbol, sources[npos].source) % sources.Length;
      ModIsRemainder(hash(sources[npos].symbol, sources[npos].source), sources.Length);
      MoveTest(pos, npos, tpos);
      if (npos > pos && (tpos <= pos || tpos > npos)) || (npos < pos && (tpos <= pos && tpos > npos)) {
        sources[pos] := sources[npos];
        hole := npos;
      }
    }

    method Round(pos: nat, npos: nat, ghost t0: Slots, ghost start: nat, ghost last: nat, ghost gap: nat)
      returns (hole: nat)
      requires Shifting(t0, sources[..], hash, start, pos, last, gap)
      requires npos < sources.Length && npos == Next(last, sources.Length) && sources[npos] != null
      modifies sources
      ensures Shifting(t0, sources[..], hash, start, hole, npos, gap)
      ensures Steps(sources.Length, npos, gap) < Steps(sources.Length, last, gap)
    {
      ghost var t := sources[..];
      assert t[npos] == sources[npos];
      ShiftingOn(t0, t, hash, start, pos, last, gap);
      hole := ShiftEntry(pos, npos);
    }

    /** The loop of dx_plb_ctx_remove_source: entries are shifted back until slot `hole` may be
        emptied. */
    method ShiftBack(start: nat) returns (hole: nat)
      requires Valid() && start < sources.Length && sources[start] != null
      modifies sources
      ensures hole < sources.Length && sources[hole] != null
      ensures WellFormed(sources[..][hole := null], hash)
      ensures Deleted(old(sources[..]), sources[..][hole := null], start)
      ensures Occupied(sources[..]) == old(Occupied(sources[..]))
    {
      hide Shifting, WellFormed, Deleted, Occupied;
      ghost var t0 := sources[..];
      ghost var gap := SomeGap(t0, hash);
      ShiftingStarts(t0, hash, start, gap);
      ShiftingIs(t0, sources[..], hash, start, start, start, gap);
      hole := start;
      ghost var last: nat := start;
      var npos := StepUp(start, sources.Length);
      while sources[npos] != null
        invariant last < sources.Length && npos == Next(last, sources.Length)
        invariant Shifting(t0, sources[..], hash, start, hole, last, gap) && gap < sources.Length
        invariant hole < sources.Length && sources[hole] != null && Occupied(sources[..]) == Occupied(t0)
        decreases Steps(sources.Length, last, gap)
      {
        hole := Round(hole, npos, t0, start, last, gap);
        last := npos;
        ShiftingIs(t0, sources[..], hash, start, hole, last, gap);
        npos := StepUp(npos, sources.Length);
      }
      ShiftingEnds(t0, sources[..], hash, start, hole, last, gap);
    }

    /** dx_plb_ctx_remove_source; false when the table does not hold this source. */
    method RemoveSource(source: Source) returns (ok: bool, ghost start: nat)
      requires Valid()
      modifies this`size, sources
      ensures Valid()
      ensures ok <==> source in old(Contents())
      ensures Contents() == old(Contents()) - {source}
      ensures ok ==> start < sources.Length && old(sources[..])[start] == source
      ensures ok ==> Deleted(old(sources[..]), sources[..], start) && size == old(size) - 1
      ensures !ok ==> sources[..] == old(sources[..]) && size == old(size)
    {
      ghost var t0 := sources[..];
      var pos := FindPos(sources[..], hash, source.symbol, source.source);
      start := pos;
      assert t0[pos] == sources[pos];
      EntryFound(t0, hash, source, pos);
      if sources[pos] != source {
        return false, start;
      }
      pos := ShiftBack(pos);
      ghost var t := sources[..];
      OccupiedSet(t, pos, null);
      sources[pos] := null;
      size := size - 1;
      assert sources[..] == t[pos := null];
      EntriesDeleted(t0, sources[..], hash, start);
      return true, start;
    }

    method RemoveAt(i: nat)
      requires Valid() && i < sources.Length && sources[i] != null
      modifies this`size, sources
      ensures Valid() && size == old(size) - 1
      ensures Contents() == old(Contents()) - {old(sources[i])}
      ensures Deleted(old(sources[..]), sources[..], i)
    {
      assert sources[..][i] == sources[i] && sources[i] in Entries(sources[..]);
      var ok;
      ghost var start;
      ok, start := RemoveSource(sources[i]);
    }

    /** dx_plb_ctx_cleanup_sources: the sources without consumers go, all others stay, although each
        removal moves entries under the scan and around the end of the table. */
    method CleanupSources()
      requires Valid()
      modifies this`size, sources
      ensures Valid()
      ensures Contents() == set s | s in old(Contents()) && s.consumers > 0
    {
      ghost var all := Contents();
      ghost var used := set s | s in all && s.consumers > 0;
      var i := 0;
      while i < sources.Length
        invariant Valid() && i <= sources.Length
        invariant used <= Contents() <= all
        invariant Scanned(sources[..], i, used)
        decreases size, sources.Length - i
      {
        ghost var t0 := sources[..];
        assert t0[i] == sources[i];
        if sources[i] == null {
          i := i + 1;
        } else if sources[i].consumers == 0 {
          RemoveAt(i);
          ScannedStays(t0, sources[..], i, used);
        } else {
          assert sources[i] in Entries(t0);
          i := i + 1;
        }
      }
      forall s | s in Contents() ensures s in used {
        var q :| 0 <= q < sources.Length && sources[..][q] == s;
      }
    }
  }

  ghost predicate Scanned(t: Slots, i: nat, used: set<Source>) {
    i <= |t| && forall x :: 0 <= x < i && t[x] != null ==> t[x] in used
  }

  /** A deletion at the scan position brings nothing unscanned into the scanned part. */
  lemma ScannedStays(t0: Slots, t: Slots, i: nat, used: set<Source>)
    requires Scanned(t0, i, used) && Deleted(t0, t, i)
    ensures Scanned(t, i, used)
  {
    forall x | 0 <= x < i && t[x] != null ensures t[x] in used {
      assert CameFrom(t0, t, i, x);
    }
  }

  lemma {:induction false} NoneOccupied(t: Slots)
    requires forall i :: 0 <= i < |t| ==> t[i] == null
    ensures Occupied(t) == 0
  {
    if t != [] { NoneOccupied(t[..|t| - 1]); }
  }

  /** A new table takes 513 sources, whatever the hash; the one after that ends in the dereference. */
  method FillUp(hash: Hash) returns (table: SourceTable, outcome: Outcome)
    ensures fresh(table) && fresh(table.sources) && table.Valid() && table.hash == hash
    ensures table.size == 513 && outcome == NullDereference
  {
    table := new SourceTable(hash);
    var symbol := "";
    outcome := Added;
    while outcome == Added
      invariant fresh(table) && fresh(table.sources) && table.Valid() && table.hash == hash
      invariant table.sources.Length == INITIAL_CAPACITY
      invariant |symbol| == table.size + (if outcome == Added then 0 else 1)
      invariant if outcome == Added then table.size <= 513 else table.size == 513
      invariant forall e :: e in table.Contents() ==> |e.symbol| < |symbol|
      decreases 513 - table.size, outcome == Added
    {
      var source := new Source(symbol, "NTV", hash(symbol, "NTV"));
      outcome := table.AddSource(source);
      symbol := symbol + "A";
    }
  }
}
