/** UTF-8 as the wire protocol writes and reads it (section 3 of RFC 3629, with surrogate code points
    written like any other). Strings are sequences of 16-bit units, without the terminating zero. */
module Utf8Format {
  import opened CompactFormat
  import opened Lengths
  import opened Pointers

  type Unit = bv16
  type Units = seq<Unit>

  const MAX_CODE_POINT: bv32 := 0x10FFFF

  // ---------- one code point ----------

  /** dx_write_utf2_unchecked, dx_write_utf3_unchecked, dx_write_utf4_unchecked */
  function Utf2(cp: bv32): seq<bv8> {
    [Byte(0xC0 | (cp >> 6)), Byte(0x80 | (cp & 0x3F))]
  }

  function Utf3(cp: bv32): seq<bv8> {
    [Byte(0xE0 | (cp >> 12)), Byte(0x80 | ((cp >> 6) & 0x3F)), Byte(0x80 | (cp & 0x3F))]
  }

  function Utf4(cp: bv32): seq<bv8> {
    [Byte(0xF0 | (cp >> 18)), Byte(0x80 | ((cp >> 12) & 0x3F)),
     Byte(0x80 | ((cp >> 6) & 0x3F)), Byte(0x80 | (cp & 0x3F))]
  }

  predicate IsCodePoint(cp: bv32) { cp <= MAX_CODE_POINT }

  /** The bytes dx_write_utf_char writes. */
  function Utf8(cp: bv32): seq<bv8>
    requires IsCodePoint(cp)
  {
    if cp <= 0x7F then [Byte(cp)] else if cp <= 0x7FF then Utf2(cp) else if cp <= 0xFFFF then Utf3(cp) else Utf4(cp)
  }

  predicate Continues(b: bv8) { Unsigned(b) & 0xC0 == 0x80 }

  /** dx_read_short: the sign of the first byte fills the upper half. */
  function Short(a: bv8, b: bv8): bv32 { (Signed(a) << 8) | Unsigned(b) }

  predicate TailContinues(tail: bv32) { tail & 0xC0C0 == 0x8080 }

  function TailBits(tail: bv32): bv32 { ((tail & 0x3F00) >> 2) | (tail & 0x3F) }

  function Point2(a: bv8, b: bv8): bv32 { ((Unsigned(a) & 0x1F) << 6) | (Unsigned(b) & 0x3F) }

  function Point3(a: bv8, tail: bv32): bv32 { ((Unsigned(a) & 0x0F) << 12) | TailBits(tail) }

  function Point4(a: bv8, b: bv8, tail: bv32): bv32 {
    ((Unsigned(a) & 0x07) << 18) | ((Unsigned(b) & 0x3F) << 12) | TailBits(tail)
  }

  /** The first byte of a character says how many bytes it has; none for a byte that starts none. */
  function Length(a: bv8): nat {
    if a & 0x80 == 0 then 1
    else if Unsigned(a) & 0xE0 == 0xC0 then 2
    else if Unsigned(a) & 0xF0 == 0xE0 then 3
    else if Unsigned(a) & 0xF8 == 0xF0 then 4
    else 0
  }

  /** What dx_read_utf_char makes of the bytes ahead. */
  function ReadChar(s: seq<bv8>): Read<bv32> {
    if |s| < 1 then Underflow(0) else ReadRest(s, Length(s[0]))
  }

  function ReadRest(s: seq<bv8>, length: nat): (r: Read<bv32>)
    requires |s| > 0
    ensures r.Ok? ==> 1 <= r.used <= |s|
  {
    if length == 1 then Ok(Unsigned(s[0]), 1)
    else if length == 2 then
      if |s| < 2 then Underflow(1)
      else if !Continues(s[1]) then Malformed(2) else Ok(Point2(s[0], s[1]), 2)
    else if length == 3 then
      if |s| < 3 then Underflow(1)
      else if !TailContinues(Short(s[1], s[2])) then Malformed(3) else Ok(Point3(s[0], Short(s[1], s[2])), 3)
    else if length == 4 then
      if |s| < 2 then Underflow(1)
      else if |s| < 4 then Underflow(2)
      else if !Continues(s[1]) || !TailContinues(Short(s[2], s[3])) then Malformed(4)
      else if Point4(s[0], s[1], Short(s[2], s[3])) > MAX_CODE_POINT then Malformed(4)
      else Ok(Point4(s[0], s[1], Short(s[2], s[3])), 4)
    else Malformed(1)
  }

  lemma Char1(cp: bv32)
    requires cp <= 0x7F
    ensures Length(Byte(cp)) == 1 && Unsigned(Byte(cp)) == cp
  {}

  lemma Char2(cp: bv32)
    requires 0x7F < cp <= 0x7FF
    ensures var (a, b) := (Byte(0xC0 | (cp >> 6)), Byte(0x80 | (cp & 0x3F)));
            Length(a) == 2 && Continues(b) && Point2(a, b) == cp
  {}

  lemma Char3(cp: bv32)
    requires 0x7FF < cp <= 0xFFFF
    ensures Length(Byte(0xE0 | (cp >> 12))) == 3
  {}

  lemma Tail(cp: bv32)
    ensures var tail := Short(Byte(0x80 | ((cp >> 6) & 0x3F)), Byte(0x80 | (cp & 0x3F)));
            TailContinues(tail) && TailBits(tail) == cp & 0xFFF
  {}

  lemma Char3Value(cp: bv32, tail: bv32)
    requires 0x7FF < cp <= 0xFFFF && TailBits(tail) == cp & 0xFFF
    ensures Point3(Byte(0xE0 | (cp >> 12)), tail) == cp
  {}

  lemma Char4(cp: bv32)
    requires 0xFFFF < cp <= 0x10FFFF
    ensures Length(Byte(0xF0 | (cp >> 18))) == 4 && Continues(Byte(0x80 | ((cp >> 12) & 0x3F)))
  {}

  lemma Char4Value(cp: bv32, tail: bv32)
    requires 0xFFFF < cp <= 0x10FFFF && TailBits(tail) == cp & 0xFFF
    ensures Point4(Byte(0xF0 | (cp >> 18)), Byte(0x80 | ((cp >> 12) & 0x3F)), tail) == cp
  {}

  lemma ReadsChar2(cp: bv32, rest: seq<bv8>)
    requires 0x7F < cp <= 0x7FF
    ensures ReadChar(Utf2(cp) + rest) == Ok(cp, 2)
  {
    var s := Utf2(cp) + rest;
    assert s[0] == Utf2(cp)[0] && s[1] == Utf2(cp)[1];
    Char2(cp);
  }

  lemma ReadsChar3(cp: bv32, rest: seq<bv8>)
    requires 0x7FF < cp <= 0xFFFF
    ensures ReadChar(Utf3(cp) + rest) == Ok(cp, 3)
  {
    var s := Utf3(cp) + rest;
    assert s[0] == Utf3(cp)[0] && s[1] == Utf3(cp)[1] && s[2] == Utf3(cp)[2];
    Char3(cp);
    Tail(cp);
    Char3Value(cp, Short(s[1], s[2]));
  }

  lemma ReadsChar4(cp: bv32, rest: seq<bv8>)
    requires 0xFFFF < cp <= 0x10FFFF
    ensures ReadChar(Utf4(cp) + rest) == Ok(cp, 4)
  {
    var s := Utf4(cp) + rest;
    assert s[0] == Utf4(cp)[0] && s[1] == Utf4(cp)[1] && s[2] == Utf4(cp)[2] && s[3] == Utf4(cp)[3];
    Char4(cp);
    Tail(cp);
    Char4Value(cp, Short(s[2], s[3]));
  }

  lemma ReadsChar1(cp: bv32, rest: seq<bv8>)
    requires cp <= 0x7F
    ensures ReadChar([Byte(cp)] + rest) == Ok(cp, 1)
  {
    Char1(cp);
  }

  /** Every code point comes back from the bytes written for it, whatever follows. */
  lemma CharRoundTrip(cp: bv32, rest: seq<bv8>)
    requires IsCodePoint(cp)
    ensures ReadChar(Utf8(cp) + rest) == Ok(cp, |Utf8(cp)|)
  {
    if cp <= 0x7F { ReadsChar1(cp, rest); }
    else if cp <= 0x7FF { ReadsChar2(cp, rest); }
    else if cp <= 0xFFFF { ReadsChar3(cp, rest); }
    else { ReadsChar4(cp, rest); }
  }

  // ---------- surrogates ----------

  predicate IsHighSurrogate(u: Unit) { 0xD800 <= u <= 0xDBFF }

  predicate IsLowSurrogate(u: Unit) { 0xDC00 <= u <= 0xDFFF }

  /** dx_surrogates_to_code_point */
  function PairPoint(high: Unit, low: Unit): bv32 {
    ((high as bv32 - 0xD800) << 10) + (low as bv32 - 0xDC00) + 0x1_0000
  }

  function ToUnit(x: bv32): Unit { (x & 0xFFFF) as bv16 }

  /** dx_code_point_to_surrogates */
  function HighOf(cp: bv32): Unit { ToUnit(((cp - 0x1_0000) >> 10) + 0xD800) }

  function LowOf(cp: bv32): Unit { ToUnit(((cp - 0x1_0000) & 0x3FF) + 0xDC00) }

  lemma PairIsPoint(high: Unit, low: Unit)
    requires IsHighSurrogate(high) && IsLowSurrogate(low)
    ensures 0xFFFF < PairPoint(high, low) <= 0x10FFFF
  {}

  lemma PairComesBack(high: Unit, low: Unit)
    requires IsHighSurrogate(high) && IsLowSurrogate(low)
    ensures HighOf(PairPoint(high, low)) == high && LowOf(PairPoint(high, low)) == low
  {}

  lemma FirstIsPoint(s: Units)
    requires s != []
    ensures IsCodePoint(FirstPoint(s))
    ensures FirstPoint(s) > 0xFFFF <==> StartsWithPair(s)
  {
    if StartsWithPair(s) { PairIsPoint(s[0], s[1]); } else { UnitIsPoint(s[0]); }
  }

  lemma UnitIsPoint(u: Unit)
    ensures u as bv32 <= 0xFFFF && ToUnit(u as bv32) == u
  {}

  // ---------- strings ----------

  predicate StartsWithPair(s: Units) {
    |s| > 1 && IsHighSurrogate(s[0]) && IsLowSurrogate(s[1])
  }

  /** The code point a string starts with: that of a surrogate pair, or of one unit. */
  function FirstPoint(s: Units): bv32
    requires s != []
  {
    if StartsWithPair(s) then PairPoint(s[0], s[1]) else s[0] as bv32
  }

  function Width(s: Units): (k: nat)
    requires s != []
    ensures 1 <= k <= |s|
  {
    if StartsWithPair(s) then 2 else 1
  }

  /** The bytes dx_write_utf_string writes after the length. */
  function Utf8String(s: Units): seq<bv8> {
    if s == [] then [] else (FirstIsPoint(s); Utf8(FirstPoint(s)) + Utf8String(s[Width(s)..]))
  }

  /** What dx_read_utf_sequence makes of the bytes ahead when `left` bytes are still to come and the
      units `acc` have been read. */
  function ReadUnits(s: seq<bv8>, left: int, acc: Units, used: nat): Read<Units>
    decreases |s|
  {
    if left < 0 then Malformed(used)
    else if left == 0 then Ok(acc, used)
    else if |s| < 1 then Underflow(used)
    else
      var n := Length(s[0]);
      match ReadRest(s, n)
      case Underflow(k) => Underflow(used + k)
      case Malformed(k) => Malformed(used + k)
      case Ok(cp, k) =>
        if n < 4 then ReadUnits(s[k..], left - n, acc + [ToUnit(cp)], used + k)
        else if cp < 0x1_0000 then
          if left - 4 - |acc| < 1 then Malformed(used + 4)
          else ReadUnits(s[k..], left - 4, acc + [ToUnit(cp)], used + k)
        else if left - 4 - |acc| < 2 then Malformed(used + 4)
        else ReadUnits(s[k..], left - 4, acc + [HighOf(cp), LowOf(cp)], used + k)
  }

  /** At every surrogate pair the bytes still to come after it are at least two more than the units
      before it: the reader takes the former for the size of the buffer of the latter. */
  predicate PairsFit(s: Units, before: nat) {
    if s == [] then true
    else if StartsWithPair(s) then |Utf8String(s[2..])| - before >= 2 && PairsFit(s[2..], before + 2)
    else PairsFit(s[1..], before + 1)
  }

  lemma LengthOfUtf8(cp: bv32)
    requires IsCodePoint(cp)
    ensures Length(Utf8(cp)[0]) == |Utf8(cp)| && (|Utf8(cp)| == 4 <==> cp > 0xFFFF)
  {
    if cp <= 0x7F { Char1(cp); } else if cp <= 0x7FF { Char2(cp); }
    else if cp <= 0xFFFF { Char3(cp); } else { Char4(cp); }
  }

  /** How one character is read. */
  lemma ReadsFirst(cp: bv32, tail: seq<bv8>)
    requires IsCodePoint(cp)
    ensures var s := Utf8(cp) + tail;
            Length(s[0]) == |Utf8(cp)| && ReadRest(s, |Utf8(cp)|) == Ok(cp, |Utf8(cp)|) && s[|Utf8(cp)|..] == tail
  {
    LengthOfUtf8(cp);
    CharRoundTrip(cp, tail);
    assert (Utf8(cp) + tail)[0] == Utf8(cp)[0];
  }

  /** The units a code point is read as. */
  function UnitsOf(cp: bv32): Units {
    if cp <= 0xFFFF then [ToUnit(cp)] else [HighOf(cp), LowOf(cp)]
  }

  lemma ReadsPoint(cp: bv32, tail: seq<bv8>, left: int, acc: Units, used: nat)
    requires IsCodePoint(cp) && left >= |Utf8(cp)|
    ensures var n := |Utf8(cp)|;
            ReadUnits(Utf8(cp) + tail, left, acc, used) ==
            if cp > 0xFFFF && left - n - |acc| < 2 then Malformed(used + 4)
            else ReadUnits(tail, left - n, acc + UnitsOf(cp), used + n)
  {
    ReadsFirst(cp, tail);
    LengthOfUtf8(cp);
  }

  lemma UnitsOfFirst(s: Units)
    requires s != []
    ensures UnitsOf(FirstPoint(s)) == s[..Width(s)]
  {
    FirstIsPoint(s);
    if StartsWithPair(s) { PairComesBack(s[0], s[1]); } else { UnitIsPoint(s[0]); }
  }

  /** One round of reading a string, and what it says about its pairs. */
  lemma ReadsFirstUnits(s: Units, rest: seq<bv8>, acc: Units, used: nat) returns (n: nat, cut: bool)
    requires s != []
    ensures var k, left := Width(s), |Utf8String(s)|;
            && left == n + |Utf8String(s[k..])|
            && (PairsFit(s, |acc|) <==> !cut && PairsFit(s[k..], |acc| + k))
            && ReadUnits(Utf8String(s) + rest, left, acc, used) ==
               if cut then Malformed(used + 4)
               else ReadUnits(Utf8String(s[k..]) + rest, |Utf8String(s[k..])|, acc + s[..k], used + n)
  {
    hide ReadUnits, Utf8, UnitsOf, FirstPoint, IsHighSurrogate, IsLowSurrogate;
    var cp, k := FirstPoint(s), Width(s);
    var tail := Utf8String(s[k..]);
    FirstIsPoint(s);
    UnitsOfFirst(s);
    n := |Utf8(cp)|;
    cut := StartsWithPair(s) && |tail| - |acc| < 2;
    assert Utf8String(s) + rest == Utf8(cp) + (tail + rest);
    ReadsPoint(cp, tail + rest, |Utf8String(s)|, acc, used);
  }

  lemma EmptyString(rest: seq<bv8>, acc: Units, used: nat)
    ensures Utf8String([]) == [] && PairsFit([], |acc|)
    ensures ReadUnits([] + rest, 0, acc, used) == Ok(acc, used)
  {}

  lemma {:induction false} UnitsComeBack(s: Units, rest: seq<bv8>, acc: Units, used: nat)
    requires PairsFit(s, |acc|)
    ensures ReadUnits(Utf8String(s) + rest, |Utf8String(s)|, acc, used) == Ok(acc + s, used + |Utf8String(s)|)
    decreases |s|
  {
    hide *;
    if s == [] {
      EmptyString(rest, acc, used);
      assert acc + s == acc;
    } else {
      var k := Width(s);
      var n, cut := ReadsFirstUnits(s, rest, acc, used);
      UnitsComeBack(s[k..], rest, acc + s[..k], used + n);
      Rejoin(acc, s, k);
    }
  }

  lemma {:induction false} UnitsFail(s: Units, rest: seq<bv8>, acc: Units, used: nat)
    requires !PairsFit(s, |acc|)
    ensures ReadUnits(Utf8String(s) + rest, |Utf8String(s)|, acc, used).Malformed?
    decreases |s|
  {
    hide *;
    if s == [] {
      EmptyString(rest, acc, used);
    } else {
      var k := Width(s);
      var n, cut := ReadsFirstUnits(s, rest, acc, used);
      if !cut {
        UnitsFail(s[k..], rest, acc + s[..k], used + n);
      }
    }
  }

  /** A string comes back from its bytes exactly when all its surrogate pairs fit. */
  lemma UnitsRoundTrip(s: Units, rest: seq<bv8>)
    ensures var r := ReadUnits(Utf8String(s) + rest, |Utf8String(s)|, [], 0);
            if PairsFit(s, 0) then r == Ok(s, |Utf8String(s)|) else r.Malformed?
  {
    hide *;
    if PairsFit(s, 0) { UnitsComeBack(s, rest, [], 0); assert [] + s == s; } else { UnitsFail(s, rest, [], 0); }
  }

  lemma Rejoin<T>(acc: seq<T>, s: seq<T>, k: nat)
    requires k <= |s|
    ensures acc + s[..k] + s[k..] == acc + s
  {
    assert s[..k] + s[k..] == s;
  }

  ghost predicate NoPairs(s: Units) {
    forall i :: 0 <= i < |s| - 1 ==> !(IsHighSurrogate(s[i]) && IsLowSurrogate(s[i + 1]))
  }

  lemma {:induction false} NoPairsFit(s: Units, before: nat)
    requires NoPairs(s)
    ensures PairsFit(s, before)
  {
    if s != [] {
      assert forall i :: 0 <= i < |s[1..]| ==> s[1..][i] == s[i + 1];
      NoPairsFit(s[1..], before + 1);
    }
  }

  /** A string that is one surrogate pair does not come back. */
  lemma LonePairFails()
    ensures !PairsFit([0xD83D, 0xDE00], 0)
  {
    assert [0xD83D as bv16, 0xDE00][2..] == [];
  }

  // ---------- strings with their length ----------

  /** The bytes dx_write_utf_string writes. */
  function StringBytes(value: Nullable<Units>): seq<bv8> {
    match value
    case Null => CompactInt(-1)
    case Some(s) => CompactInt(Bits(|Utf8String(s)|)) + Utf8String(s)
  }

  /** What dx_read_utf_string makes of the bytes ahead. */
  function ReadString(s: seq<bv8>): Read<Nullable<Units>> {
    LongWithin(s);
    match ReadLong(s)
    case Underflow(k) => Underflow(k)
    case Malformed(k) => Malformed(k)
    case Ok(length, k) =>
      if Less64(length, -1) || Less64(0x7FFF_FFFF, length) then Malformed(k)
      else if length == -1 then Ok(Null, k)
      else
        match ReadUnits(s[k..], ToLength(Low(length)), [], k)
        case Underflow(n) => Underflow(n)
        case Malformed(n) => Malformed(n)
        case Ok(units, n) => Ok(Some(units), n)
  }

  predicate Restorable(value: Nullable<Units>) {
    value.Some? ==> PairsFit(value.value, 0)
  }

  lemma {:induction false} ReadUnitsShifted(s: seq<bv8>, left: int, acc: Units, used: nat, more: nat)
    ensures ReadUnits(s, left, acc, used + more) ==
            match ReadUnits(s, left, acc, used)
            case Underflow(n) => Underflow(n + more)
            case Malformed(n) => Malformed(n + more)
            case Ok(units, n) => Ok(units, n + more)
    decreases |s|
  {
    hide ReadRest, Length, ToUnit, HighOf, LowOf;
    if left > 0 && |s| > 0 {
      var n := Length(s[0]);
      var first := ReadRest(s, n);
      if first.Ok? {
        var cp, k := first.value, first.used;
        if n < 4 {
          ReadUnitsShifted(s[k..], left - n, acc + [ToUnit(cp)], used + k, more);
        } else if cp < 0x1_0000 {
          ReadUnitsShifted(s[k..], left - 4, acc + [ToUnit(cp)], used + k, more);
        } else {
          ReadUnitsShifted(s[k..], left - 4, acc + [HighOf(cp), LowOf(cp)], used + k, more);
        }
      }
    }
  }

  lemma SmallIsNotLost(v: bv32)
    requires !Negative(v)
    ensures !LosesSign(Widen(v)) && !Less64(Widen(v), -1) && !Less64(0x7FFF_FFFF, Widen(v)) && Widen(v) != -1
  {}

  lemma ReadsLength(n: nat, rest: seq<bv8>)
    requires n <= INT_MAX
    ensures ReadLong(CompactInt(Bits(n)) + rest) == Ok(Widen(Bits(n)), |CompactInt(Bits(n))|)
    ensures !Less64(Widen(Bits(n)), -1) && !Less64(0x7FFF_FFFF, Widen(Bits(n))) && Widen(Bits(n)) != -1
    ensures ToLength(Low(Widen(Bits(n)))) == n
  {
    BitsNotNegative(n);
    SmallIsNotLost(Bits(n));
    WidenedLow(Bits(n));
    LengthRoundTrip(n);
    LongRoundTripOfInt(Bits(n), rest);
  }

  lemma LongRoundTripOfInt(v: bv32, rest: seq<bv8>)
    requires !LosesSign(Widen(v))
    ensures ReadLong(CompactInt(v) + rest) == Ok(Widen(v), |CompactInt(v)|)
  {
    IntReadAsLong(v, rest);
  }

  lemma ReadsNull(rest: seq<bv8>)
    ensures ReadString(CompactInt(-1) + rest) == Ok(Null, |CompactInt(-1)|)
  {
    MinusOne();
    LongRoundTripOfInt(-1, rest);
  }

  lemma MinusOne()
    ensures !LosesSign(Widen(-1)) && Widen(-1) == -1 && !Less64(-1, -1) && !Less64(0x7FFF_FFFF, -1)
  {}

  /** NULL and every string whose surrogate pairs fit comes back from its bytes; no other string does. */
  lemma StringRoundTrip(value: Nullable<Units>, rest: seq<bv8>)
    requires value.Some? ==> |Utf8String(value.value)| <= INT_MAX
    ensures var r := ReadString(StringBytes(value) + rest);
            if Restorable(value) then r == Ok(value, |StringBytes(value)|) else r.Malformed?
  {
    hide *;
    match value {
      case Null => NullRoundTrip(rest);
      case Some(s) => SomeRoundTrip(s, rest);
    }
  }

  lemma NullRoundTrip(rest: seq<bv8>)
    ensures ReadString(StringBytes(Null) + rest) == Ok(Null, |StringBytes(Null)|) && Restorable(Null)
  {
    ReadsNull(rest);
  }

  lemma ReadsSome(s: Units, rest: seq<bv8>)
    requires |Utf8String(s)| <= INT_MAX
    ensures var head := CompactInt(Bits(|Utf8String(s)|));
            ReadString(StringBytes(Some(s)) + rest) ==
            match ReadUnits(Utf8String(s) + rest, |Utf8String(s)|, [], |head|)
            case Underflow(n) => Underflow(n)
            case Malformed(n) => Malformed(n)
            case Ok(units, n) => Ok(Some(units), n)
  {
    hide ReadLong, CompactInt, Utf8String, ReadUnits, Bits, ToLength, Low, Less64, Widen;
    var n, tail := |Utf8String(s)|, Utf8String(s) + rest;
    var head := CompactInt(Bits(n));
    ReadsLength(n, tail);
    assert StringBytes(Some(s)) + rest == head + tail;
    assert (head + tail)[|head|..] == tail;
  }

  lemma SomeIs(s: Units)
    ensures Restorable(Some(s)) <==> PairsFit(s, 0)
    ensures |StringBytes(Some(s))| == |CompactInt(Bits(|Utf8String(s)|))| + |Utf8String(s)|
  {}

  lemma SomeRoundTrip(s: Units, rest: seq<bv8>)
    requires |Utf8String(s)| <= INT_MAX
    ensures var r := ReadString(StringBytes(Some(s)) + rest);
            if Restorable(Some(s)) then r == Ok(Some(s), |StringBytes(Some(s))|) else r.Malformed?
  {
    hide *;
    SomeIs(s);
    ReadsSome(s, rest);
    UnitsRoundTrip(s, rest);
    ReadUnitsShifted(Utf8String(s) + rest, |Utf8String(s)|, [], 0, |CompactInt(Bits(|Utf8String(s)|))|);
  }

  // ---------- what is refused ----------

  predicate IsTail(b: bv8) { b & 0xC0 == 0x80 }

  /** A character, said of the bits of its bytes: the first byte tells how many follow, each of these is
      a tail, and the code point is at most 0x10FFFF. */
  predicate StartsWithChar(s: seq<bv8>) {
    s != [] &&
    (|| s[0] & 0x80 == 0
     || (s[0] & 0xE0 == 0xC0 && |s| >= 2 && IsTail(s[1]))
     || (s[0] & 0xF0 == 0xE0 && |s| >= 3 && IsTail(s[1]) && IsTail(s[2]))
     || (s[0] & 0xF8 == 0xF0 && |s| >= 4 && IsTail(s[1]) && IsTail(s[2]) && IsTail(s[3])
         && (s[0] & 0x07 < 4 || (s[0] & 0x07 == 4 && s[1] & 0x30 == 0))))
  }

  /** The first byte announces more bytes than are there. */
  predicate CutShort(s: seq<bv8>) {
    || s == []
    || (s[0] & 0xE0 == 0xC0 && |s| < 2) || (s[0] & 0xF0 == 0xE0 && |s| < 3) || (s[0] & 0xF8 == 0xF0 && |s| < 4)
  }

  lemma TailsAre(a: bv8, b: bv8)
    ensures TailContinues(Short(a, b)) <==> IsTail(a) && IsTail(b)
    ensures Continues(a) <==> IsTail(a)
  {}

  lemma LengthsAre(a: bv8)
    ensures Length(a) == 1 <==> a & 0x80 == 0
    ensures Length(a) == 2 <==> a & 0xE0 == 0xC0
    ensures Length(a) == 3 <==> a & 0xF0 == 0xE0
    ensures Length(a) == 4 <==> a & 0xF8 == 0xF0
    ensures Length(a) <= 4
  {}

  lemma WithinRange(a: bv8, b: bv8, tail: bv32)
    requires IsTail(b)
    ensures Point4(a, b, tail) <= 0x10FFFF <==> a & 0x07 < 4 || (a & 0x07 == 4 && b & 0x30 == 0)
  {}

  /** The reader takes exactly the characters, and otherwise tells those cut short from all that is bad. */
  lemma CharsExactly(s: seq<bv8>)
    ensures ReadChar(s).Ok? <==> StartsWithChar(s)
    ensures ReadChar(s).Underflow? <==> CutShort(s)
  {
    hide Length, Continues, TailContinues, Short, Point2, Point3, Point4, Unsigned, IsTail;
    if s != [] {
      LengthsAre(s[0]);
      if |s| > 1 { TailsAre(s[1], s[1]); }
      if |s| > 2 { TailsAre(s[1], s[2]); }
      if |s| > 3 {
        TailsAre(s[2], s[3]);
        if IsTail(s[1]) { WithinRange(s[0], s[1], Short(s[2], s[3])); }
      }
    }
  }

  lemma {:induction false} UnitsNeedAll(s: seq<bv8>, left: int, acc: Units, used: nat)
    ensures ReadUnits(s, left, acc, used).Ok? ==>
              0 <= left <= |s| && ReadUnits(s, left, acc, used).used == used + left
    decreases |s|
  {
    hide ReadRest, ToUnit, HighOf, LowOf;
    if left > 0 && |s| > 0 {
      var n := Length(s[0]);
      var first := ReadRest(s, n);
      if first.Ok? {
        var cp, k := first.value, first.used;
        RestTakes(s, n);
        if n < 4 {
          UnitsNeedAll(s[k..], left - n, acc + [ToUnit(cp)], used + k);
        } else if cp < 0x1_0000 {
          UnitsNeedAll(s[k..], left - 4, acc + [ToUnit(cp)], used + k);
        } else {
          UnitsNeedAll(s[k..], left - 4, acc + [HighOf(cp), LowOf(cp)], used + k);
        }
      }
    }
  }

  lemma RestTakes(s: seq<bv8>, n: nat)
    requires s != [] && ReadRest(s, n).Ok?
    ensures ReadRest(s, n).used == n && 1 <= n <= 4
  {
    hide Continues, TailContinues, Short, Point2, Point3, Point4, Unsigned;
  }

  lemma NothingRead(p: seq<bv8>)
    requires ReadLong(p).Underflow?
    ensures ReadString(p).Underflow?
  {}

  /** As long as a byte of a string is missing, it is not read. */
  lemma StringPrefixFails(value: Nullable<Units>, n: nat)
    requires n < |StringBytes(value)| && (value.Some? ==> |Utf8String(value.value)| <= INT_MAX)
    ensures !ReadString(StringBytes(value)[..n]).Ok?
  {
    hide ReadString, ReadLong, CompactInt, Utf8String, Bits;
    match value
    case Null =>
      IntPrefixUnderflows(-1, n);
      NothingRead(CompactInt(-1)[..n]);
    case Some(s) =>
      var head, tail := CompactInt(Bits(|Utf8String(s)|)), Utf8String(s);
      if n < |head| {
        assert (head + tail)[..n] == head[..n];
        IntPrefixUnderflows(Bits(|tail|), n);
        NothingRead(head[..n]);
      } else {
        assert (head + tail)[..n] == head + tail[..n - |head|];
        UnitsMissing(|tail|, tail[..n - |head|]);
      }
  }

  lemma UnitsMissing(n: nat, rest: seq<bv8>)
    requires |rest| < n <= INT_MAX
    ensures !ReadString(CompactInt(Bits(n)) + rest).Ok?
  {
    hide ReadLong, CompactInt, ReadUnits, Bits, ToLength, Low, Less64, Widen;
    var head := CompactInt(Bits(n));
    ReadsLength(n, rest);
    assert (head + rest)[|head|..] == rest;
    UnitsNeedAll(rest, n, [], |head|);
  }

  // ---------- the wire in figures ----------

  /** The first and last code points of every form */
  lemma CharsOnTheWire()
    ensures Utf8(0x7F) == [0x7F] && Utf8(0x80) == [0xC2, 0x80] && Utf8(0x7FF) == [0xDF, 0xBF]
    ensures Utf8(0x800) == [0xE0, 0xA0, 0x80] && Utf8(0xFFFF) == [0xEF, 0xBF, 0xBF]
    ensures Utf8(0x1_0000) == [0xF0, 0x90, 0x80, 0x80] && Utf8(0x10_FFFF) == [0xF4, 0x8F, 0xBF, 0xBF]
  {}

  /** And the same of surrogate pairs */
  lemma PairsInFigures()
    ensures PairPoint(0xD800, 0xDC00) == 0x1_0000 && PairPoint(0xDBFF, 0xDFFF) == 0x10_FFFF
    ensures PairPoint(0xD83D, 0xDE00) == 0x1_F600
  {}

  /** Six bits tell a surrogate and its kind. */
  lemma SurrogatesAre(u: Unit)
    ensures IsHighSurrogate(u) <==> u & 0xFC00 == 0xD800
    ensures IsLowSurrogate(u) <==> u & 0xFC00 == 0xDC00
  {}

  /** Two bytes as a signed number: the unsigned one, its upper half filled by its sign */
  lemma ShortsAre(a: bv8, b: bv8)
    ensures a < 0x80 ==> Short(a, b) == UnsignedShort(a, b)
    ensures a >= 0x80 ==> Short(a, b) == 0xFFFF_0000 | UnsignedShort(a, b)
  {}

  /** A length of -1 is NULL, every other one that is no C int of at least zero is refused. */
  lemma BadLengthIsRefused(s: seq<bv8>)
    requires ReadLong(s).Ok?
    ensures var r := ReadLong(s);
            && (ReadString(s) == Ok(Null, r.used) <==> r.value == 0xFFFF_FFFF_FFFF_FFFF)
            && (r.value != 0xFFFF_FFFF_FFFF_FFFF && r.value & 0xFFFF_FFFF_8000_0000 != 0 ==>
                  ReadString(s) == Malformed(r.used))
  {
    hide ReadLong, ToLength, Low, Less64, ReadUnits;
    BadLengths(ReadLong(s).value);
  }

  lemma BadLengths(length: bv64)
    ensures length != -1 ==>
              (Less64(length, -1) || Less64(0x7FFF_FFFF, length) <==> length & 0xFFFF_FFFF_8000_0000 != 0)
    ensures length == -1 ==> !Less64(length, -1) && !Less64(0x7FFF_FFFF, length)
  {}
}
