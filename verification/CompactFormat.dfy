/** The compact number format of the wire protocol, on values: C integers are bit vectors of their
    width, in two's complement. */
module CompactFormat {

  // ---------- C operations ----------

  predicate Negative(x: bv32) { x & 0x8000_0000 != 0 }

  predicate Negative64(x: bv64) { x & 0x8000_0000_0000_0000 != 0 }

  /** Signed comparison */
  predicate Less(x: bv32, y: bv32) { x ^ 0x8000_0000 < y ^ 0x8000_0000 }

  predicate Less64(x: bv64, y: bv64) { x ^ 0x8000_0000_0000_0000 < y ^ 0x8000_0000_0000_0000 }

  /** Signed shift to the right */
  function Sar(x: bv32, k: bv6): bv32
    requires k < 32
  {
    if Negative(x) then !(!x >> k) else x >> k
  }

  /** Conversions to narrower types drop the high bits, conversions to wider types repeat the sign. */
  function Byte(x: bv32): bv8 { (x & 0xFF) as bv8 }

  function Unsigned(b: bv8): bv32 { b as bv32 }

  function Signed(b: bv8): bv32 {
    if b & 0x80 != 0 then 0xFFFF_FF00 | b as bv32 else b as bv32
  }

  function Low(x: bv64): bv32 { (x & 0xFFFF_FFFF) as bv32 }

  function High(x: bv64): bv32 { (x >> 32) as bv32 }

  function Widen(x: bv32): bv64 {
    if Negative(x) then 0xFFFF_FFFF_0000_0000 | x as bv64 else x as bv64
  }

  // ---------- writing ----------

  /** dx_write_int_unchecked */
  function IntBytes(x: bv32): seq<bv8> {
    [Byte(Sar(x, 24)), Byte(Sar(x, 16)), Byte(Sar(x, 8)), Byte(x)]
  }

  /** The bytes dx_write_compact_int writes. */
  function CompactInt(v: bv32): seq<bv8> {
    if !Negative(v) then
      if Less(v, 0x40) then [Byte(v)]
      else if Less(v, 0x2000) then [Byte(0x80 | Sar(v, 8)), Byte(v)]
      else if Less(v, 0x10_0000) then [Byte(0xC0 | Sar(v, 16)), Byte(Sar(v, 8)), Byte(v)]
      else if Less(v, 0x0800_0000) then IntBytes(0xE000_0000 | v)
      else [0xF0] + IntBytes(v)
    else
      if !Less(v, -0x40) then [Byte(0x7F & v)]
      else if !Less(v, -0x2000) then [Byte(0xBF & Sar(v, 8)), Byte(v)]
      else if !Less(v, -0x10_0000) then [Byte(0xDF & Sar(v, 16)), Byte(Sar(v, 8)), Byte(v)]
      else if !Less(v, -0x0800_0000) then IntBytes(0xEFFF_FFFF & v)
      else [0xF7] + IntBytes(v)
  }

  /** The bytes dx_write_compact_long writes before the low half of a number that needs more than
      32 bits. */
  function HighBytes(hi: bv32): seq<bv8> {
    if !Negative(hi) then
      if Less(hi, 0x04) then [Byte(0xF0 | hi)]
      else if Less(hi, 0x0200) then [Byte(0xF8 | Sar(hi, 8)), Byte(hi)]
      else if Less(hi, 0x01_0000) then [0xFC, Byte(Sar(hi, 8)), Byte(hi)]
      else if Less(hi, 0x80_0000) then IntBytes(0xFE00_0000 | hi)
      else [0xFF] + IntBytes(hi)
    else
      if !Less(hi, -0x04) then [Byte(0xF7 & hi)]
      else if !Less(hi, -0x0200) then [Byte(0xFB & Sar(hi, 8)), Byte(hi)]
      else if !Less(hi, -0x01_0000) then [0xFD, Byte(Sar(hi, 8)), Byte(hi)]
      else if !Less(hi, -0x80_0000) then IntBytes(0xFEFF_FFFF & hi)
      else [0xFF] + IntBytes(hi)
  }

  /** The bytes dx_write_compact_long writes. */
  function CompactLong(v: bv64): seq<bv8> {
    if v == Widen(Low(v)) then CompactInt(Low(v)) else HighBytes(High(v)) + IntBytes(Low(v))
  }

  /** dx_get_compact_size */
  function CompactSize(v: bv64): nat {
    if !Negative64(v) then
      if Less64(v, 0x40) then 1
      else if Less64(v, 0x2000) then 2
      else if Less64(v, 0x10_0000) then 3
      else if Less64(v, 0x0800_0000) then 4
      else if Less64(v, 0x04_0000_0000) then 5
      else if Less64(v, 0x0200_0000_0000) then 6
      else if Less64(v, 0x01_0000_0000_0000) then 7
      else if Less64(v, 0x80_0000_0000_0000) then 8
      else 9
    else
      if !Less64(v, -0x40) then 1
      else if !Less64(v, -0x2000) then 2
      else if !Less64(v, -0x10_0000) then 3
      else if !Less64(v, -0x0800_0000) then 4
      else if !Less64(v, -0x04_0000_0000) then 5
      else if !Less64(v, -0x0200_0000_0000) then 6
      else if !Less64(v, -0x01_0000_0000_0000) then 7
      else if !Less64(v, -0x80_0000_0000_0000) then 8
      else 9
  }

  // ---------- reading ----------

  /** The outcome of reading from the bytes ahead; `used` of them are consumed either way. */
  datatype Read<T> = Ok(value: T, used: nat) | Underflow(used: nat) | Malformed(used: nat)

  function UnsignedShort(a: bv8, b: bv8): bv32 {
    (Unsigned(a) << 8) | Unsigned(b)
  }

  function IntOf(a: bv8, b: bv8, c: bv8, d: bv8): bv32 {
    (Unsigned(a) << 24) | (Unsigned(b) << 16) | (Unsigned(c) << 8) | Unsigned(d)
  }

  /** The values of the short forms; shifting up and back repeats the sign. */
  function Int1(a: bv8): bv32 { Sar(Unsigned(a) << 25, 25) }

  function Int2(a: bv8, b: bv8): bv32 { Sar(((Unsigned(a) << 8) | Unsigned(b)) << 18, 18) }

  function Int3(a: bv8, b: bv8, c: bv8): bv32 { Sar(((Unsigned(a) << 16) | UnsignedShort(b, c)) << 11, 11) }

  function Int4(a: bv8, b: bv8, c: bv8, d: bv8): bv32 {
    Sar(((Unsigned(a) << 24) | (Unsigned(b) << 16) | UnsignedShort(c, d)) << 4, 4)
  }

  /** The two-byte form with an unsigned value shifted back, which does not repeat the sign. */
  function Unsigned2(a: bv8, b: bv8): bv32 { (((Unsigned(a) << 8) | Unsigned(b)) << 18) >> 18 }

  /** dx_read_int at place `k` of the bytes ahead */
  function IntAt(s: seq<bv8>, k: nat): Read<bv32>
    requires k <= |s|
  {
    if |s| < k + 4 then Underflow(k) else Ok(IntOf(s[k], s[k + 1], s[k + 2], s[k + 3]), k + 4)
  }

  /** How many bytes dx_read_compact_int skips after a first byte that announces a longer number. */
  function Skips(n: bv32): nat {
    if n & 8 == 0 then 0 else if n & 4 == 0 then 1 else if n & 2 == 0 then 2 else if n & 1 == 0 then 3 else 4
  }

  /** What dx_read_compact_int makes of the bytes ahead. */
  function ReadInt(s: seq<bv8>): Read<bv32> {
    if |s| < 1 then Underflow(0)
    else
      var n := Unsigned(s[0]);
      if n < 0x80 then Ok(Int1(s[0]), 1)
      else if n < 0xC0 then if |s| < 2 then Underflow(1) else Ok(Int2(s[0], s[1]), 2)
      else if n < 0xE0 then if |s| < 3 then Underflow(1) else Ok(Int3(s[0], s[1], s[2]), 3)
      else if n < 0xF0 then
        if |s| < 2 then Underflow(1)
        else if |s| < 4 then Underflow(2)
        else Ok(Int4(s[0], s[1], s[2], s[3]), 4)
      else IntAt(s, if |s| < 1 + Skips(n) then |s| else 1 + Skips(n))
  }

  /** The values of the short forms of a high half. */
  function High1(a: bv8): bv32 { Sar(Unsigned(a) << 29, 29) }

  function High2(a: bv8, b: bv8): bv32 { Sar(((Unsigned(a) << 8) | Unsigned(b)) << 22, 22) }

  function High3(a: bv8, b: bv8, c: bv8): bv32 { Sar(((Unsigned(a) << 16) | UnsignedShort(b, c)) << 15, 15) }

  function High4(b: bv8, c: bv8, d: bv8): bv32 { (Signed(b) << 16) | UnsignedShort(c, d) }

  /** The high half of a long number, from its first byte on. */
  function ReadHigh(s: seq<bv8>): Read<bv32>
    requires |s| > 0
  {
    var n := Unsigned(s[0]);
    if n < 0xF8 then Ok(High1(s[0]), 1)
    else if n < 0xFC then if |s| < 2 then Underflow(1) else Ok(High2(s[0], s[1]), 2)
    else if n < 0xFE then if |s| < 3 then Underflow(1) else Ok(High3(s[0], s[1], s[2]), 3)
    else if n < 0xFF then
      if |s| < 2 then Underflow(1)
      else if |s| < 4 then Underflow(2)
      else Ok(High4(s[1], s[2], s[3]), 4)
    else IntAt(s, 1)
  }

  function Joined(hi: bv32, lo: bv32): bv64 {
    (Widen(hi) << 32) | lo as bv64
  }

  /** What dx_read_compact_long makes of the bytes ahead. */
  function ReadLong(s: seq<bv8>): Read<bv64> {
    if |s| < 1 then Underflow(0)
    else
      var n := Unsigned(s[0]);
      if n < 0x80 then Ok(Widen(Int1(s[0])), 1)
      else if n < 0xC0 then if |s| < 2 then Underflow(1) else Ok(Unsigned2(s[0], s[1]) as bv64, 2)
      else if n < 0xE0 then if |s| < 3 then Underflow(1) else Ok(Widen(Int3(s[0], s[1], s[2])), 3)
      else if n < 0xF0 then
        if |s| < 2 then Underflow(1)
        else if |s| < 4 then Underflow(2)
        else Ok(Widen(Int4(s[0], s[1], s[2], s[3])), 4)
      else
        var high := ReadHigh(s);
        if !high.Ok? then Underflow(high.used)
        else
          var low := IntAt(s, high.used);
          if !low.Ok? then Underflow(low.used) else Ok(Joined(high.value, low.value), low.used)
  }

  // ---------- what one branch of the int writer and the same branch of the readers do ----------

  /** `lo <= v < hi` */
  predicate Up(v: bv32, lo: bv32, hi: bv32) { !Negative(v) && !Less(v, lo) && Less(v, hi) }

  /** `-hi <= v < -lo` */
  predicate Down(v: bv32, lo: bv32, hi: bv32) { Negative(v) && Less(v, -lo) && !Less(v, -hi) }

  lemma Up1(v: bv32)
    requires !Negative(v) && Less(v, 0x40)
    ensures CompactInt(v) == [Byte(v)] && Unsigned(Byte(v)) < 0x80 && Int1(Byte(v)) == v
  {}

  lemma Down1(v: bv32)
    requires Negative(v) && !Less(v, -0x40)
    ensures var a := Byte(0x7F & v); CompactInt(v) == [a] && Unsigned(a) < 0x80 && Int1(a) == v
  {}

  lemma Up2(v: bv32)
    requires Up(v, 0x40, 0x2000)
    ensures var a := Byte(0x80 | Sar(v, 8));
            CompactInt(v) == [a, Byte(v)] && 0x80 <= Unsigned(a) < 0xC0 && Int2(a, Byte(v)) == v
  {}

  lemma Up2Unsigned(v: bv32)
    requires Up(v, 0x40, 0x2000)
    ensures Unsigned2(Byte(0x80 | Sar(v, 8)), Byte(v)) == v
  {}

  lemma Down2(v: bv32)
    requires Down(v, 0x40, 0x2000)
    ensures var a := Byte(0xBF & Sar(v, 8));
            CompactInt(v) == [a, Byte(v)] && 0x80 <= Unsigned(a) < 0xC0 && Int2(a, Byte(v)) == v
  {}

  lemma Down2Unsigned(v: bv32)
    requires Down(v, 0x40, 0x2000)
    ensures Unsigned2(Byte(0xBF & Sar(v, 8)), Byte(v)) == v & 0x3FFF
  {}

  lemma Up3(v: bv32)
    requires Up(v, 0x2000, 0x10_0000)
    ensures var (a, b, c) := (Byte(0xC0 | Sar(v, 16)), Byte(Sar(v, 8)), Byte(v));
            CompactInt(v) == [a, b, c] && 0xC0 <= Unsigned(a) < 0xE0 && Int3(a, b, c) == v
  {}

  lemma Down3(v: bv32)
    requires Down(v, 0x2000, 0x10_0000)
    ensures var (a, b, c) := (Byte(0xDF & Sar(v, 16)), Byte(Sar(v, 8)), Byte(v));
            CompactInt(v) == [a, b, c] && 0xC0 <= Unsigned(a) < 0xE0 && Int3(a, b, c) == v
  {}

  lemma Up4(v: bv32)
    requires Up(v, 0x10_0000, 0x0800_0000)
    ensures var w := 0xE000_0000 | v;
            var (a, b, c, d) := (Byte(Sar(w, 24)), Byte(Sar(w, 16)), Byte(Sar(w, 8)), Byte(w));
            CompactInt(v) == [a, b, c, d] && 0xE0 <= Unsigned(a) < 0xF0 && Int4(a, b, c, d) == v
  {}

  lemma Down4(v: bv32)
    requires Down(v, 0x10_0000, 0x0800_0000)
    ensures var w := 0xEFFF_FFFF & v;
            var (a, b, c, d) := (Byte(Sar(w, 24)), Byte(Sar(w, 16)), Byte(Sar(w, 8)), Byte(w));
            CompactInt(v) == [a, b, c, d] && 0xE0 <= Unsigned(a) < 0xF0 && Int4(a, b, c, d) == v
  {}

  lemma BytesOfUp(v: bv32)
    requires !Negative(v)
    ensures IntOf(Byte(Sar(v, 24)), Byte(Sar(v, 16)), Byte(Sar(v, 8)), Byte(v)) == v
  {}

  lemma BytesOfDown(v: bv32)
    requires Negative(v)
    ensures IntOf(Byte(Sar(v, 24)), Byte(Sar(v, 16)), Byte(Sar(v, 8)), Byte(v)) == v
  {}

  // ---------- the int writer and reader ----------

  /** `-m <= v < m` */
  predicate Within(v: bv32, m: bv32) { if Negative(v) then !Less(v, -m) else Less(v, m) }

  lemma OneByte(v: bv32)
    requires Within(v, 0x40)
    ensures var e := CompactInt(v); |e| == 1 && Unsigned(e[0]) < 0x80 && Int1(e[0]) == v
  {
    if Negative(v) { Down1(v); } else { Up1(v); }
  }

  lemma TwoBytes(v: bv32)
    requires Within(v, 0x2000) && !Within(v, 0x40)
    ensures var e := CompactInt(v); |e| == 2 && 0x80 <= Unsigned(e[0]) < 0xC0 && Int2(e[0], e[1]) == v
  {
    if Negative(v) { Down2(v); } else { Up2(v); }
  }

  lemma ThreeBytes(v: bv32)
    requires Within(v, 0x10_0000) && !Within(v, 0x2000)
    ensures var e := CompactInt(v); |e| == 3 && 0xC0 <= Unsigned(e[0]) < 0xE0 && Int3(e[0], e[1], e[2]) == v
  {
    if Negative(v) { Down3(v); } else { Up3(v); }
  }

  lemma FourBytes(v: bv32)
    requires Within(v, 0x0800_0000) && !Within(v, 0x10_0000)
    ensures var e := CompactInt(v); |e| == 4 && 0xE0 <= Unsigned(e[0]) < 0xF0 && Int4(e[0], e[1], e[2], e[3]) == v
  {
    if Negative(v) { Down4(v); } else { Up4(v); }
  }

  lemma BytesOfInt(v: bv32)
    ensures var e := IntBytes(v); IntOf(e[0], e[1], e[2], e[3]) == v
  {
    if Negative(v) { BytesOfDown(v); } else { BytesOfUp(v); }
  }

  lemma FiveBytes(v: bv32)
    requires !Within(v, 0x0800_0000)
    ensures var e := CompactInt(v);
            && |e| == 5 && e[0] == (if Negative(v) then 0xF7 else 0xF0) && e[1..] == IntBytes(v)
  {
    LargerBounds(v);
  }

  lemma LargerBounds(v: bv32)
    requires !Within(v, 0x0800_0000)
    ensures !Within(v, 0x10_0000) && !Within(v, 0x2000) && !Within(v, 0x40)
  {}

  lemma FirstOfFive(b: bv8)
    requires b == 0xF0 || b == 0xF7
    ensures Unsigned(b) >= 0xF0 && Skips(Unsigned(b)) == 0 && Unsigned(b) < 0xF8
    ensures High1(b) == if b == 0xF7 then 0xFFFF_FFFF else 0
  {}

  lemma IntAtBytes(a: seq<bv8>, v: bv32, rest: seq<bv8>)
    ensures IntAt(a + IntBytes(v) + rest, |a|) == Ok(v, |a| + 4)
  {
    BytesOfInt(v);
  }

  /** What the readers do, by the first byte. */
  lemma Reads1(e: seq<bv8>, rest: seq<bv8>)
    requires |e| == 1 && Unsigned(e[0]) < 0x80
    ensures ReadInt(e + rest) == Ok(Int1(e[0]), 1) && ReadLong(e + rest) == Ok(Widen(Int1(e[0])), 1)
  {}

  lemma Reads2(e: seq<bv8>, rest: seq<bv8>)
    requires |e| == 2 && 0x80 <= Unsigned(e[0]) < 0xC0
    ensures ReadInt(e + rest) == Ok(Int2(e[0], e[1]), 2)
    ensures ReadLong(e + rest) == Ok(Unsigned2(e[0], e[1]) as bv64, 2)
  {
    ReadsTwo(e + rest);
    assert (e + rest)[0] == e[0] && (e + rest)[1] == e[1];
  }

  lemma ReadsTwo(s: seq<bv8>)
    requires |s| >= 2 && 0x80 <= Unsigned(s[0]) < 0xC0
    ensures ReadInt(s) == Ok(Int2(s[0], s[1]), 2)
    ensures ReadLong(s) == Ok(Unsigned2(s[0], s[1]) as bv64, 2)
  {}

  lemma Reads3(e: seq<bv8>, rest: seq<bv8>)
    requires |e| == 3 && 0xC0 <= Unsigned(e[0]) < 0xE0
    ensures ReadInt(e + rest) == Ok(Int3(e[0], e[1], e[2]), 3)
    ensures ReadLong(e + rest) == Ok(Widen(Int3(e[0], e[1], e[2])), 3)
  {
    assert (e + rest)[1] == e[1] && (e + rest)[2] == e[2];
  }

  lemma Reads4(e: seq<bv8>, rest: seq<bv8>)
    requires |e| == 4 && 0xE0 <= Unsigned(e[0]) < 0xF0
    ensures ReadInt(e + rest) == Ok(Int4(e[0], e[1], e[2], e[3]), 4)
    ensures ReadLong(e + rest) == Ok(Widen(Int4(e[0], e[1], e[2], e[3])), 4)
  {
    assert (e + rest)[1] == e[1] && (e + rest)[2] == e[2] && (e + rest)[3] == e[3];
  }

  lemma Reads5(v: bv32, rest: seq<bv8>)
    requires !Within(v, 0x0800_0000)
    ensures |CompactInt(v)| == 5 && ReadInt(CompactInt(v) + rest) == Ok(v, 5)
  {
    FiveBytes(v);
    var e := CompactInt(v);
    FirstOfFive(e[0]);
    assert e + rest == [e[0]] + IntBytes(v) + rest;
    IntAtBytes([e[0]], v, rest);
  }

  /** Reading a compact int gives back what was written, whatever follows. */
  lemma IntRoundTrip(v: bv32, rest: seq<bv8>)
    ensures ReadInt(CompactInt(v) + rest) == Ok(v, |CompactInt(v)|)
  {
    if Within(v, 0x40) { OneByte(v); Reads1(CompactInt(v), rest); }
    else if Within(v, 0x2000) { TwoBytes(v); Reads2(CompactInt(v), rest); }
    else if Within(v, 0x10_0000) { ThreeBytes(v); Reads3(CompactInt(v), rest); }
    else if Within(v, 0x0800_0000) { FourBytes(v); Reads4(CompactInt(v), rest); }
    else { Reads5(v, rest); }
  }

  // ---------- the long writer and readers ----------

  /** The numbers the two-byte form of the long reader gets wrong. */
  predicate LosesSign(v: bv64) { !Less64(v, -0x2000) && Less64(v, -0x40) }

  lemma WidenedLow(v: bv32)
    ensures Low(Widen(v)) == v
  {
    if Negative(v) { LowOfDown(v); } else { LowOfUp(v); }
  }

  lemma LowOfDown(v: bv32)
    ensures Low(0xFFFF_FFFF_0000_0000 | v as bv64) == v
  {}

  lemma LowOfUp(v: bv32)
    ensures Low(v as bv64) == v
  {}

  lemma WidenedLosesSign(v: bv32)
    ensures LosesSign(Widen(v)) <==> Negative(v) && Within(v, 0x2000) && !Within(v, 0x40)
  {}

  lemma SignLost(v: bv32)
    requires Negative(v) && Within(v, 0x2000)
    ensures (v & 0x3FFF) as bv64 == Widen(v) + 0x4000
  {}

  lemma JoinedDown(v: bv32)
    ensures Joined(0xFFFF_FFFF, v) == 0xFFFF_FFFF_0000_0000 | v as bv64
  {}

  lemma JoinedUp(v: bv32)
    ensures Joined(0, v) == v as bv64
  {}

  lemma Reads5Long(v: bv32, rest: seq<bv8>)
    requires !Within(v, 0x0800_0000)
    ensures |CompactInt(v)| == 5 && ReadLong(CompactInt(v) + rest) == Ok(Widen(v), 5)
  {
    FiveBytes(v);
    var e := CompactInt(v);
    FirstOfFive(e[0]);
    assert e + rest == [e[0]] + IntBytes(v) + rest;
    IntAtBytes([e[0]], v, rest);
    JoinedUp(v);
    JoinedDown(v);
  }

  /** What the two-byte form comes back as when read as a long number. */
  function AsTwoByteLong(v: bv32): bv64 {
    if Negative(v) then Widen(v) + 0x4000 else Widen(v)
  }

  lemma Up2Long(v: bv32)
    requires Up(v, 0x40, 0x2000)
    ensures Unsigned2(Byte(0x80 | Sar(v, 8)), Byte(v)) as bv64 == AsTwoByteLong(v)
  {
    Up2Unsigned(v);
  }

  lemma Down2Long(v: bv32)
    requires Down(v, 0x40, 0x2000)
    ensures Unsigned2(Byte(0xBF & Sar(v, 8)), Byte(v)) as bv64 == AsTwoByteLong(v)
  {
    Down2Unsigned(v);
    SignLost(v);
  }

  predicate IsTwoByteForm(e: seq<bv8>, w: bv64) {
    |e| == 2 && 0x80 <= Unsigned(e[0]) < 0xC0 && Unsigned2(e[0], e[1]) as bv64 == w
  }

  lemma TwoByteForm(v: bv32)
    requires Within(v, 0x2000) && !Within(v, 0x40)
    ensures IsTwoByteForm(CompactInt(v), AsTwoByteLong(v))
  {
    if Negative(v) { Down2(v); Down2Long(v); } else { Up2(v); Up2Long(v); }
  }

  lemma ReadsTwoByteForm(e: seq<bv8>, w: bv64, rest: seq<bv8>)
    requires IsTwoByteForm(e, w)
    ensures ReadLong(e + rest) == Ok(w, 2)
  {
    Reads2(e, rest);
  }

  lemma Reads2Long(v: bv32, rest: seq<bv8>)
    requires Within(v, 0x2000) && !Within(v, 0x40)
    ensures |CompactInt(v)| == 2 && ReadLong(CompactInt(v) + rest) == Ok(AsTwoByteLong(v), 2)
  {
    TwoByteForm(v);
    ReadsTwoByteForm(CompactInt(v), AsTwoByteLong(v), rest);
  }

  lemma IntReadAsLong(v: bv32, rest: seq<bv8>)
    ensures ReadLong(CompactInt(v) + rest) ==
            Ok(if LosesSign(Widen(v)) then Widen(v) + 0x4000 else Widen(v), |CompactInt(v)|)
  {
    WidenedLosesSign(v);
    if Within(v, 0x40) { OneByte(v); Reads1(CompactInt(v), rest); }
    else if Within(v, 0x2000) { Reads2Long(v, rest); }
    else if Within(v, 0x10_0000) { ThreeBytes(v); Reads3(CompactInt(v), rest); }
    else if Within(v, 0x0800_0000) { FourBytes(v); Reads4(CompactInt(v), rest); }
    else { Reads5Long(v, rest); }
  }

  // ---------- one branch of the writer of the high half ----------

  lemma HighUp1(hi: bv32)
    requires !Negative(hi) && Less(hi, 0x04)
    ensures var a := Byte(0xF0 | hi);
            HighBytes(hi) == [a] && 0xF0 <= Unsigned(a) < 0xF8 && Skips(Unsigned(a)) == 0 && High1(a) == hi
  {}

  lemma HighDown1(hi: bv32)
    requires Negative(hi) && !Less(hi, -0x04)
    ensures var a := Byte(0xF7 & hi);
            HighBytes(hi) == [a] && 0xF0 <= Unsigned(a) < 0xF8 && Skips(Unsigned(a)) == 0 && High1(a) == hi
  {}

  lemma HighUp2(hi: bv32)
    requires Up(hi, 0x04, 0x0200)
    ensures var a := Byte(0xF8 | Sar(hi, 8));
            && HighBytes(hi) == [a, Byte(hi)] && 0xF8 <= Unsigned(a) < 0xFC && Skips(Unsigned(a)) == 1
            && High2(a, Byte(hi)) == hi
  {}

  lemma HighDown2(hi: bv32)
    requires Down(hi, 0x04, 0x0200)
    ensures var a := Byte(0xFB & Sar(hi, 8));
            && HighBytes(hi) == [a, Byte(hi)] && 0xF8 <= Unsigned(a) < 0xFC && Skips(Unsigned(a)) == 1
            && High2(a, Byte(hi)) == hi
  {}

  lemma HighUp3(hi: bv32)
    requires Up(hi, 0x0200, 0x01_0000)
    ensures HighBytes(hi) == [0xFC, Byte(Sar(hi, 8)), Byte(hi)]
  {}

  lemma HighUp3Value(hi: bv32)
    requires Up(hi, 0x0200, 0x01_0000)
    ensures High3(0xFC, Byte(Sar(hi, 8)), Byte(hi)) == hi
  {}

  lemma HighDown3(hi: bv32)
    requires Down(hi, 0x0200, 0x01_0000)
    ensures HighBytes(hi) == [0xFD, Byte(Sar(hi, 8)), Byte(hi)]
  {}

  lemma HighDown3Value(hi: bv32)
    requires Down(hi, 0x0200, 0x01_0000)
    ensures High3(0xFD, Byte(Sar(hi, 8)), Byte(hi)) == hi
  {}

  lemma HighUp4(hi: bv32)
    requires Up(hi, 0x01_0000, 0x80_0000)
    ensures var w := 0xFE00_0000 | hi;
            && HighBytes(hi) == IntBytes(w) && Byte(Sar(w, 24)) == 0xFE
            && High4(Byte(Sar(w, 16)), Byte(Sar(w, 8)), Byte(w)) == hi
  {}

  lemma HighDown4(hi: bv32)
    requires Down(hi, 0x01_0000, 0x80_0000)
    ensures var w := 0xFEFF_FFFF & hi;
            && HighBytes(hi) == IntBytes(w) && Byte(Sar(w, 24)) == 0xFE
            && High4(Byte(Sar(w, 16)), Byte(Sar(w, 8)), Byte(w)) == hi
  {}

  lemma HighFive(hi: bv32)
    requires !Within(hi, 0x80_0000)
    ensures HighBytes(hi) == [0xFF] + IntBytes(hi)
  {
    LargerHighBounds(hi);
  }

  lemma LargerHighBounds(hi: bv32)
    requires !Within(hi, 0x80_0000)
    ensures !Within(hi, 0x01_0000) && !Within(hi, 0x0200) && !Within(hi, 0x04)
  {}

  lemma FixedSkips()
    ensures Skips(Unsigned(0xFC)) == Skips(Unsigned(0xFD)) == 2
    ensures Skips(Unsigned(0xFE)) == 3 && Skips(Unsigned(0xFF)) == 4
  {}

  /** The high half is read back from its `|e|` bytes, and the int reader skips as many. */
  ghost predicate IsHighForm(e: seq<bv8>, hi: bv32) {
    && |e| > 0 && Unsigned(e[0]) >= 0xF0 && 1 + Skips(Unsigned(e[0])) == |e|
    && forall rest :: ReadHigh(e + rest) == Ok(hi, |e|)
  }

  lemma IsHighForm1(a: bv8, hi: bv32)
    requires 0xF0 <= Unsigned(a) < 0xF8 && Skips(Unsigned(a)) == 0 && High1(a) == hi
    ensures IsHighForm([a], hi)
  {}

  lemma IsHighForm2(a: bv8, b: bv8, hi: bv32)
    requires 0xF8 <= Unsigned(a) < 0xFC && Skips(Unsigned(a)) == 1 && High2(a, b) == hi
    ensures IsHighForm([a, b], hi)
  {}

  lemma IsHighForm3(a: bv8, b: bv8, c: bv8, hi: bv32)
    requires (a == 0xFC || a == 0xFD) && High3(a, b, c) == hi
    ensures IsHighForm([a, b, c], hi)
  {
    FixedSkips();
  }

  lemma IsHighForm4(b: bv8, c: bv8, d: bv8, hi: bv32)
    requires High4(b, c, d) == hi
    ensures IsHighForm([0xFE, b, c, d], hi)
  {
    FixedSkips();
  }

  lemma IsHighForm5(hi: bv32)
    ensures IsHighForm([0xFF] + IntBytes(hi), hi)
  {
    FixedSkips();
    var e := [0xFF] + IntBytes(hi);
    forall rest ensures ReadHigh(e + rest) == Ok(hi, 5) {
      IntAtBytes([0xFF], hi, rest);
      assert e + rest == [0xFF] + IntBytes(hi) + rest;
    }
  }

  lemma HighRoundTrip(hi: bv32)
    ensures IsHighForm(HighBytes(hi), hi)
  {
    if Within(hi, 0x04) { HighForm1(hi); }
    else if Within(hi, 0x0200) { HighForm2(hi); }
    else if Within(hi, 0x01_0000) { HighForm3(hi); }
    else if Within(hi, 0x80_0000) { HighForm4(hi); }
    else { HighFive(hi); IsHighForm5(hi); }
  }

  lemma HighForm1(hi: bv32)
    requires Within(hi, 0x04)
    ensures IsHighForm(HighBytes(hi), hi) && |HighBytes(hi)| == 1
  {
    if Negative(hi) {
      HighDown1(hi); IsHighForm1(Byte(0xF7 & hi), hi);
    } else {
      HighUp1(hi); IsHighForm1(Byte(0xF0 | hi), hi);
    }
  }

  lemma HighForm2(hi: bv32)
    requires Within(hi, 0x0200) && !Within(hi, 0x04)
    ensures IsHighForm(HighBytes(hi), hi) && |HighBytes(hi)| == 2
  {
    if Negative(hi) {
      HighDown2(hi); IsHighForm2(Byte(0xFB & Sar(hi, 8)), Byte(hi), hi);
    } else {
      HighUp2(hi); IsHighForm2(Byte(0xF8 | Sar(hi, 8)), Byte(hi), hi);
    }
  }

  lemma HighForm3(hi: bv32)
    requires Within(hi, 0x01_0000) && !Within(hi, 0x0200)
    ensures IsHighForm(HighBytes(hi), hi) && |HighBytes(hi)| == 3
  {
    if Negative(hi) { HighDown3(hi); HighDown3Value(hi); } else { HighUp3(hi); HighUp3Value(hi); }
    IsHighForm3(if Negative(hi) then 0xFD else 0xFC, Byte(Sar(hi, 8)), Byte(hi), hi);
  }

  lemma HighForm4(hi: bv32)
    requires Within(hi, 0x80_0000) && !Within(hi, 0x01_0000)
    ensures IsHighForm(HighBytes(hi), hi) && |HighBytes(hi)| == 4
  {
    if Negative(hi) { HighDown4(hi); } else { HighUp4(hi); }
    var w := if Negative(hi) then 0xFEFF_FFFF & hi else 0xFE00_0000 | hi;
    IsHighForm4(Byte(Sar(w, 16)), Byte(Sar(w, 8)), Byte(w), hi);
  }

  // ---------- whole long numbers ----------

  lemma WidenedShift(hi: bv32)
    ensures Widen(hi) << 32 == (hi as bv64) << 32
  {
    if Negative(hi) {
      assert Widen(hi) == 0xFFFF_FFFF_0000_0000 | hi as bv64;
      WidenedShiftDown(hi);
    } else {
      assert Widen(hi) == hi as bv64;
    }
  }

  lemma WidenedShiftDown(hi: bv32)
    ensures (0xFFFF_FFFF_0000_0000 | hi as bv64) << 32 == (hi as bv64) << 32
  {}

  lemma HalvesJoin(v: bv64)
    ensures Joined(High(v), Low(v)) == v
  {
    WidenedShift(High(v));
    HalvesMeet(v);
  }

  lemma HalvesMeet(v: bv64)
    ensures ((High(v) as bv64) << 32) | Low(v) as bv64 == v
  {}

  lemma LosesSignIsInt(v: bv64)
    requires LosesSign(v)
    ensures v == Widen(Low(v))
  {}

  lemma LongOfHalves(h: seq<bv8>, hi: bv32, lo: bv32, rest: seq<bv8>)
    requires IsHighForm(h, hi)
    ensures ReadLong(h + IntBytes(lo) + rest) == Ok(Joined(hi, lo), |h| + 4)
  {
    var s := h + IntBytes(lo) + rest;
    assert s == h + (IntBytes(lo) + rest);
    assert ReadHigh(s) == Ok(hi, |h|);
    IntAtBytes(h, lo, rest);
    assert s[0] == h[0];
    LongFromHigh(s);
  }

  lemma LongFromHigh(s: seq<bv8>)
    requires |s| > 0 && Unsigned(s[0]) >= 0xF0 && ReadHigh(s).Ok? && ReadHigh(s).used <= |s|
    requires IntAt(s, ReadHigh(s).used).Ok?
    ensures ReadLong(s) == Ok(Joined(ReadHigh(s).value, IntAt(s, ReadHigh(s).used).value),
                              IntAt(s, ReadHigh(s).used).used)
  {}

  lemma IntOfHalves(h: seq<bv8>, hi: bv32, lo: bv32, rest: seq<bv8>)
    requires IsHighForm(h, hi)
    ensures ReadInt(h + IntBytes(lo) + rest) == Ok(lo, |h| + 4)
  {
    var s := h + IntBytes(lo) + rest;
    IntAtBytes(h, lo, rest);
    assert s[0] == h[0];
  }

  lemma ReadsHalves(hi: bv32, lo: bv32, rest: seq<bv8>)
    ensures var n := |HighBytes(hi)| + 4;
            var s := HighBytes(hi) + IntBytes(lo) + rest;
            ReadLong(s) == Ok(Joined(hi, lo), n) && ReadInt(s) == Ok(lo, n)
  {
    HighRoundTrip(hi);
    LongOfHalves(HighBytes(hi), hi, lo, rest);
    IntOfHalves(HighBytes(hi), hi, lo, rest);
  }

  lemma LongForm(v: bv64)
    ensures CompactLong(v) == if v == Widen(Low(v)) then CompactInt(Low(v)) else HighBytes(High(v)) + IntBytes(Low(v))
    ensures |IntBytes(Low(v))| == 4
  {}

  /** Reading a compact long consumes what was written, and gives it back except for the numbers
      from -0x2000 up to -0x41, which come back as numbers 0x4000 larger. */
  lemma LongRoundTrip(v: bv64, rest: seq<bv8>)
    ensures ReadLong(CompactLong(v) + rest) == Ok(if LosesSign(v) then v + 0x4000 else v, |CompactLong(v)|)
  {
    hide *;
    LongForm(v);
    if v == Widen(Low(v)) {
      IntReadAsLong(Low(v), rest);
    } else {
      if LosesSign(v) { LosesSignIsInt(v); }
      HalvesJoin(v);
      ReadsHalves(High(v), Low(v), rest);
    }
  }

  /** The round trip of a long fails for exactly those numbers. */
  lemma LongRoundTripExactly(v: bv64, rest: seq<bv8>)
    ensures ReadLong(CompactLong(v) + rest) == Ok(v, |CompactLong(v)|) <==> !LosesSign(v)
  {
    LongRoundTrip(v, rest);
    OtherNumber(v);
  }

  lemma OtherNumber(v: bv64)
    ensures v + 0x4000 != v
  {}

  /** -100 comes back as 16284. */
  lemma LongRoundTripFails()
    ensures ReadLong(CompactLong(-100)) == Ok(16284, |CompactLong(-100)|)
  {
    LongRoundTrip(-100, []);
    assert CompactLong(-100) + [] == CompactLong(-100);
  }

  /** The int reader reads a long number entirely and keeps its low 32 bits. */
  lemma LongReadAsInt(v: bv64, rest: seq<bv8>)
    ensures ReadInt(CompactLong(v) + rest) == Ok(Low(v), |CompactLong(v)|)
  {
    hide *;
    LongForm(v);
    if v == Widen(Low(v)) {
      IntRoundTrip(Low(v), rest);
    } else {
      ReadsHalves(High(v), Low(v), rest);
    }
  }

  // ---------- sizes ----------

  /** `-m <= v < m` */
  predicate Within64(v: bv64, m: bv64) { if Negative64(v) then !Less64(v, -m) else Less64(v, m) }

  lemma WithinWidened(v: bv32)
    ensures Within64(Widen(v), 0x40) <==> Within(v, 0x40)
    ensures Within64(Widen(v), 0x2000) <==> Within(v, 0x2000)
    ensures Within64(Widen(v), 0x10_0000) <==> Within(v, 0x10_0000)
    ensures Within64(Widen(v), 0x0800_0000) <==> Within(v, 0x0800_0000)
  {}

  lemma WithinInt(v: bv64)
    requires v == Widen(Low(v))
    ensures Within64(v, 0x04_0000_0000)
  {}

  lemma NotWithinInt(v: bv64)
    requires v != Widen(Low(v))
    ensures !Within64(v, 0x40) && !Within64(v, 0x2000) && !Within64(v, 0x10_0000) && !Within64(v, 0x0800_0000)
  {
    if Within64(v, 0x0800_0000) {
      if Negative64(v) { SmallDownIsInt(v); } else { SmallUpIsInt(v); }
    }
    LargerBounds64(v);
  }

  lemma SmallUpIsInt(v: bv64)
    requires !Negative64(v) && Less64(v, 0x0800_0000)
    ensures v == Widen(Low(v))
  {}

  lemma SmallDownIsInt(v: bv64)
    requires Negative64(v) && !Less64(v, -0x0800_0000)
    ensures v == Widen(Low(v))
  {}

  lemma LargerBounds64(v: bv64)
    ensures Within64(v, 0x40) ==> Within64(v, 0x2000)
    ensures Within64(v, 0x2000) ==> Within64(v, 0x10_0000)
    ensures Within64(v, 0x10_0000) ==> Within64(v, 0x0800_0000)
  {}

  lemma WithinHigh(v: bv64)
    ensures Within64(v, 0x04_0000_0000) <==> Within(High(v), 0x04)
    ensures Within64(v, 0x0200_0000_0000) <==> Within(High(v), 0x0200)
    ensures Within64(v, 0x01_0000_0000_0000) <==> Within(High(v), 0x01_0000)
    ensures Within64(v, 0x80_0000_0000_0000) <==> Within(High(v), 0x80_0000)
  {}

  /** The size as a table of ranges */
  function SizeTable(v: bv64): nat {
    if Within64(v, 0x40) then 1 else if Within64(v, 0x2000) then 2 else if Within64(v, 0x10_0000) then 3
    else if Within64(v, 0x0800_0000) then 4 else if Within64(v, 0x04_0000_0000) then 5
    else if Within64(v, 0x0200_0000_0000) then 6 else if Within64(v, 0x01_0000_0000_0000) then 7
    else if Within64(v, 0x80_0000_0000_0000) then 8 else 9
  }

  lemma SizeByRangeUp(v: bv64)
    requires !Negative64(v)
    ensures CompactSize(v) == SizeTable(v)
  {}

  lemma SizeByRangeDown(v: bv64)
    requires Negative64(v)
    ensures CompactSize(v) == SizeTable(v)
  {}

  lemma IntLength(v: bv32)
    ensures |CompactInt(v)| == if Within(v, 0x40) then 1 else if Within(v, 0x2000) then 2
                               else if Within(v, 0x10_0000) then 3 else if Within(v, 0x0800_0000) then 4 else 5
  {
    if !Within(v, 0x0800_0000) { FiveBytes(v); LargerBounds(v); }
  }

  lemma HighLength(hi: bv32)
    ensures |HighBytes(hi)| == if Within(hi, 0x04) then 1 else if Within(hi, 0x0200) then 2
                               else if Within(hi, 0x01_0000) then 3 else if Within(hi, 0x80_0000) then 4 else 5
  {
    if !Within(hi, 0x80_0000) { HighFive(hi); LargerHighBounds(hi); }
  }

  lemma IntSize(v: bv64)
    requires v == Widen(Low(v))
    ensures SizeTable(v) == |CompactInt(Low(v))|
  {
    WithinWidened(Low(v));
    WithinInt(v);
    IntLength(Low(v));
  }

  lemma LongSize(v: bv64)
    requires v != Widen(Low(v))
    ensures SizeTable(v) == |HighBytes(High(v))| + 4
  {
    NotWithinInt(v);
    WithinHigh(v);
    HighLength(High(v));
  }

  /** dx_get_compact_size is the number of bytes written. */
  lemma SizeIsWritten(v: bv64)
    ensures |CompactLong(v)| == CompactSize(v)
  {
    if Negative64(v) { SizeByRangeDown(v); } else { SizeByRangeUp(v); }
    if v == Widen(Low(v)) { IntSize(v); } else { LongSize(v); }
  }

  lemma SizeOfWidened(v: bv32)
    ensures 1 <= |CompactInt(v)| == CompactSize(Widen(v)) <= 5
  {
    WidenedLow(v);
    SizeIsWritten(Widen(v));
    IntLength(v);
  }

  // ---------- numbers that have not fully arrived ----------

  lemma IntWithin(s: seq<bv8>)
    ensures ReadInt(s).Ok? ==> 1 <= ReadInt(s).used <= |s|
  {
    hide Int1, Int2, Int3, Int4, IntOf, Skips;
  }

  lemma LongWithin(s: seq<bv8>)
    ensures ReadLong(s).Ok? ==> 1 <= ReadLong(s).used <= |s|
  {
    hide Widen, Joined, Int1, Unsigned2, Int3, Int4, IntOf, High1, High2, High3, High4;
  }

  lemma IntAtNeedsAll(s: seq<bv8>, k: nat, n: nat)
    requires k <= n < |s| && IntAt(s, k).Ok? && n < IntAt(s, k).used
    ensures IntAt(s[..n], k) == Underflow(k)
  {}

  /** What an int reader accepts it does not accept before the last of its bytes has arrived. */
  lemma IntNeedsAll(s: seq<bv8>, n: nat)
    requires ReadInt(s).Ok? && n < ReadInt(s).used
    ensures n < |s| && ReadInt(s[..n]).Underflow? && ReadInt(s[..n]).used <= n
  {
    hide Int1, Int2, Int3, Int4, IntOf, Skips, Unsigned;
    IntWithin(s);
    if n > 0 { assert s[..n][0] == s[0]; }
  }

  lemma HighWithin(s: seq<bv8>)
    requires s != []
    ensures 1 <= ReadHigh(s).used <= |s|
  {
    hide High1, High2, High3, High4, IntOf;
  }

  lemma HighNeedsAll(s: seq<bv8>, n: nat)
    requires s != [] && ReadHigh(s).Ok? && 0 < n < ReadHigh(s).used
    ensures n < |s| && ReadHigh(s[..n]).Underflow? && ReadHigh(s[..n]).used <= n
  {
    hide High1, High2, High3, High4, IntOf, Unsigned;
    HighWithin(s);
    assert s[..n][0] == s[0];
  }

  lemma HighStays(s: seq<bv8>, n: nat)
    requires s != [] && ReadHigh(s).Ok? && ReadHigh(s).used <= n <= |s|
    ensures ReadHigh(s[..n]) == ReadHigh(s)
  {
    hide High1, High2, High3, High4, Unsigned;
    HighWithin(s);
    assert s[..n][0] == s[0];
  }

  /** The same for the long reader */
  lemma LongNeedsAll(s: seq<bv8>, n: nat)
    requires ReadLong(s).Ok? && n < ReadLong(s).used
    ensures n < |s| && ReadLong(s[..n]).Underflow? && ReadLong(s[..n]).used <= n
  {
    hide Widen, Joined, Int1, Unsigned2, Int3, Int4, ReadHigh, IntAt, Unsigned;
    LongWithin(s);
    if n > 0 {
      assert s[..n][0] == s[0];
      if Unsigned(s[0]) >= 0xF0 { HalvesNeedAll(s, n); }
    }
  }

  lemma HalvesNeedAll(s: seq<bv8>, n: nat)
    requires s != [] && Unsigned(s[0]) >= 0xF0 && ReadLong(s).Ok? && 0 < n < ReadLong(s).used <= |s|
    ensures ReadLong(s[..n]).Underflow? && ReadLong(s[..n]).used <= n
  {
    hide Widen, Joined, Int1, Unsigned2, Int3, Int4, ReadHigh, Unsigned, IntOf;
    HighWithin(s);
    assert s[..n][0] == s[0];
    if n < ReadHigh(s).used {
      HighNeedsAll(s, n);
    } else {
      HighStays(s, n);
      IntAtNeedsAll(s, ReadHigh(s).used, n);
    }
  }

  /** Of a number that was written, neither reader makes anything until all of it has arrived. */
  lemma IntPrefixUnderflows(v: bv32, n: nat)
    requires n < |CompactInt(v)|
    ensures ReadInt(CompactInt(v)[..n]).Underflow? && ReadLong(CompactInt(v)[..n]).Underflow?
  {
    hide CompactInt, ReadInt, ReadLong;
    var s := CompactInt(v);
    assert s + [] == s;
    IntRoundTrip(v, []);
    IntReadAsLong(v, []);
    IntNeedsAll(s, n);
    LongNeedsAll(s, n);
  }

  lemma LongPrefixUnderflows(v: bv64, n: nat)
    requires n < |CompactLong(v)|
    ensures ReadInt(CompactLong(v)[..n]).Underflow? && ReadLong(CompactLong(v)[..n]).Underflow?
  {
    hide CompactLong, ReadInt, ReadLong;
    var s := CompactLong(v);
    assert s + [] == s;
    LongRoundTrip(v, []);
    LongReadAsInt(v, []);
    IntNeedsAll(s, n);
    LongNeedsAll(s, n);
  }

  // ---------- the wire in figures ----------

  /** The first and last numbers of every form, and -1 */
  lemma IntsOnTheWire()
    ensures CompactInt(0) == [0x00] && CompactInt(0x3F) == [0x3F]
    ensures CompactInt(0x40) == [0x80, 0x40] && CompactInt(0x1FFF) == [0x9F, 0xFF]
    ensures CompactInt(0x2000) == [0xC0, 0x20, 0x00] && CompactInt(0x0F_FFFF) == [0xCF, 0xFF, 0xFF]
    ensures CompactInt(0x10_0000) == [0xE0, 0x10, 0x00, 0x00] && CompactInt(0x07FF_FFFF) == [0xE7, 0xFF, 0xFF, 0xFF]
    ensures CompactInt(0x0800_0000) == [0xF0, 0x08, 0x00, 0x00, 0x00]
    ensures CompactInt(-1) == [0x7F] && CompactInt(-0x40) == [0x40] && CompactInt(-0x41) == [0xBF, 0xBF]
    ensures CompactInt(-0x2000) == [0xA0, 0x00] && CompactInt(-0x2001) == [0xDF, 0xDF, 0xFF]
    ensures CompactInt(-0x10_0000) == [0xD0, 0x00, 0x00] && CompactInt(-0x10_0001) == [0xEF, 0xEF, 0xFF, 0xFF]
    ensures CompactInt(-0x0800_0000) == [0xE8, 0x00, 0x00, 0x00]
    ensures CompactInt(-0x0800_0001) == [0xF7, 0xF7, 0xFF, 0xFF, 0xFF]
  {}

  lemma LongsOnTheWire()
    ensures CompactLong(0x8000_0000) == [0xF0, 0x80, 0x00, 0x00, 0x00]
    ensures CompactLong(0x03_FFFF_FFFF) == [0xF3, 0xFF, 0xFF, 0xFF, 0xFF]
    ensures CompactLong(0x04_0000_0000) == [0xF8, 0x04, 0x00, 0x00, 0x00, 0x00]
    ensures CompactLong(0x0200_0000_0000) == [0xFC, 0x02, 0x00, 0x00, 0x00, 0x00, 0x00]
  {}

  lemma LongestOnTheWire()
    ensures CompactLong(0x01_0000_0000_0000) == [0xFE, 0x01, 0x00, 0x00, 0x00, 0x00, 0x00, 0x00]
    ensures CompactLong(0x80_0000_0000_0000) == [0xFF, 0x00, 0x80, 0x00, 0x00, 0x00, 0x00, 0x00, 0x00]
    ensures CompactLong(-0x80_0000_0000_0001) == [0xFF, 0xFF, 0x7F, 0xFF, 0xFF, 0xFF, 0xFF, 0xFF, 0xFF]
  {}

  lemma NegativesOnTheWire()
    ensures CompactLong(-0x8000_0001) == [0xF7, 0x7F, 0xFF, 0xFF, 0xFF]
    ensures CompactLong(-0x04_0000_0001) == [0xFB, 0xFB, 0xFF, 0xFF, 0xFF, 0xFF]
    ensures CompactLong(-0x0200_0000_0001) == [0xFD, 0xFD, 0xFF, 0xFF, 0xFF, 0xFF, 0xFF]
    ensures CompactLong(-0x01_0000_0000_0001) == [0xFE, 0xFE, 0xFF, 0xFF, 0xFF, 0xFF, 0xFF, 0xFF]
  {}

  // ---------- bytes behind a number do not matter ----------

  lemma IntStays(s: seq<bv8>, n: nat)
    requires ReadInt(s).Ok? && ReadInt(s).used <= n <= |s|
    ensures ReadInt(s[..n]) == ReadInt(s)
  {
    hide Int1, Int2, Int3, Int4, IntOf, Skips, Unsigned;
    IntWithin(s);
    assert s[..n][0] == s[0];
  }

  lemma LongStays(s: seq<bv8>, n: nat)
    requires ReadLong(s).Ok? && ReadLong(s).used <= n <= |s|
    ensures ReadLong(s[..n]) == ReadLong(s)
  {
    hide Widen, Joined, Int1, Unsigned2, Int3, Int4, ReadHigh, Unsigned, IntOf;
    LongWithin(s);
    assert s[..n][0] == s[0];
    if Unsigned(s[0]) >= 0xF0 {
      HighWithin(s);
      HighStays(s, n);
    }
  }
}
