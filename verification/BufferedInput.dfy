/** The input buffer of a connection and its readers. */
module BufferedInput {
  import opened CompactFormat
  import opened Lengths
  import opened Pointers
  import opened Utf8Format

  class InBuffer {
    var buffer: array?<bv8>
    var pos: nat

    ghost predicate Valid()
      reads this
    {
      buffer != null ==> pos <= buffer.Length <= INT_MAX
    }

    /** The bytes still to be read */
    ghost function Rest(): seq<bv8>
      reads this, buffer
      requires Valid()
    {
      if buffer == null then [] else buffer[..][pos..]
    }

    /** What a reader returns and where it leaves the position, by what its format makes of bytes that
        begin `begun` before the position; without a buffer every read fails. */
    twostate predicate Follows<T>(ok: bool, new value: T, new expected: Read<T>, begun: nat)
      reads this
    {
      && Valid()
      && (ok <==> buffer != null && expected.Ok?)
      && (ok ==> value == expected.value)
      && pos + begun == if buffer == null then old(pos) + begun else old(pos) + expected.used
    }

    /** dx_set_in_buffer and the position set to its start */
    constructor (bytes: seq<bv8>)
      requires |bytes| <= INT_MAX
      ensures Valid() && buffer != null && fresh(buffer) && Rest() == bytes
    {
      buffer, pos := new bv8[|bytes|](i requires 0 <= i < |bytes| => bytes[i]), 0;
      new;
      assert buffer[..] == bytes;
    }

    /** dx_validate_buffer_and_value, whose `value` is never NULL here */
    method Validate(n: nat) returns (ok: bool)
      requires Valid()
      ensures ok <==> buffer != null && n <= |Rest()|
    {
      if buffer == null {
        return false;
      }
      return pos + n <= buffer.Length;
    }

    /** The byte at the position, which moves on. */
    method Next() returns (b: bv8)
      requires Valid() && buffer != null && pos < buffer.Length
      modifies this`pos
      ensures Valid() && pos == old(pos) + 1 && b == old(Rest())[0]
      ensures Rest() == old(Rest())[1..]
    {
      b := buffer[pos];
      pos := pos + 1;
    }

    /** dx_move_buffer_pos: not beyond either end; what could not be moved is returned. */
    method MovePos(offset: int) returns (left: int)
      requires Valid() && buffer != null
      modifies this`pos
      ensures Valid()
      ensures pos == if old(pos) + offset < 0 then 0
                     else if old(pos) + offset > buffer.Length then buffer.Length else old(pos) + offset
      ensures left == offset - (pos - old(pos))
    {
      var actual: int :=
        if offset > 0 then if offset < buffer.Length - pos then offset else buffer.Length - pos
        else if offset > -(pos as int) then offset else -(pos as int);
      pos := pos + actual;
      return offset - actual;
    }

    /** dx_read_byte */
    method ReadByte() returns (ok: bool, value: bv8)
      requires Valid()
      modifies this`pos
      ensures Follows(ok, value, ByteAt(old(Rest())), 0)
    {
      value := 0;
      ok := Validate(1);
      if ok {
        value := Next();
      }
    }

    /** dx_read_short */
    method ReadShort() returns (ok: bool, value: bv32)
      requires Valid()
      modifies this`pos
      ensures Follows(ok, value, ShortAt(old(Rest())), 0)
    {
      value := 0;
      ok := Validate(2);
      if ok {
        var high := Next();
        var low := Next();
        value := Short(high, low);
      }
    }

    /** dx_read_unsigned_short */
    method ReadUnsignedShort() returns (ok: bool, value: bv32)
      requires Valid()
      modifies this`pos
      ensures Follows(ok, value, UnsignedShortAt(old(Rest())), 0)
    {
      value := 0;
      ok := Validate(2);
      if ok {
        var high := Next();
        var low := Next();
        value := UnsignedShort(high, low);
      }
    }

    /** dx_read_int */
    method ReadInt32() returns (ok: bool, value: bv32)
      requires Valid()
      modifies this`pos
      ensures Follows(ok, value, IntAt(old(Rest()), 0), 0)
    {
      hide IntOf;
      value := 0;
      ok := Validate(4);
      if ok {
        var a := Next();
        var b := Next();
        var c := Next();
        var d := Next();
        value := IntOf(a, b, c, d);
      }
    }

    /** The loop of dx_read_compact_int that skips the extra bytes of a long number: one for each
        leading bit after the first four. */
    method SkipExtra(first: bv32)
      requires Valid() && buffer != null
      modifies this`pos
      ensures Valid()
      ensures pos == if old(pos) + Skips(first) < buffer.Length then old(pos) + Skips(first) else buffer.Length
    {
      hide Skips, Shifted;
      ghost var skipped: nat := 0;
      FirstShift(first);
      var n := first << 1;
      while n & 0x10 != 0
        invariant Valid() && skipped <= Skips(first) <= 4 && Shifted(n, first, skipped)
        invariant pos == if old(pos) + skipped < buffer.Length then old(pos) + skipped else buffer.Length
        decreases 4 - skipped
      {
        NextShift(n, first, skipped);
        var left := MovePos(1);
        skipped := skipped + 1;
        n := n << 1;
      }
      LastShift(n, first, skipped);
    }

    /** The two reads of the four-byte form, after its first byte */
    method ReadByteAndShort() returns (ok: bool, value: (bv8, bv32))
      requires Valid()
      modifies this`pos
      ensures Follows(ok, value, ByteAndShortAt(old(Rest())), 0)
    {
      hide UnsignedShort;
      value := (0, 0);
      var b, c;
      ok, b := ReadByte();
      if ok {
        ok, c := ReadUnsignedShort();
        value := (b, c);
      }
    }

    /** dx_read_compact_int */
    method ReadCompactInt() returns (ok: bool, value: bv32)
      requires Valid()
      modifies this`pos
      ensures Follows(ok, value, ReadInt(old(Rest())), 0)
    {
      hide ReadInt, Int1, Int2, Joined3, Joined4, UnsignedShort, IntAt, Skips, Unsigned, ByteAndShortAt;
      ghost var s := Rest();
      IntAhead(s);
      value := 0;
      var a, b, c, d;
      ok, a := ReadByte();
      if !ok {
        return;
      }
      assert Rest() == s[1..];
      var n := Unsigned(a);
      if n < 0x80 {
        value := Int1(a);
      } else if n < 0xC0 {
        ok, b := ReadByte();
        value := Int2(a, b);
      } else if n < 0xE0 {
        ok, c := ReadUnsignedShort();
        value := Joined3(n, c);
      } else if n < 0xF0 {
        ok, d := ReadByteAndShort();
        value := Joined4(n, d);
      } else {
        SkipExtra(n);
        ok, value := ReadInt32();
      }
    }

    /** The branches of dx_read_compact_long for the high half, after its first byte */
    method ReadHighHalf(a: bv8, ghost s: seq<bv8>) returns (ok: bool, value: bv32)
      requires Valid() && buffer != null && s == [a] + Rest()
      modifies this`pos
      ensures Follows(ok, value, ReadHigh(s), 1)
      ensures ok ==> ReadHigh(s).used <= |s| && Rest() == s[ReadHigh(s).used..]
    {
      hide ReadHigh, High1, High2, JoinedHigh3, JoinedHigh4, UnsignedShort, IntAt, Unsigned;
      HighAhead(s);
      assert Rest() == s[1..];
      ok, value := true, 0;
      var n := Unsigned(a);
      var b, c, d;
      if n < 0xF8 {
        value := High1(a);
      } else if n < 0xFC {
        ok, b := ReadByte();
        value := High2(a, b);
      } else if n < 0xFE {
        ok, c := ReadUnsignedShort();
        value := JoinedHigh3(n, c);
      } else if n < 0xFF {
        ok, d := ReadByteAndShort();
        value := JoinedHigh4(d);
      } else {
        ok, value := ReadInt32();
      }
      Dropped(a, old(Rest()), pos - old(pos) + 1);
    }

    /** The last branch of dx_read_compact_long, after the first byte: two halves */
    method ReadLongHalves(a: bv8, ghost s: seq<bv8>) returns (ok: bool, value: bv64)
      requires Valid() && buffer != null && Unsigned(a) >= 0xF0 && s == [a] + Rest()
      modifies this`pos
      ensures Follows(ok, value, ReadLong(s), 1)
    {
      hide Unsigned, ReadHigh, Joined, IntAt, ReadLong;
      HalvesAhead(s);
      value := 0;
      var high, low;
      ok, high := ReadHighHalf(a, s);
      if !ok {
        return;
      }
      ok, low := ReadInt32();
      value := Joined(high, low);
    }

    /** dx_read_compact_long */
    method ReadCompactLong() returns (ok: bool, value: bv64)
      requires Valid()
      modifies this`pos
      ensures Follows(ok, value, ReadLong(old(Rest())), 0)
    {
      hide ReadLong, Int1, Joined3, Joined4, UnsignedShort, Unsigned, Unsigned2, Widen, ByteAndShortAt;
      hide ReadHigh, Joined;
      hide IntAt;
      ghost var s := Rest();
      LongAhead(s);
      value := 0;
      var a, b, c, d;
      ok, a := ReadByte();
      if !ok {
        return;
      }
      assert Rest() == s[1..];
      var n := Unsigned(a);
      if n < 0x80 {
        value := Widen(Int1(a));
      } else if n < 0xC0 {
        ok, b := ReadByte();
        value := Unsigned2(a, b) as bv64;
      } else if n < 0xE0 {
        ok, c := ReadUnsignedShort();
        value := Widen(Joined3(n, c));
      } else if n < 0xF0 {
        ok, d := ReadByteAndShort();
        value := Widen(Joined4(n, d));
      } else {
        assert [a] + Rest() == s;
        ok, value := ReadLongHalves(a, s);
      }
    }

    /** dx_read_utf2, dx_read_utf3 and dx_read_utf4, after the first byte of the character */
    method ReadUtf2(first: bv8) returns (ok: bool, value: bv32)
      requires Valid() && buffer != null
      modifies this`pos
      ensures Follows(ok, value, ReadRest([first] + old(Rest()), 2), 1)
    {
      hide Continues, Point2;
      value := 0;
      var second;
      ok, second := ReadByte();
      if !ok {
        return;
      }
      if !Continues(second) {
        return false, 0;
      }
      value := Point2(first, second);
    }

    method ReadUtf3(first: bv8) returns (ok: bool, value: bv32)
      requires Valid() && buffer != null
      modifies this`pos
      ensures Follows(ok, value, ReadRest([first] + old(Rest()), 3), 1)
    {
      hide TailContinues, Point3, Short;
      value := 0;
      var tail;
      ok, tail := ReadShort();
      if !ok {
        return;
      }
      if !TailContinues(tail) {
        return false, 0;
      }
      value := Point3(first, tail);
    }

    method ReadUtf4(first: bv8) returns (ok: bool, value: bv32)
      requires Valid() && buffer != null
      modifies this`pos
      ensures Follows(ok, value, ReadRest([first] + old(Rest()), 4), 1)
    {
      hide Continues, TailContinues, Point4, Short;
      value := 0;
      var second, tail;
      ok, second := ReadByte();
      if !ok {
        return;
      }
      ok, tail := ReadShort();
      if !ok {
        return;
      }
      if !Continues(second) || !TailContinues(tail) {
        return false, 0;
      }
      value := Point4(first, second, tail);
      if value > MAX_CODE_POINT {
        return false, value;
      }
    }

    /** The rest of a character, by the length its first byte announces */
    method ReadCharRest(c: bv8) returns (ok: bool, value: bv32)
      requires Valid() && buffer != null
      modifies this`pos
      ensures Follows(ok, value, ReadRest([c] + old(Rest()), Utf8Format.Length(c)), 1)
    {
      hide Continues, TailContinues, Point2, Point3, Point4, Short, Unsigned;
      ok, value := false, 0;
      if c & 0x80 == 0 {
        return true, Unsigned(c);
      }
      if Unsigned(c) & 0xE0 == 0xC0 {
        ok, value := ReadUtf2(c);
      } else if Unsigned(c) & 0xF0 == 0xE0 {
        ok, value := ReadUtf3(c);
      } else if Unsigned(c) & 0xF8 == 0xF0 {
        ok, value := ReadUtf4(c);
      }
    }

    /** dx_read_utf_char */
    method ReadUtfChar() returns (ok: bool, value: bv32)
      requires Valid()
      modifies this`pos
      ensures Follows(ok, value, ReadChar(old(Rest())), 0)
    {
      hide ReadRest, Utf8Format.Length;
      ghost var s := Rest();
      value := 0;
      var c;
      ok, c := ReadByte();
      if ok {
        assert [c] + Rest() == s;
        ok, value := ReadCharRest(c);
      }
    }

    /** One round of the loop of dx_read_utf_sequence: the units read, and what is left of the length. */
    method ReadNextUnits(left: int, count: nat) returns (ok: bool, units: Units, remaining: int)
      requires Valid() && left > 0
      modifies this`pos
      ensures Follows(ok, (units, remaining), UnitsAt(old(Rest()), left, count), 0)
    {
      hide ReadRest, Utf8Format.Length, ToUnit, HighOf, LowOf;
      ghost var s := Rest();
      units, remaining := [], left;
      var c, cp;
      ok, c := ReadByte();
      if !ok {
        return;
      }
      assert [c] + Rest() == s;
      ok, cp := ReadCharRest(c);
      if !ok {
        return;
      }
      var n := Utf8Format.Length(c);
      remaining := left - n;
      units := if n < 4 then [ToUnit(cp)] else Utf16(cp, count, remaining);
      ok := units != [];
    }

    /** dx_read_utf_sequence for a length in bytes */
    method ReadUtfSequence(utflen: nat) returns (ok: bool, value: Units)
      requires Valid()
      modifies this`pos
      ensures if utflen == 0 then ok && value == [] && pos == old(pos)
              else Follows(ok, value, ReadUnits(old(Rest()), utflen, [], 0), 0)
    {
      hide ReadUnits, UnitsAt;
      ok, value := true, [];
      if utflen == 0 {
        return;
      }
      ghost var s := Rest();
      var left: int := utflen;
      while left > 0
        invariant Valid() && ok
        invariant buffer == null ==> pos == old(pos) && left > 0
        invariant pos >= old(pos)
        invariant ReadUnits(s, utflen, [], 0) == ReadUnits(Rest(), left, value, pos - old(pos))
        decreases |Rest()|, left
      {
        NextUnits(Rest(), left, value, pos - old(pos));
        var units;
        ok, units, left := ReadNextUnits(left, |value|);
        if !ok {
          return;
        }
        value := value + units;
      }
      NoMoreUnits(Rest(), left, value, pos - old(pos));
      if left < 0 {
        ok := false;
      }
    }

    /** dx_read_utf_string */
    method ReadUtfString() returns (ok: bool, value: Nullable<Units>)
      requires Valid()
      modifies this`pos
      ensures Follows(ok, value, ReadString(old(Rest())), 0)
    {
      hide ReadLong, ReadUnits, ToLength, Low, Less64;
      ghost var s := Rest();
      value := Null;
      var length, units;
      ok, length := ReadCompactLong();
      if !ok {
        return;
      }
      if Less64(length, -1) || Less64(0x7FFF_FFFF, length) {
        return false, Null;
      }
      if length == -1 {
        return;
      }
      LongWithin(s);
      assert Rest() == s[ReadLong(s).used..];
      ReadUnitsShifted(Rest(), ToLength(Low(length)), [], 0, ReadLong(s).used);
      NoMoreUnits(Rest(), 0, [], 0);
      ok, units := ReadUtfSequence(ToLength(Low(length)));
      value := Some(units);
    }
  }

  function ByteAt(s: seq<bv8>): Read<bv8> {
    if |s| < 1 then Underflow(0) else Ok(s[0], 1)
  }

  function ShortAt(s: seq<bv8>): Read<bv32> {
    if |s| < 2 then Underflow(0) else Ok(Short(s[0], s[1]), 2)
  }

  function UnsignedShortAt(s: seq<bv8>): Read<bv32> {
    if |s| < 2 then Underflow(0) else Ok(UnsignedShort(s[0], s[1]), 2)
  }

  function ByteAndShortAt(s: seq<bv8>): Read<(bv8, bv32)> {
    if |s| < 1 then Underflow(0) else if |s| < 3 then Underflow(1) else Ok((s[0], UnsignedShort(s[1], s[2])), 3)
  }

  /** What is read at place `k`, said of the bytes from there on. */
  function After<T>(k: nat, r: Read<T>): Read<T> {
    match r
    case Ok(v, n) => Ok(v, k + n)
    case Underflow(n) => Underflow(k + n)
    case Malformed(n) => Malformed(k + n)
  }

  lemma IntAtRest(s: seq<bv8>, k: nat)
    requires k <= |s|
    ensures IntAt(s, k) == After(k, IntAt(s[k..], 0))
  {}

  /** The three- and four-byte forms from their first byte and what is read after it */
  function Joined3(n: bv32, c: bv32): bv32 { Sar(((n << 16) | c) << 11, 11) }

  function Joined4(n: bv32, d: (bv8, bv32)): bv32 { Sar(((n << 24) | (Unsigned(d.0) << 16) | d.1) << 4, 4) }

  function JoinedHigh3(n: bv32, c: bv32): bv32 { Sar(((n << 16) | c) << 15, 15) }

  function JoinedHigh4(d: (bv8, bv32)): bv32 { (Signed(d.0) << 16) | d.1 }

  /** The int reader, one read after the other. */
  function IntSteps(s: seq<bv8>): Read<bv32> {
    if s == [] then Underflow(0)
    else
      var n, rest := Unsigned(s[0]), s[1..];
      if n < 0x80 then Ok(Int1(s[0]), 1)
      else if n < 0xC0 then
        match ByteAt(rest)
        case Ok(b, k) => Ok(Int2(s[0], b), 1 + k)
        case _ => Underflow(1)
      else if n < 0xE0 then
        match UnsignedShortAt(rest)
        case Ok(c, k) => Ok(Joined3(n, c), 1 + k)
        case _ => Underflow(1)
      else if n < 0xF0 then
        match ByteAndShortAt(rest)
        case Ok(d, k) => Ok(Joined4(n, d), 1 + k)
        case _ => Underflow(1 + ByteAndShortAt(rest).used)
      else
        var k := if Skips(n) < |rest| then Skips(n) else |rest|;
        After(1 + k, IntAt(rest[k..], 0))
  }

  lemma RestOf(s: seq<bv8>)
    requires s != []
    ensures |s[1..]| > 0 ==> s[1..][0] == s[1]
    ensures |s[1..]| > 2 ==> s[1..][1] == s[2] && s[1..][2] == s[3]
  {}

  lemma IntAhead(s: seq<bv8>)
    ensures ReadInt(s) == IntSteps(s)
  {
    if s != [] {
      var n := Unsigned(s[0]);
      if n < 0xC0 { IntAhead2(s); } else if n < 0xE0 { IntAhead3(s); }
      else if n < 0xF0 { IntAhead4(s); } else { IntAhead5(s); }
    }
  }

  lemma IntAhead2(s: seq<bv8>)
    requires s != [] && Unsigned(s[0]) < 0xC0
    ensures ReadInt(s) == IntSteps(s)
  {
    hide Int1, Int2, Unsigned;
    RestOf(s);
  }

  lemma FormsAre(a: bv8, b: bv8, c: bv8, d: bv8)
    ensures Int3(a, b, c) == Joined3(Unsigned(a), UnsignedShort(b, c))
    ensures Int4(a, b, c, d) == Joined4(Unsigned(a), (b, UnsignedShort(c, d)))
  {
    hide UnsignedShort, Sar, Unsigned;
  }

  lemma IntAhead3(s: seq<bv8>)
    requires s != [] && 0xC0 <= Unsigned(s[0]) < 0xE0
    ensures ReadInt(s) == IntSteps(s)
  {
    hide UnsignedShort, Int3, Joined3, Unsigned;
    RestOf(s);
    if |s| > 2 { FormsAre(s[0], s[1], s[2], 0); }
  }

  lemma IntAhead4(s: seq<bv8>)
    requires s != [] && 0xE0 <= Unsigned(s[0]) < 0xF0
    ensures ReadInt(s) == IntSteps(s)
  {
    hide UnsignedShort, Int4, Joined4, Unsigned;
    RestOf(s);
    if |s| > 3 { FormsAre(s[0], s[1], s[2], s[3]); }
  }

  lemma IntAhead5(s: seq<bv8>)
    requires s != [] && Unsigned(s[0]) >= 0xF0
    ensures ReadInt(s) == IntSteps(s)
  {
    hide Skips, Unsigned, IntAt;
    var k := if Skips(Unsigned(s[0])) < |s| - 1 then Skips(Unsigned(s[0])) else |s| - 1;
    assert s[1..][k..] == s[1 + k..];
    IntAtRest(s, 1 + k);
  }

  /** The reads of the high half, one after the other. */
  function HighSteps(s: seq<bv8>): Read<bv32>
    requires s != []
  {
    var n, rest := Unsigned(s[0]), s[1..];
    if n < 0xF8 then Ok(High1(s[0]), 1)
    else if n < 0xFC then
      match ByteAt(rest)
      case Ok(b, k) => Ok(High2(s[0], b), 1 + k)
      case _ => Underflow(1)
    else if n < 0xFE then
      match UnsignedShortAt(rest)
      case Ok(c, k) => Ok(JoinedHigh3(n, c), 1 + k)
      case _ => Underflow(1)
    else if n < 0xFF then
      match ByteAndShortAt(rest)
      case Ok(d, k) => Ok(JoinedHigh4(d), 1 + k)
      case _ => Underflow(1 + ByteAndShortAt(rest).used)
    else After(1, IntAt(rest, 0))
  }

  lemma HighAhead(s: seq<bv8>)
    requires s != []
    ensures ReadHigh(s) == HighSteps(s)
  {
    hide High1, High2, UnsignedShort, Sar, IntOf, Signed, Unsigned, IntAt;
    var rest := s[1..];
    assert |rest| > 0 ==> rest[0] == s[1];
    assert |rest| > 2 ==> rest[1] == s[2] && rest[2] == s[3];
    if Unsigned(s[0]) >= 0xFF { IntAtRest(s, 1); }
  }

  /** The long reader, one read after the other. */
  function LongSteps(s: seq<bv8>): Read<bv64> {
    if s == [] then Underflow(0)
    else
      var n, rest := Unsigned(s[0]), s[1..];
      if n < 0x80 then Ok(Widen(Int1(s[0])), 1)
      else if n < 0xC0 then
        match ByteAt(rest)
        case Ok(b, k) => Ok(Unsigned2(s[0], b) as bv64, 1 + k)
        case _ => Underflow(1)
      else if n < 0xE0 then
        match UnsignedShortAt(rest)
        case Ok(c, k) => Ok(Widen(Joined3(n, c)), 1 + k)
        case _ => Underflow(1)
      else if n < 0xF0 then
        match ByteAndShortAt(rest)
        case Ok(d, k) => Ok(Widen(Joined4(n, d)), 1 + k)
        case _ => Underflow(1 + ByteAndShortAt(rest).used)
      else ReadLong(s)
  }

  lemma LongAhead(s: seq<bv8>)
    ensures ReadLong(s) == LongSteps(s)
  {
    hide ReadLong, LongSteps;
    if s == [] {
      NothingAhead();
    } else {
      var n := Unsigned(s[0]);
      if n < 0xC0 { LongAhead2(s); } else if n < 0xE0 { LongAhead3(s); }
      else if n < 0xF0 { LongAhead4(s); } else { LongAhead5(s); }
    }
  }

  lemma NothingAhead()
    ensures ReadLong([]) == LongSteps([])
  {}

  lemma LongAhead2(s: seq<bv8>)
    requires s != [] && Unsigned(s[0]) < 0xC0
    ensures ReadLong(s) == LongSteps(s)
  {
    hide Int1, Unsigned2, Unsigned, Widen;
    RestOf(s);
  }

  lemma LongAhead3(s: seq<bv8>)
    requires s != [] && 0xC0 <= Unsigned(s[0]) < 0xE0
    ensures ReadLong(s) == LongSteps(s)
  {
    hide UnsignedShort, Int3, Joined3, Unsigned, Widen;
    RestOf(s);
    if |s| > 2 { FormsAre(s[0], s[1], s[2], 0); }
  }

  lemma LongAhead4(s: seq<bv8>)
    requires s != [] && 0xE0 <= Unsigned(s[0]) < 0xF0
    ensures ReadLong(s) == LongSteps(s)
  {
    hide UnsignedShort, Int4, Joined4, Unsigned, Widen;
    RestOf(s);
    if |s| > 3 { FormsAre(s[0], s[1], s[2], s[3]); }
  }

  lemma LongAhead5(s: seq<bv8>)
    requires s != [] && Unsigned(s[0]) >= 0xF0
    ensures ReadLong(s) == LongSteps(s)
  {
    hide Unsigned, ReadHigh, Joined, IntAt;
  }

  /** `n` is `first` shifted once and then once for every byte skipped. */
  predicate Shifted(n: bv32, first: bv32, skipped: nat) {
    && (skipped == 0 ==> n == first << 1)
    && (skipped == 1 ==> n == first << 2)
    && (skipped == 2 ==> n == first << 3)
    && (skipped == 3 ==> n == first << 4)
    && (skipped == 4 ==> n == first << 5)
  }

  lemma FirstShift(first: bv32)
    ensures Shifted(first << 1, first, 0) && Skips(first) <= 4
  {}

  lemma NextShift(n: bv32, first: bv32, skipped: nat)
    requires Shifted(n, first, skipped) && skipped <= Skips(first) && n & 0x10 != 0
    ensures Shifted(n << 1, first, skipped + 1) && skipped + 1 <= Skips(first) <= 4
  {}

  lemma LastShift(n: bv32, first: bv32, skipped: nat)
    requires Shifted(n, first, skipped) && skipped <= Skips(first) && n & 0x10 == 0
    ensures skipped == Skips(first)
  {}

  lemma Dropped(a: bv8, rest: seq<bv8>, k: nat)
    requires 1 <= k <= |rest| + 1
    ensures ([a] + rest)[k..] == rest[k - 1..]
  {}

  /** A long number from its high half and what is read after it. */
  function WithLow(hi: bv32, low: Read<bv32>): Read<bv64> {
    match low
    case Ok(v, n) => Ok(Joined(hi, v), n)
    case Underflow(n) => Underflow(n)
    case Malformed(n) => Malformed(n)
  }

  lemma HalvesAhead(s: seq<bv8>)
    requires |s| > 0 && Unsigned(s[0]) >= 0xF0
    ensures 1 <= ReadHigh(s).used <= |s|
    ensures !ReadHigh(s).Ok? ==> ReadLong(s) == Underflow(ReadHigh(s).used)
    ensures ReadHigh(s).Ok? ==>
              ReadLong(s) == WithLow(ReadHigh(s).value, After(ReadHigh(s).used, IntAt(s[ReadHigh(s).used..], 0)))
  {
    hide Sar, UnsignedShort, Signed, IntOf, Joined, High1, High2, High3, High4;
    if ReadHigh(s).Ok? { IntAtRest(s, ReadHigh(s).used); }
  }

  /** dx_code_point_to_utf16_chars: the units of a code point, none when the buffer of `length` units
      has no room for them from `at` on. */
  function Utf16(cp: bv32, at: nat, length: int): Units {
    if cp < 0x1_0000 then
      if length - at < 1 then [] else [ToUnit(cp)]
    else if length - at < 2 then []
    else [HighOf(cp), LowOf(cp)]
  }

  /** What one round of dx_read_utf_sequence makes of the bytes ahead. */
  function UnitsAt(s: seq<bv8>, left: int, count: nat): Read<(Units, int)> {
    if |s| < 1 then Underflow(0)
    else
      var n := Utf8Format.Length(s[0]);
      match ReadRest(s, n)
      case Underflow(k) => Underflow(k)
      case Malformed(k) => Malformed(k)
      case Ok(cp, k) =>
        var units := if n < 4 then [ToUnit(cp)] else Utf16(cp, count, left - n);
        if units == [] then Malformed(k) else Ok((units, left - n), k)
  }

  /** Reading a string is one round after the other. */
  lemma NextUnits(s: seq<bv8>, left: int, acc: Units, used: nat)
    requires left > 0
    ensures UnitsAt(s, left, |acc|).Ok? ==> 0 < UnitsAt(s, left, |acc|).used <= |s|
    ensures ReadUnits(s, left, acc, used) ==
            match UnitsAt(s, left, |acc|)
            case Underflow(k) => Underflow(used + k)
            case Malformed(k) => Malformed(used + k)
            case Ok((units, remaining), k) => ReadUnits(s[k..], remaining, acc + units, used + k)
  {
    hide Unsigned, Continues, TailContinues, Point2, Point3, Point4, ToUnit, HighOf, LowOf;
  }

  lemma NoMoreUnits(s: seq<bv8>, left: int, acc: Units, used: nat)
    requires left <= 0
    ensures ReadUnits(s, left, acc, used) == if left < 0 then Malformed(used) else Ok(acc, used)
  {}
}
