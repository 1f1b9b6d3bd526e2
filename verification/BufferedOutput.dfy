/** The output buffer of a connection: it grows on demand, and the writers put bytes at its current
    position. */
module BufferedOutput {
  import opened CompactFormat
  import opened Lengths
  import opened Pointers
  import opened Utf8Format

  /** `s` with the bytes from `pos` on overwritten by `bytes`. */
  function Spliced(s: seq<bv8>, pos: nat, bytes: seq<bv8>): (r: seq<bv8>)
    requires pos + |bytes| <= |s|
    ensures |r| == |s|
  {
    s[..pos] + bytes + s[pos + |bytes|..]
  }

  lemma SplicedTwice(s: seq<bv8>, pos: nat, a: seq<bv8>, b: seq<bv8>)
    requires pos + |a| + |b| <= |s|
    ensures Spliced(Spliced(s, pos, a), pos + |a|, b) == Spliced(s, pos, a + b)
  {}

  /** `bytes` are in `now` from `pos` on, and every other byte of `was` is where it was. */
  ghost predicate Wrote(was: seq<bv8>, now: seq<bv8>, pos: nat, bytes: seq<bv8>) {
    && pos <= |was| <= |now| && pos + |bytes| <= |now|
    && now[..pos] == was[..pos]
    && now[pos..pos + |bytes|] == bytes
    && forall i :: pos + |bytes| <= i < |was| ==> now[i] == was[i]
  }

  lemma WroteSpliced(was: seq<bv8>, now: seq<bv8>, pos: nat, a: seq<bv8>, b: seq<bv8>)
    requires Wrote(was, now, pos, a) && pos + |a| + |b| <= |now|
    ensures Wrote(was, Spliced(now, pos + |a|, b), pos, a + b)
  {
    var next := Spliced(now, pos + |a|, b);
    assert next[..pos + |a|] == now[..pos + |a|];
    assert next[..pos] == next[..pos + |a|][..pos] == now[..pos];
    assert next[pos..pos + |a|] == next[..pos + |a|][pos..] == now[..pos + |a|][pos..] == a;
    assert next[pos..pos + |a + b|] == next[pos..pos + |a|] + next[pos + |a|..pos + |a| + |b|];
  }

  /** Bytes put where nothing was written before */
  lemma WroteDirectly(was: seq<bv8>, mid: seq<bv8>, pos: nat, bytes: seq<bv8>)
    requires Wrote(was, mid, pos, []) && pos + |bytes| <= |mid|
    ensures Wrote(was, Spliced(mid, pos, bytes), pos, bytes)
  {
    WroteSpliced(was, mid, pos, [], bytes);
    assert [] + bytes == bytes;
  }

  lemma WroteThenWrote(was: seq<bv8>, mid: seq<bv8>, now: seq<bv8>, pos: nat, a: seq<bv8>, b: seq<bv8>)
    requires Wrote(was, mid, pos, a) && Wrote(mid, now, pos + |a|, b)
    ensures Wrote(was, now, pos, a + b)
  {
    assert now[..pos] == now[..pos + |a|][..pos] == mid[..pos];
    assert now[pos..pos + |a|] == now[..pos + |a|][pos..] == mid[..pos + |a|][pos..] == a;
    assert now[pos..pos + |a + b|] == now[pos..pos + |a|] + now[pos + |a|..pos + |a| + |b|];
  }

  /** The size a buffer of `length` bytes grows to. */
  function Grown(length: nat, needed: nat): (r: nat)
    ensures r >= needed && (length <= INT_MAX ==> r >= length)
  {
    var doubled := if 2 * length < INT_MAX then 2 * length else INT_MAX;
    var least := if doubled > 1024 then doubled else 1024;
    if least > needed then least else needed
  }

  /** There is room for `n` more bytes, or the buffer may grow. */
  predicate HasRoom(pos: nat, length: nat, n: nat) {
    pos + n <= length || pos + length <= INT_MAX
  }

  /** The length of the buffer after room for `n` more bytes was made */
  function LengthFor(pos: nat, length: nat, n: nat): nat {
    if pos + n <= length then length else Grown(length, pos + n)
  }

  /** A write that asks for room first and then uses some of it */
  datatype Ask = Ask(room: nat, used: nat)

  /** Writes one after the other, each finding room */
  predicate AllFit(asks: seq<Ask>, pos: nat, length: nat) {
    asks == [] ||
    (HasRoom(pos, length, asks[0].room) &&
     AllFit(asks[1..], pos + asks[0].used, LengthFor(pos, length, asks[0].room)))
  }

  function Used(asks: seq<Ask>): nat {
    if asks == [] then 0 else asks[0].used + Used(asks[1..])
  }

  /** The length of the buffer after these writes */
  function LengthAfter(asks: seq<Ask>, pos: nat, length: nat): nat {
    if asks == [] then length
    else LengthAfter(asks[1..], pos + asks[0].used, LengthFor(pos, length, asks[0].room))
  }

  lemma {:induction false} FitsConcat(a: seq<Ask>, b: seq<Ask>, pos: nat, length: nat)
    ensures AllFit(a + b, pos, length) <==>
            AllFit(a, pos, length) && AllFit(b, pos + Used(a), LengthAfter(a, pos, length))
    ensures Used(a + b) == Used(a) + Used(b)
  {
    if a == [] {
      assert a + b == b;
    } else {
      assert (a + b)[1..] == a[1..] + b;
      FitsConcat(a[1..], b, pos + a[0].used, LengthFor(pos, length, a[0].room));
    }
  }

  lemma FitsFirst(a: Ask, rest: seq<Ask>, pos: nat, length: nat)
    ensures AllFit([a] + rest, pos, length) <==>
            HasRoom(pos, length, a.room) && AllFit(rest, pos + a.used, LengthFor(pos, length, a.room))
  {
    assert ([a] + rest)[1..] == rest;
  }

  /** Up to half the range of a C int there is always room, however long the buffer is. */
  lemma {:induction false} HalfFits(asks: seq<Ask>, pos: nat, length: nat)
    requires forall i :: 0 <= i < |asks| ==> asks[i].room <= 9
    requires 2 * (pos + Used(asks)) + 9 <= INT_MAX
    ensures AllFit(asks, pos, length)
  {
    if asks != [] {
      assert forall i :: 0 <= i < |asks| - 1 ==> asks[1..][i] == asks[i + 1];
      HalfFits(asks[1..], pos + asks[0].used, LengthFor(pos, length, asks[0].room));
    }
  }

  class OutBuffer {
    var buffer: array?<bv8>
    var pos: nat

    ghost predicate Valid()
      reads this
    {
      && pos <= Length() <= INT_MAX
    }

    function Length(): nat
      reads this
    {
      if buffer == null then 0 else buffer.Length
    }

    ghost function Contents(): (s: seq<bv8>)
      reads this, buffer
      ensures |s| == Length()
    {
      if buffer == null then [] else buffer[..]
    }

    /** There is a buffer, and it has room for `n` more bytes or may grow. */
    predicate CanWrite(n: nat)
      reads this
    {
      buffer != null && HasRoom(pos, buffer.Length, n)
    }

    /** `bytes` were put at the old position, which moved behind them; nothing else changed. */
    twostate predicate Appended(bytes: seq<bv8>)
      reads this, buffer
    {
      && Valid() && pos == old(pos) + |bytes|
      && (buffer == old(buffer) || fresh(buffer))
      && Wrote(old(Contents()), Contents(), old(pos), bytes)
    }

    /** dx_set_out_buffer with a new buffer */
    constructor (length: nat)
      requires length <= INT_MAX
      ensures Valid() && buffer != null && fresh(buffer) && buffer.Length == length && pos == 0
    {
      buffer, pos := new bv8[length], 0;
    }

    /** dx_ensure_capacity */
    method EnsureCapacity(required: nat) returns (ok: bool)
      requires Valid() && pos + required <= INT_MAX
      modifies this`buffer
      ensures ok <==> pos + old(Length()) <= INT_MAX
      ensures Appended([]) && (ok ==> buffer != null || required == pos == 0)
      ensures ok ==> pos + required <= Length()
      ensures !ok || pos + required <= old(Length()) ==> buffer == old(buffer)
      ensures Length() == if ok && pos + required > old(Length()) then Grown(old(Length()), pos + required)
                          else old(Length())
    {
      if INT_MAX - pos < Length() {
        return false;
      }
      if pos + required > Length() {
        var newBuffer := new bv8[Grown(Length(), pos + required)];
        forall i | 0 <= i < Length() { newBuffer[i] := buffer[i]; }
        buffer := newBuffer;
      }
      return true;
    }

    /** dx_check_write_possibility */
    method CheckWrite(n: nat) returns (ok: bool)
      requires Valid() && pos + n <= INT_MAX
      modifies this`buffer
      ensures ok <==> old(CanWrite(n))
      ensures Appended([]) && (ok ==> buffer != null && pos + n <= buffer.Length)
      ensures ok && pos + n <= old(Length()) ==> buffer == old(buffer)
      ensures Length() == if ok then LengthFor(pos, old(Length()), n) else old(Length())
    {
      if buffer == null {
        return false;
      }
      if pos + n <= Length() {
        return true;
      }
      ok := EnsureCapacity(n);
    }

    /** One byte stored at the position, which moves on. */
    method Put(b: bv8)
      requires buffer != null && pos < buffer.Length
      modifies this`pos, buffer
      ensures pos == old(pos) + 1
      ensures buffer[..] == Spliced(old(buffer[..]), old(pos), [b])
    {
      buffer[pos] := b;
      pos := pos + 1;
    }

    method Put2(a: bv8, b: bv8)
      requires buffer != null && pos + 2 <= buffer.Length
      modifies this`pos, buffer
      ensures pos == old(pos) + 2
      ensures buffer[..] == Spliced(old(buffer[..]), old(pos), [a, b])
    {
      SplicedTwice(buffer[..], pos, [a], [b]);
      Put(a);
      Put(b);
    }

    method Put3(a: bv8, b: bv8, c: bv8)
      requires buffer != null && pos + 3 <= buffer.Length
      modifies this`pos, buffer
      ensures pos == old(pos) + 3
      ensures buffer[..] == Spliced(old(buffer[..]), old(pos), [a, b, c])
    {
      SplicedTwice(buffer[..], pos, [a, b], [c]);
      Put2(a, b);
      Put(c);
    }

    method Put4(a: bv8, b: bv8, c: bv8, d: bv8)
      requires buffer != null && pos + 4 <= buffer.Length
      modifies this`pos, buffer
      ensures pos == old(pos) + 4
      ensures buffer[..] == Spliced(old(buffer[..]), old(pos), [a, b, c, d])
    {
      hide Spliced;
      SplicedTwice(buffer[..], pos, [a, b], [c, d]);
      assert [a, b] + [c, d] == [a, b, c, d];
      Put2(a, b);
      Put2(c, d);
    }

    /** dx_write_int_unchecked */
    method WriteIntUnchecked(v: bv32)
      requires buffer != null && pos + 4 <= buffer.Length
      modifies this`pos, buffer
      ensures pos == old(pos) + 4
      ensures buffer[..] == Spliced(old(buffer[..]), old(pos), IntBytes(v))
    {
      Put4(Byte(Sar(v, 24)), Byte(Sar(v, 16)), Byte(Sar(v, 8)), Byte(v));
    }

    /** A marker byte and an int after it */
    method PutInt(marker: bv8, v: bv32)
      requires buffer != null && pos + 5 <= buffer.Length
      modifies this`pos, buffer
      ensures pos == old(pos) + 5
      ensures buffer[..] == Spliced(old(buffer[..]), old(pos), [marker] + IntBytes(v))
    {
      SplicedTwice(buffer[..], pos, [marker], IntBytes(v));
      Put(marker);
      WriteIntUnchecked(v);
    }

    /** The branches of dx_write_compact_int */
    method PutCompactInt(value: bv32)
      requires buffer != null && pos + 5 <= buffer.Length
      modifies this`pos, buffer
      ensures pos == old(pos) + |CompactInt(value)| && |CompactInt(value)| <= 5
      ensures buffer[..] == Spliced(old(buffer[..]), old(pos), CompactInt(value))
    {
      hide Byte, Sar, Less, Negative, Spliced;
      if !Negative(value) {
        if Less(value, 0x40) {
          Put(Byte(value));
        } else if Less(value, 0x2000) {
          Put2(Byte(0x80 | Sar(value, 8)), Byte(value));
        } else if Less(value, 0x10_0000) {
          Put3(Byte(0xC0 | Sar(value, 16)), Byte(Sar(value, 8)), Byte(value));
        } else if Less(value, 0x0800_0000) {
          WriteIntUnchecked(0xE000_0000 | value);
        } else {
          PutInt(0xF0, value);
        }
      } else {
        if !Less(value, -0x40) {
          Put(Byte(0x7F & value));
        } else if !Less(value, -0x2000) {
          Put2(Byte(0xBF & Sar(value, 8)), Byte(value));
        } else if !Less(value, -0x10_0000) {
          Put3(Byte(0xDF & Sar(value, 16)), Byte(Sar(value, 8)), Byte(value));
        } else if !Less(value, -0x0800_0000) {
          WriteIntUnchecked(0xEFFF_FFFF & value);
        } else {
          PutInt(0xF7, value);
        }
      }
    }

    /** The branches of dx_write_compact_long for the high half */
    method PutHigh(hi: bv32)
      requires buffer != null && pos + 5 <= buffer.Length
      modifies this`pos, buffer
      ensures pos == old(pos) + |HighBytes(hi)| && |HighBytes(hi)| <= 5
      ensures buffer[..] == Spliced(old(buffer[..]), old(pos), HighBytes(hi))
    {
      hide HighBytes;
      if !Negative(hi) {
        PutHighUp(hi);
      } else {
        PutHighDown(hi);
      }
    }

    method PutHighUp(hi: bv32)
      requires buffer != null && pos + 5 <= buffer.Length && !Negative(hi)
      modifies this`pos, buffer
      ensures pos == old(pos) + |HighBytes(hi)| && |HighBytes(hi)| <= 5
      ensures buffer[..] == Spliced(old(buffer[..]), old(pos), HighBytes(hi))
    {
      hide Byte, Sar, Less, Negative, Spliced;
      if Less(hi, 0x04) {
        Put(Byte(0xF0 | hi));
      } else if Less(hi, 0x0200) {
        Put2(Byte(0xF8 | Sar(hi, 8)), Byte(hi));
      } else if Less(hi, 0x01_0000) {
        Put3(0xFC, Byte(Sar(hi, 8)), Byte(hi));
      } else if Less(hi, 0x80_0000) {
        WriteIntUnchecked(0xFE00_0000 | hi);
      } else {
        PutInt(0xFF, hi);
      }
    }

    method PutHighDown(hi: bv32)
      requires buffer != null && pos + 5 <= buffer.Length && Negative(hi)
      modifies this`pos, buffer
      ensures pos == old(pos) + |HighBytes(hi)| && |HighBytes(hi)| <= 5
      ensures buffer[..] == Spliced(old(buffer[..]), old(pos), HighBytes(hi))
    {
      hide Byte, Sar, Less, Negative, Spliced, IntBytes;
      FourBytesOf(0xFEFF_FFFF & hi);
      FourBytesOf(hi);
      if !Less(hi, -0x04) {
        Put(Byte(0xF7 & hi));
      } else if !Less(hi, -0x0200) {
        Put2(Byte(0xFB & Sar(hi, 8)), Byte(hi));
      } else if !Less(hi, -0x01_0000) {
        Put3(0xFD, Byte(Sar(hi, 8)), Byte(hi));
      } else if !Less(hi, -0x80_0000) {
        WriteIntUnchecked(0xFEFF_FFFF & hi);
      } else {
        PutInt(0xFF, hi);
      }
    }

    /** dx_write_byte */
    method WriteByte(value: bv8) returns (ok: bool)
      requires Valid() && pos + 1 <= INT_MAX
      modifies this, buffer
      ensures ok <==> old(CanWrite(1))
      ensures ok ==> Length() == old(LengthFor(pos, Length(), 1))
      ensures if ok then Appended([value]) else Appended([])
    {
      ok := CheckWrite(1);
      if ok {
        ghost var mid := buffer[..];
        Put(value);
        WroteDirectly(old(Contents()), mid, old(pos), [value]);
      }
    }

    /** dx_write_compact_int */
    method WriteCompactInt(value: bv32) returns (ok: bool)
      requires Valid() && pos + 5 <= INT_MAX
      modifies this, buffer
      ensures ok <==> old(CanWrite(5))
      ensures ok ==> Length() == old(LengthFor(pos, Length(), 5))
      ensures if ok then Appended(CompactInt(value)) else Appended([])
    {
      ok := CheckWrite(5);
      if ok {
        ghost var mid := buffer[..];
        PutCompactInt(value);
        WroteDirectly(old(Contents()), mid, old(pos), CompactInt(value));
      }
    }

    /** dx_write_compact_long */
    method WriteCompactLong(value: bv64) returns (ok: bool)
      requires Valid() && pos + 9 <= INT_MAX
      modifies this, buffer
      ensures ok <==> old(CanWrite(if value == Widen(Low(value)) then 5 else 9))
      ensures ok ==> Length() == old(LengthFor(pos, Length(), if value == Widen(Low(value)) then 5 else 9))
      ensures if ok then Appended(CompactLong(value)) else Appended([])
    {
      hide Widen, High, Low, HighBytes, CompactInt, IntBytes, Wrote, Spliced;
      LongForm(value);
      if value == Widen(Low(value)) {
        ok := WriteCompactInt(Low(value));
        return;
      }
      ok := CheckWrite(9);
      if ok {
        ghost var mid := buffer[..];
        PutHigh(High(value));
        WriteIntUnchecked(Low(value));
        SplicedTwice(mid, old(pos), HighBytes(High(value)), IntBytes(Low(value)));
        WroteDirectly(old(Contents()), mid, old(pos), CompactLong(value));
      }
    }

    /** dx_write_utf2_unchecked */
    method WriteUtf2Unchecked(cp: bv32)
      requires buffer != null && pos + 2 <= buffer.Length
      modifies this`pos, buffer
      ensures pos == old(pos) + 2
      ensures buffer[..] == Spliced(old(buffer[..]), old(pos), Utf2(cp))
    {
      Put2(Byte(0xC0 | (cp >> 6)), Byte(0x80 | (cp & 0x3F)));
    }

    /** dx_write_utf3_unchecked */
    method WriteUtf3Unchecked(cp: bv32)
      requires buffer != null && pos + 3 <= buffer.Length
      modifies this`pos, buffer
      ensures pos == old(pos) + 3
      ensures buffer[..] == Spliced(old(buffer[..]), old(pos), Utf3(cp))
    {
      Put3(Byte(0xE0 | (cp >> 12)), Byte(0x80 | ((cp >> 6) & 0x3F)), Byte(0x80 | (cp & 0x3F)));
    }

    /** dx_write_utf4_unchecked */
    method WriteUtf4Unchecked(cp: bv32)
      requires buffer != null && pos + 4 <= buffer.Length
      modifies this`pos, buffer
      ensures pos == old(pos) + 4
      ensures buffer[..] == Spliced(old(buffer[..]), old(pos), Utf4(cp))
    {
      Put4(Byte(0xF0 | (cp >> 18)), Byte(0x80 | ((cp >> 12) & 0x3F)),
           Byte(0x80 | ((cp >> 6) & 0x3F)), Byte(0x80 | (cp & 0x3F)));
    }

    /** dx_write_utf_char: room is made before the code point is looked at. */
    method WriteUtfChar(cp: bv32) returns (ok: bool)
      requires Valid() && pos + 4 <= INT_MAX
      modifies this, buffer
      ensures ok <==> old(CanWrite(4)) && IsCodePoint(cp)
      ensures if ok then Appended(Utf8(cp)) else Appended([])
    {
      hide Byte, Wrote, Spliced;
      ok := CheckWrite(4);
      if ok {
        ghost var mid := buffer[..];
        if Negative(cp) {
          NegativeIsNoPoint(cp);
          return false;
        }
        if cp <= 0x7F {
          Put(Byte(cp));
        } else if cp <= 0x7FF {
          WriteUtf2Unchecked(cp);
        } else if cp <= 0xFFFF {
          WriteUtf3Unchecked(cp);
        } else if cp <= MAX_CODE_POINT {
          WriteUtf4Unchecked(cp);
        } else {
          return false;
        }
        WroteDirectly(old(Contents()), mid, old(pos), Utf8(cp));
      }
    }

    /** One round of the writing loop of dx_write_utf_string */
    method PutFirst(s: Units) returns (k: nat)
      requires buffer != null && pos + 4 <= buffer.Length && s != []
      modifies this`pos, buffer
      ensures k == Width(s) && |FirstBytes(s)| <= 4
      ensures pos == old(pos) + |FirstBytes(s)|
      ensures buffer[..] == Spliced(old(buffer[..]), old(pos), FirstBytes(s))
    {
      hide Utf8, FirstPoint, Byte, Spliced, PairPoint, IsHighSurrogate, IsLowSurrogate;
      FirstBytesAre(s);
      var c := s[0];
      k := 1;
      if c <= 0x7F {
        Put(Byte(c as bv32));
      } else if c <= 0x7FF {
        WriteUtf2Unchecked(c as bv32);
      } else if IsHighSurrogate(c) && |s| > 1 && IsLowSurrogate(s[1]) {
        WriteUtf4Unchecked(PairPoint(c, s[1]));
        k := 2;
      } else {
        WriteUtf3Unchecked(c as bv32);
      }
    }

    /** The bytes a string takes, added up in a loop before anything is written. */
    static method Utf8Length(value: Units) returns (utflen: nat)
      ensures utflen == |Utf8String(value)|
    {
      hide FirstBytes, Byte, PairPoint, IsHighSurrogate, IsLowSurrogate, Utf8String;
      var i := 0;
      utflen := 0;
      while i < |value|
        invariant i <= |value| && utflen + |Utf8String(value[i..])| == |Utf8String(value)|
      {
        FirstBytesAre(value[i..]);
        Utf8StringStep(value, i);
        var c := value[i];
        i := i + 1;
        if c <= 0x7F {
          utflen := utflen + 1;
        } else if c <= 0x7FF {
          utflen := utflen + 2;
        } else if IsHighSurrogate(c) && i < |value| && IsLowSurrogate(value[i]) {
          i := i + 1;
          utflen := utflen + 4;
        } else {
          utflen := utflen + 3;
        }
      }
      NoUnits(value);
    }

    /** One round of the writing loop, with the room it asks for first */
    method WriteFirst(s: Units) returns (ok: bool, k: nat)
      requires Valid() && buffer != null && s != [] && pos + 4 <= INT_MAX
      modifies this, buffer
      ensures ok <==> HasRoom(old(pos), old(Length()), 4)
      ensures if ok then Appended(FirstBytes(s)) else Appended([])
      ensures ok ==> buffer != null && k == Width(s) && Length() == LengthFor(old(pos), old(Length()), 4)
    {
      hide Spliced, Wrote, FirstBytes;
      ok, k := true, 0;
      WroteNothing(buffer[..], pos);
      if pos + 4 > Length() {
        ok := EnsureCapacity(4);
        if !ok {
          return;
        }
      }
      ghost var mid := buffer[..];
      k := PutFirst(s);
      WroteDirectly(old(buffer[..]), mid, old(pos), FirstBytes(s));
    }

    /** The writing loop of dx_write_utf_string */
    method WriteUnits(s: Units) returns (ok: bool, ghost sent: nat)
      requires Valid() && buffer != null && pos + |Utf8String(s)| + 5 <= INT_MAX
      modifies this, buffer
      ensures sent <= |Utf8String(s)| && Appended(Utf8String(s)[..sent])
      ensures ok ==> sent == |Utf8String(s)|
      ensures ok <==> AllFit(UnitAsks(s), old(pos), old(Length()))
    {
      hide Wrote, Spliced, FirstBytes, Utf8String, AllFit, UnitAsks, LengthFor, HasRoom, Width;
      ok, sent := true, 0;
      ghost var whole := Utf8String(s);
      WroteNothing(buffer[..], pos);
      var i := 0;
      assert s[0..] == s;
      while i < |s|
        invariant i <= |s| && sent <= |whole| && whole[sent..] == Utf8String(s[i..])
        invariant Appended(whole[..sent]) && buffer != null && ok
        invariant AllFit(UnitAsks(s), old(pos), old(Length())) <==> AllFit(UnitAsks(s[i..]), pos, Length())
      {
        ghost var before, bytes := buffer[..], FirstBytes(s[i..]);
        Utf8StringStep(s, i);
        UnitAsksStep(s, i, pos, Length());
        var k;
        ok, k := WriteFirst(s[i..]);
        WroteThenWrote(old(buffer[..]), before, Contents(), old(pos), whole[..sent], if ok then bytes else []);
        if !ok {
          assert whole[..sent] + [] == whole[..sent];
          return;
        }
        assert whole[..sent + |bytes|] == whole[..sent] + bytes;
        sent := sent + |bytes|;
        i := i + k;
      }
      NoUnits(s);
      NoAsks(s, pos, Length());
    }

    /** dx_write_utf_string; `sent` bytes are written, all of them unless growing fails. */
    method WriteUtfString(value: Nullable<Units>) returns (ok: bool, ghost sent: nat)
      requires Valid() && pos + |StringBytes(value)| + 5 <= INT_MAX
      modifies this, buffer
      ensures sent <= |StringBytes(value)| && Appended(StringBytes(value)[..sent])
      ensures ok ==> sent == |StringBytes(value)|
      ensures ok <==> old(buffer) != null && AllFit(StringAsks(value), old(pos), old(Length()))
    {
      hide Wrote, CompactInt, Utf8String, Bits, AllFit, UnitAsks;
      match value {
        case Null =>
          OneAsk(Ask(5, |CompactInt(-1)|), pos, Length());
          ok := WriteCompactInt(-1);
          sent := if ok then |StringBytes(value)| else 0;
          assert StringBytes(value)[..sent] == if ok then CompactInt(-1) else [];
        case Some(s) =>
          ok, sent := WriteSomeString(s);
      }
    }

    method WriteSomeString(s: Units) returns (ok: bool, ghost sent: nat)
      requires Valid() && pos + |StringBytes(Some(s))| + 5 <= INT_MAX
      modifies this, buffer
      ensures sent <= |StringBytes(Some(s))| && Appended(StringBytes(Some(s))[..sent])
      ensures ok ==> sent == |StringBytes(Some(s))|
      ensures ok <==> old(buffer) != null && AllFit(StringAsks(Some(s)), old(pos), old(Length()))
    {
      hide Wrote, CompactInt, Utf8String, Bits, AllFit, UnitAsks, LengthFor, HasRoom, StringBytes;
      var utflen := Utf8Length(s);
      ghost var head, tail := CompactInt(Bits(utflen)), Utf8String(s);
      BytesOfSome(s);
      FitsFirst(Ask(5, |head|), UnitAsks(s), pos, Length());
      ok := WriteCompactInt(Bits(utflen));
      sent := 0;
      if !ok {
        return;
      }
      ghost var mid := buffer[..];
      ok, sent := WriteUnits(s);
      WroteHead(old(Contents()), mid, Contents(), old(pos), head, tail, sent);
      sent := |head| + sent;
    }
  }

  lemma FourBytesOf(v: bv32)
    ensures |IntBytes(v)| == 4
  {}

  /** What the code points of a string ask for, one after the other */
  ghost function UnitAsks(s: Units): seq<Ask> {
    if s == [] then [] else [Ask(4, |FirstBytes(s)|)] + UnitAsks(s[Width(s)..])
  }

  /** And with the length before them */
  ghost function StringAsks(value: Nullable<Units>): seq<Ask> {
    match value
    case Null => [Ask(5, |CompactInt(-1)|)]
    case Some(s) => [Ask(5, |CompactInt(Bits(|Utf8String(s)|))|)] + UnitAsks(s)
  }

  lemma BytesOfSome(s: Units)
    ensures StringBytes(Some(s)) == CompactInt(Bits(|Utf8String(s)|)) + Utf8String(s)
    ensures StringBytes(Some(s))[..0] == []
  {
    hide CompactInt, Utf8String, Bits;
  }

  /** A head was written, and behind it the first `k` bytes of a tail. */
  lemma WroteHead(was: seq<bv8>, mid: seq<bv8>, now: seq<bv8>, pos: nat, head: seq<bv8>, tail: seq<bv8>, k: nat)
    requires Wrote(was, mid, pos, head) && k <= |tail| && Wrote(mid, now, pos + |head|, tail[..k])
    ensures Wrote(was, now, pos, (head + tail)[..|head| + k])
  {
    hide Wrote;
    WroteThenWrote(was, mid, now, pos, head, tail[..k]);
    assert (head + tail)[..|head| + k] == head + tail[..k];
  }

  lemma OneAsk(a: Ask, pos: nat, length: nat)
    ensures AllFit([a], pos, length) <==> HasRoom(pos, length, a.room)
  {}

  lemma UnitAsksStep(s: Units, i: nat, pos: nat, length: nat)
    requires i < |s|
    ensures i + Width(s[i..]) <= |s|
    ensures AllFit(UnitAsks(s[i..]), pos, length) <==>
            HasRoom(pos, length, 4) &&
            AllFit(UnitAsks(s[i + Width(s[i..])..]), pos + |FirstBytes(s[i..])|, LengthFor(pos, length, 4))
  {
    var rest := s[i..];
    assert rest[Width(rest)..] == s[i + Width(rest)..];
    FitsFirst(Ask(4, |FirstBytes(rest)|), UnitAsks(rest[Width(rest)..]), pos, length);
  }

  lemma NoAsks(s: Units, pos: nat, length: nat)
    ensures AllFit(UnitAsks(s[|s|..]), pos, length)
  {}

  lemma {:induction false} UnitAsksUsed(s: Units)
    ensures Used(UnitAsks(s)) == |Utf8String(s)|
    ensures forall i :: 0 <= i < |UnitAsks(s)| ==> UnitAsks(s)[i].room == 4
  {
    if s != [] {
      Utf8StringStep(s, 0);
      assert s[0..] == s;
      UnitAsksUsed(s[Width(s)..]);
      assert UnitAsks(s)[1..] == UnitAsks(s[Width(s)..]);
    }
  }

  /** Up to half the range of a C int every string can be written. */
  lemma HalfFitsString(value: Nullable<Units>, pos: nat, length: nat)
    requires 2 * (pos + |StringBytes(value)|) + 9 <= INT_MAX
    ensures AllFit(StringAsks(value), pos, length)
  {
    match value
    case Null => HalfFits(StringAsks(value), pos, length);
    case Some(s) =>
      UnitAsksUsed(s);
      var first := Ask(5, |CompactInt(Bits(|Utf8String(s)|))|);
      assert ([first] + UnitAsks(s))[1..] == UnitAsks(s);
      HalfFits(StringAsks(value), pos, length);
  }

  /** The bytes of the first code point of a string */
  function FirstBytes(s: Units): seq<bv8>
    requires s != []
  {
    FirstIsPoint(s);
    Utf8(FirstPoint(s))
  }

  lemma Utf8StringStep(s: Units, i: nat)
    requires i < |s|
    ensures i + Width(s[i..]) <= |s|
    ensures Utf8String(s[i..]) == FirstBytes(s[i..]) + Utf8String(s[i + Width(s[i..])..])
  {
    hide Utf8, FirstPoint;
    assert s[i..][Width(s[i..])..] == s[i + Width(s[i..])..];
  }

  lemma NoUnits(s: Units)
    ensures Utf8String(s[|s|..]) == []
  {}

  lemma WroteNothing(s: seq<bv8>, pos: nat)
    requires pos <= |s|
    ensures Wrote(s, s, pos, [])
  {}

  /** The form of the first code point of a string, by its first unit. */
  lemma FirstBytesAre(s: Units)
    requires s != []
    ensures StartsWithPair(s) ==> s[0] > 0x7FF
    ensures FirstBytes(s) ==
            if s[0] <= 0x7F then [Byte(s[0] as bv32)]
            else if s[0] <= 0x7FF then Utf2(s[0] as bv32)
            else if StartsWithPair(s) then Utf4(PairPoint(s[0], s[1])) else Utf3(s[0] as bv32)
  {
    FirstIsPoint(s);
    UnitRanges(s[0]);
    hide PairPoint, Byte, Utf2, Utf3, Utf4, IsHighSurrogate, IsLowSurrogate;
  }

  lemma UnitRanges(u: Unit)
    ensures u as bv32 <= 0xFFFF
    ensures u <= 0x7F <==> u as bv32 <= 0x7F
    ensures u <= 0x7FF <==> u as bv32 <= 0x7FF
    ensures IsHighSurrogate(u) ==> u > 0x7FF
  {}

  lemma NegativeIsNoPoint(cp: bv32)
    requires Negative(cp)
    ensures !IsCodePoint(cp)
  {}

  // ---------- growing in figures ----------

  /** A buffer grows to the least size that is at least twice the old one or else the largest there is,
      at least 1024 and at least what is needed. */
  lemma GrownExactly(length: nat, needed: nat)
    ensures var r := Grown(length, needed);
            && r >= needed && r >= 1024 && (r >= 2 * length || r >= 0x7FFF_FFFF)
            && (r == needed || r == 1024 || r == 2 * length || r == 0x7FFF_FFFF)
            && (r == 0x7FFF_FFFF && r > needed && r > 1024 ==> r <= 2 * length)
  {}
}
