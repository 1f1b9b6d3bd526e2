/** Framing of messages: a message is composed behind one reserved byte, and its length is put before
    it afterwards, moving the message when its length takes more than that byte. */
module Framing {
  import opened CompactFormat
  import opened Lengths
  import opened Utf8Format
  import opened BufferedOutput
  import opened BufferedInput

  /** A message of the wire: its length in bytes, then its body. */
  function Frame(body: seq<bv8>): seq<bv8> {
    CompactInt(Bits(|body|)) + body
  }

  /** dx_compose_message_header */
  method ComposeHeader(out: OutBuffer, messageType: bv32) returns (ok: bool)
    requires out.Valid() && out.pos + 6 <= INT_MAX
    modifies out, out.buffer
    ensures ok ==> out.Appended([0] + CompactInt(messageType))
    ensures !ok ==> out.Appended([]) || out.Appended([0])
    ensures ok <==> old(out.buffer) != null &&
                    AllFit([Ask(1, 1), Ask(5, |CompactInt(messageType)|)], old(out.pos), old(out.Length()))
  {
    hide Wrote, CompactInt, AllFit, HasRoom, LengthFor;
    ghost var last := Ask(5, |CompactInt(messageType)|);
    assert [Ask(1, 1), last] == [Ask(1, 1)] + [last];
    FitsFirst(Ask(1, 1), [last], out.pos, out.Length());
    OneAsk(last, out.pos + 1, LengthFor(out.pos, out.Length(), 1));
    ok := out.WriteByte(0);
    if !ok {
      return;
    }
    ghost var mid := out.Contents();
    ok := out.WriteCompactInt(messageType);
    WroteThenWrote(old(out.Contents()), mid, out.Contents(), old(out.pos), [0],
                   if ok then CompactInt(messageType) else []);
    assert [0 as bv8] + [] == [0];
  }

  /** dx_move_message_data */
  method MoveMessageData(out: OutBuffer, oldOffset: nat, newOffset: nat, dataLength: nat) returns (ok: bool)
    requires out.Valid() && out.buffer != null && out.pos + newOffset + dataLength <= INT_MAX
    requires oldOffset + dataLength <= out.buffer.Length
    modifies out, out.buffer
    ensures out.Valid() && out.pos == old(out.pos) && out.buffer != null
    ensures out.buffer == old(out.buffer) || fresh(out.buffer)
    ensures ok <==> out.pos + old(out.buffer.Length) <= INT_MAX
    ensures ok ==> newOffset + dataLength <= out.buffer.Length
    ensures ok ==> out.buffer[newOffset..newOffset + dataLength] == old(out.buffer[oldOffset..oldOffset + dataLength])
  {
    hide Wrote;
    ghost var was := out.Contents();
    ok := out.EnsureCapacity(newOffset + dataLength);
    if ok {
      RangeKept(was, out.Contents(), out.pos, oldOffset, dataLength);
      MoveRange(out.buffer, oldOffset, newOffset, dataLength);
    }
  }

  /** The bytes of a range stay when the buffer grows. */
  lemma RangeKept(was: seq<bv8>, now: seq<bv8>, pos: nat, from: nat, n: nat)
    requires Wrote(was, now, pos, []) && from + n <= |was|
    ensures now[from..from + n] == was[from..from + n]
  {
    forall i | from <= i < from + n ensures now[i] == was[i] {
      if i < pos { assert now[i] == now[..pos][i] == was[..pos][i]; }
    }
  }

  /** The memmove of a range inside a buffer */
  method MoveRange(buffer: array<bv8>, from: nat, to: nat, n: nat)
    requires from + n <= buffer.Length && to + n <= buffer.Length
    modifies buffer
    ensures buffer[to..to + n] == old(buffer[from..from + n])
  {
    forall j | to <= j < to + n { buffer[j] := buffer[from + j - to]; }
    assert forall j :: to <= j < to + n ==> buffer[j] == old(buffer[from + j - to]);
  }

  /** dx_finish_composing_message: the frame of the bytes behind the reserved one is at the start of
      the buffer, unless the buffer cannot grow. */
  method FinishComposing(out: OutBuffer) returns (ok: bool)
    requires out.Valid() && out.buffer != null && out.pos >= 1 && 2 * out.pos + 4 <= INT_MAX
    modifies out, out.buffer
    ensures ok <==> || |CompactInt(Bits(old(out.pos) - 1))| == 1
                    || old(out.pos) + old(out.buffer.Length) <= INT_MAX
    ensures ok ==> out.Valid() && out.buffer != null && out.buffer[..out.pos] == Frame(old(out.buffer[1..out.pos]))
  {
    hide CompactInt, Bits, CompactSize;
    var messageLength := out.pos - 1;
    ghost var body := out.buffer[1..out.pos];
    SizeOfWidened(Bits(messageLength));
    ghost var head := CompactInt(Bits(messageLength));
    var lengthSize := CompactSize(Widen(Bits(messageLength)));
    if lengthSize > 1 {
      ok := MoveMessageData(out, 1, lengthSize, messageLength);
      if !ok {
        return;
      }
    }
    assert out.buffer[lengthSize..lengthSize + messageLength] == body;
    ok := PutLength(out, messageLength, body);
    out.pos := lengthSize + messageLength;
  }

  /** The length is written in front of the body. */
  method PutLength(out: OutBuffer, messageLength: nat, ghost body: seq<bv8>) returns (ok: bool)
    requires out.Valid() && out.buffer != null && |body| == messageLength <= INT_MAX
    requires var n := |CompactInt(Bits(messageLength))|;
             n + messageLength <= out.buffer.Length && out.buffer[n..n + messageLength] == body
    modifies out, out.buffer
    ensures ok && out.Valid() && out.buffer != null && (out.buffer == old(out.buffer) || fresh(out.buffer))
    ensures |Frame(body)| <= out.buffer.Length && out.buffer[..|Frame(body)|] == Frame(body)
  {
    hide CompactInt, Bits, Wrote;
    out.pos := 0;
    ghost var mid := out.Contents();
    ok := out.WriteCompactInt(Bits(messageLength));
    BodyBehind(mid, out.Contents(), CompactInt(Bits(messageLength)), body);
  }

  lemma BodyBehind(was: seq<bv8>, now: seq<bv8>, head: seq<bv8>, body: seq<bv8>)
    requires Wrote(was, now, 0, head)
    requires |head| + |body| <= |was| && was[|head|..|head| + |body|] == body
    ensures now[..|head| + |body|] == head + body
  {
    forall i | 0 <= i < |body| ensures now[|head| + i] == body[i] {
      assert was[|head|..|head| + |body|][i] == was[|head| + i];
    }
    assert now[0..|head|] == head;
  }

  // ---------- the receiving side ----------

  datatype LengthRead = Limited(limit: nat) | Incomplete | InvalidLength

  /** dx_read_message_length_and_set_buffer_limit, `size` bytes having been received. */
  method ReadLengthAndLimit(input: InBuffer, size: nat) returns (r: LengthRead)
    requires input.Valid()
    modifies input`pos
    ensures input.Valid()
    ensures r == if input.buffer == null then Incomplete else LimitAt(old(input.Rest()), old(input.pos), size)
    ensures r.Limited? ==> input.pos == old(input.pos) + ReadLong(old(input.Rest())).used
  {
    hide ReadLong, ToLength, Low, Less64, Widen, Bits;
    var ok, messageLength := input.ReadCompactLong();
    if !ok {
      return Incomplete;
    }
    if Less64(messageLength, 0) || Less64(0x7FFF_FFFF, messageLength)
       || ToLength(Low(messageLength)) > INT_MAX - input.pos {
      return InvalidLength;
    }
    var end := input.pos + ToLength(Low(messageLength));
    return if end > size then Incomplete else Limited(end);
  }

  /** What the receiver makes of the bytes ahead at a position, `size` bytes having been received. */
  function LimitAt(s: seq<bv8>, pos: nat, size: nat): LengthRead {
    match ReadLong(s)
    case Underflow(_) => Incomplete
    case Malformed(_) => Incomplete
    case Ok(length, k) =>
      if Less64(length, 0) || Less64(0x7FFF_FFFF, length) || ToLength(Low(length)) > INT_MAX - (pos + k) then
        InvalidLength
      else if pos + k + ToLength(Low(length)) > size then Incomplete
      else Limited(pos + k + ToLength(Low(length)))
  }

  lemma NotNegative(v: bv32)
    requires !Negative(v)
    ensures !Less64(Widen(v), 0)
  {}

  /** A framed message is delimited exactly, whatever follows: all of it must have been received, and
      the limit is set behind its last byte. */
  lemma FrameIsDelimited(body: seq<bv8>, rest: seq<bv8>, pos: nat, size: nat)
    requires pos + |Frame(body)| <= INT_MAX
    ensures LimitAt(Frame(body) + rest, pos, size) ==
            if pos + |Frame(body)| > size then Incomplete else Limited(pos + |Frame(body)|)
    ensures var k := ReadLong(Frame(body) + rest).used;
            k <= |Frame(body)| && (Frame(body) + rest)[k..|Frame(body)|] == body
  {
    hide ReadLong, ToLength, Low, Less64, Widen, Bits, CompactInt;
    var n := |body|;
    assert Frame(body) + rest == CompactInt(Bits(n)) + (body + rest);
    ReadsLength(n, body + rest);
    BitsNotNegative(n);
    NotNegative(Bits(n));
  }

  lemma IncompleteLength(p: seq<bv8>, pos: nat, size: nat)
    requires ReadLong(p).Underflow?
    ensures LimitAt(p, pos, size) == Incomplete
  {}

  /** As long as a byte of a framed message is missing, the receiver finds it incomplete. */
  lemma FramePrefixIsIncomplete(body: seq<bv8>, n: nat, pos: nat)
    requires n < |Frame(body)| && pos + |Frame(body)| <= INT_MAX
    ensures LimitAt(Frame(body)[..n], pos, pos + n) == Incomplete
  {
    hide ReadLong, ToLength, Low, Less64, Widen, Bits, CompactInt, LimitAt;
    var head := CompactInt(Bits(|body|));
    if n < |head| {
      assert Frame(body)[..n] == head[..n];
      IntPrefixUnderflows(Bits(|body|), n);
      IncompleteLength(head[..n], pos, pos + n);
    } else {
      assert Frame(body)[..n] == head + body[..n - |head|];
      LengthArrived(|body|, body[..n - |head|], pos, pos + n);
    }
  }

  lemma LengthArrived(n: nat, rest: seq<bv8>, pos: nat, size: nat)
    requires pos + |CompactInt(Bits(n))| + n <= INT_MAX && size < pos + |CompactInt(Bits(n))| + n
    ensures LimitAt(CompactInt(Bits(n)) + rest, pos, size) == Incomplete
  {
    hide ReadLong, ToLength, Low, Less64, Widen, Bits, CompactInt;
    ReadsLength(n, rest);
    BitsNotNegative(n);
    NotNegative(Bits(n));
  }

  lemma NotALength(length: bv64)
    ensures Less64(length, 0) || Less64(0x7FFF_FFFF, length) <==> length & 0xFFFF_FFFF_8000_0000 != 0
  {}

  /** A length is invalid exactly if it has arrived and is no C int of at least zero, or leads beyond the
      largest position. */
  lemma InvalidExactly(s: seq<bv8>, pos: nat, size: nat)
    ensures LimitAt(s, pos, size) == InvalidLength <==>
            var r := ReadLong(s);
            r.Ok? && (r.value & 0xFFFF_FFFF_8000_0000 != 0 || pos + r.used + ToLength(Low(r.value)) > 0x7FFF_FFFF)
  {
    hide ReadLong, ToLength, Low, Less64;
    if ReadLong(s).Ok? { NotALength(ReadLong(s).value); }
  }

  /** A message of 300 bytes */
  lemma FrameOnTheWire(body: seq<bv8>)
    requires |body| == 300
    ensures Frame(body) == [0x81, 0x2C] + body
  {
    assert Bits(300) == 300;
    assert CompactInt(300) == [0x81, 0x2C];
  }
}
