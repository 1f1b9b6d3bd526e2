/** The payload of a heartbeat message: a mask of the fields present, then those fields. */
module Heartbeat {
  import opened CompactFormat
  import opened Lengths
  import opened Utf8Format
  import opened BufferedOutput
  import opened BufferedInput

  const TIME_MILLIS: bv32 := 0x1
  const TIME_MARK: bv32 := 0x2
  const DELTA_MARK: bv32 := 0x4
  const LAG_MARK: bv32 := 0x8

  datatype Payload = Payload(mask: bv32, timeMillis: bv64, timeMark: bv32, deltaMark: bv32, lagMark: bv32) {
    predicate Has(content: bv32) { mask & content != 0 }

    function SetTimeMillis(v: bv64): Payload { this.(mask := mask | TIME_MILLIS, timeMillis := v) }
    function SetTimeMark(v: bv32): Payload { this.(mask := mask | TIME_MARK, timeMark := v) }
    function SetDeltaMark(v: bv32): Payload { this.(mask := mask | DELTA_MARK, deltaMark := v) }
    function SetLagMark(v: bv32): Payload { this.(mask := mask | LAG_MARK, lagMark := v) }

    /** What composeTo writes. */
    function Bytes(): seq<bv8> {
      CompactInt(mask) + FieldBytes()
    }

    function FieldBytes(): seq<bv8> {
      LongIf(Has(TIME_MILLIS), timeMillis) + MarkBytes()
    }

    function MarkBytes(): seq<bv8> {
      IntIf(Has(TIME_MARK), timeMark) + LastMarkBytes()
    }

    function LastMarkBytes(): seq<bv8> {
      IntIf(Has(DELTA_MARK), deltaMark) + IntIf(Has(LAG_MARK), lagMark)
    }

    function Asks(): seq<Ask> { IntAsk(true, mask) + FieldAsks() }

    function FieldAsks(): seq<Ask> { LongAsk(Has(TIME_MILLIS), timeMillis) + MarkAsks() }

    function MarkAsks(): seq<Ask> { IntAsk(Has(TIME_MARK), timeMark) + LastMarkAsks() }

    function LastMarkAsks(): seq<Ask> { IntAsk(Has(DELTA_MARK), deltaMark) + IntAsk(Has(LAG_MARK), lagMark) }
  }

  /** What composeTo asks for, write by write */
  function IntAsk(present: bool, v: bv32): seq<Ask> {
    if present then [Ask(5, |CompactInt(v)|)] else []
  }

  function LongAsk(present: bool, v: bv64): seq<Ask> {
    if present then [Ask(if v == Widen(Low(v)) then 5 else 9, |CompactLong(v)|)] else []
  }

  function IntIf(present: bool, v: bv32): seq<bv8> { if present then CompactInt(v) else [] }

  function LongIf(present: bool, v: bv64): seq<bv8> { if present then CompactLong(v) else [] }

  const Empty := Payload(0, 0, 0, 0, 0)

  // ---------- parsing ----------

  /** A payload being parsed: `used` bytes have been consumed; `ok` until a read fails. */
  datatype Parsing = Parsing(ok: bool, payload: Payload, used: nat)

  /** The bytes not consumed yet */
  function Ahead(s: seq<bv8>, used: nat): seq<bv8> {
    if used <= |s| then s[used..] else []
  }

  function IntField(s: seq<bv8>, present: bool, was: bv32): Read<bv32> {
    if present then ReadInt(s) else Ok(was, 0)
  }

  function LongField(s: seq<bv8>, present: bool, was: bv64): Read<bv64> {
    if present then ReadLong(s) else Ok(was, 0)
  }

  function ParseMask(p: Payload, s: seq<bv8>): Parsing {
    var r := ReadInt(s);
    Parsing(r.Ok?, if r.Ok? then p.(mask := r.value) else p, r.used)
  }

  function ParseTimeMillis(g: Parsing, s: seq<bv8>): Parsing {
    var r := LongField(Ahead(s, g.used), g.payload.Has(TIME_MILLIS), g.payload.timeMillis);
    Parsing(r.Ok?, if r.Ok? then g.payload.(timeMillis := r.value) else g.payload, g.used + r.used)
  }

  function ParseTimeMark(g: Parsing, s: seq<bv8>): Parsing {
    var r := IntField(Ahead(s, g.used), g.payload.Has(TIME_MARK), g.payload.timeMark);
    Parsing(r.Ok?, if r.Ok? then g.payload.(timeMark := r.value) else g.payload, g.used + r.used)
  }

  function ParseDeltaMark(g: Parsing, s: seq<bv8>): Parsing {
    var r := IntField(Ahead(s, g.used), g.payload.Has(DELTA_MARK), g.payload.deltaMark);
    Parsing(r.Ok?, if r.Ok? then g.payload.(deltaMark := r.value) else g.payload, g.used + r.used)
  }

  function ParseLagMark(g: Parsing, s: seq<bv8>): Parsing {
    var r := IntField(Ahead(s, g.used), g.payload.Has(LAG_MARK), g.payload.lagMark);
    Parsing(r.Ok?, if r.Ok? then g.payload.(lagMark := r.value) else g.payload, g.used + r.used)
  }

  /** The first read that fails ends the parsing. */
  function ParseFields(mask: Parsing, s: seq<bv8>): Parsing {
    var time := ParseTimeMillis(mask, s);
    if !time.ok then time else ParseMarks(time, s)
  }

  function ParseMarks(time: Parsing, s: seq<bv8>): Parsing {
    var mark := ParseTimeMark(time, s);
    if !mark.ok then mark
    else
      var delta := ParseDeltaMark(mark, s);
      if !delta.ok then delta else ParseLagMark(delta, s)
  }

  /** What parseFrom makes of a payload and the bytes ahead. */
  function Parsed(p: Payload, s: seq<bv8>): Parsing {
    var mask := ParseMask(p, s);
    if !mask.ok then mask else ParseFields(mask, s)
  }

  class HeartbeatPayload {
    var contentMask: bv32
    var timeMillis: bv64
    var timeMark: bv32
    var deltaMark: bv32
    var lagMark: bv32

    function Value(): Payload
      reads this
    {
      Payload(contentMask, timeMillis, timeMark, deltaMark, lagMark)
    }

    constructor ()
      ensures Value() == Empty
    {
      contentMask, timeMillis, timeMark, deltaMark, lagMark := 0, 0, 0, 0, 0;
    }

    method Clear()
      modifies this
      ensures Value() == Empty
    {
      contentMask, timeMillis, timeMark, deltaMark, lagMark := 0, 0, 0, 0, 0;
    }

    method SetTimeMillis(v: bv64)
      modifies this
      ensures Value() == old(Value()).SetTimeMillis(v)
    {
      contentMask := contentMask | TIME_MILLIS;
      timeMillis := v;
    }

    method SetTimeMark(v: bv32)
      modifies this
      ensures Value() == old(Value()).SetTimeMark(v)
    {
      contentMask := contentMask | TIME_MARK;
      timeMark := v;
    }

    method SetDeltaMark(v: bv32)
      modifies this
      ensures Value() == old(Value()).SetDeltaMark(v)
    {
      contentMask := contentMask | DELTA_MARK;
      deltaMark := v;
    }

    method SetLagMark(v: bv32)
      modifies this
      ensures Value() == old(Value()).SetLagMark(v)
    {
      contentMask := contentMask | LAG_MARK;
      lagMark := v;
    }

    /** parseFrom; what was read before a failure stays. */
    method ParseFrom(input: InBuffer) returns (ok: bool)
      requires input.Valid()
      modifies this, input`pos
      ensures input.Valid() && input.pos >= old(input.pos)
      ensures input.buffer == null ==> !ok && Value() == old(Value()) && input.pos == old(input.pos)
      ensures input.buffer != null ==>
                Parsing(ok, Value(), input.pos - old(input.pos)) == Parsed(old(Value()), old(input.Rest()))
    {
      hide ReadInt, ParseFields;
      ghost var s := input.Rest();
      var mask;
      ok, mask := input.ReadCompactInt();
      if !ok {
        return;
      }
      contentMask := mask;
      IntWithin(s);
      ok := ParseFieldsFrom(input, s, ReadInt(s).used);
    }

    /** parseFrom after the mask, which took `used` bytes */
    method ParseFieldsFrom(input: InBuffer, ghost s: seq<bv8>, ghost used: nat) returns (ok: bool)
      requires input.Valid() && input.buffer != null && input.Rest() == Ahead(s, used) && used <= |s|
      modifies this, input`pos
      ensures input.Valid() && input.pos >= old(input.pos)
      ensures Parsing(ok, Value(), input.pos - old(input.pos) + used) ==
              ParseFields(Parsing(true, old(Value()), used), s)
    {
      hide ParseTimeMillis, ParseTimeMark, ParseDeltaMark, ParseLagMark;
      ghost var g := Parsing(true, Value(), used);
      ok := TimeMillisFrom(input, s, g);
      g := ParseTimeMillis(g, s);
      if !ok {
        return;
      }
      ok := TimeMarkFrom(input, s, g);
      g := ParseTimeMark(g, s);
      if !ok {
        return;
      }
      ok := DeltaMarkFrom(input, s, g);
      g := ParseDeltaMark(g, s);
      if !ok {
        return;
      }
      ok := LagMarkFrom(input, s, g);
    }

    /** The parsing of `s` has come to `g`, and nothing has failed. */
    ghost predicate StandsAt(input: InBuffer, s: seq<bv8>, g: Parsing)
      reads this, input, input.buffer
    {
      && input.Valid() && input.buffer != null && g.ok && g.payload == Value()
      && g.used <= |s| && input.Rest() == Ahead(s, g.used)
    }

    method TimeMillisFrom(input: InBuffer, ghost s: seq<bv8>, ghost g: Parsing) returns (ok: bool)
      requires StandsAt(input, s, g)
      modifies this, input`pos
      ensures var h := ParseTimeMillis(g, s);
              ok == h.ok && Value() == h.payload && input.Valid()
              && input.pos == old(input.pos) + h.used - g.used && h.used >= g.used
              && (ok ==> StandsAt(input, s, h))
    {
      hide IntField, LongField, Ahead;
      ok, timeMillis := ReadLongIf(input, contentMask & TIME_MILLIS != 0, timeMillis, s, g.used);
    }

    method TimeMarkFrom(input: InBuffer, ghost s: seq<bv8>, ghost g: Parsing) returns (ok: bool)
      requires StandsAt(input, s, g)
      modifies this, input`pos
      ensures var h := ParseTimeMark(g, s);
              ok == h.ok && Value() == h.payload && input.Valid()
              && input.pos == old(input.pos) + h.used - g.used && h.used >= g.used
              && (ok ==> StandsAt(input, s, h))
    {
      hide IntField, LongField, Ahead;
      ok, timeMark := ReadIntIf(input, contentMask & TIME_MARK != 0, timeMark, s, g.used);
    }

    method DeltaMarkFrom(input: InBuffer, ghost s: seq<bv8>, ghost g: Parsing) returns (ok: bool)
      requires StandsAt(input, s, g)
      modifies this, input`pos
      ensures var h := ParseDeltaMark(g, s);
              ok == h.ok && Value() == h.payload && input.Valid()
              && input.pos == old(input.pos) + h.used - g.used && h.used >= g.used
              && (ok ==> StandsAt(input, s, h))
    {
      hide IntField, LongField, Ahead;
      ok, deltaMark := ReadIntIf(input, contentMask & DELTA_MARK != 0, deltaMark, s, g.used);
    }

    method LagMarkFrom(input: InBuffer, ghost s: seq<bv8>, ghost g: Parsing) returns (ok: bool)
      requires StandsAt(input, s, g)
      modifies this, input`pos
      ensures var h := ParseLagMark(g, s);
              ok == h.ok && Value() == h.payload && input.Valid()
              && input.pos == old(input.pos) + h.used - g.used && h.used >= g.used
              && (ok ==> StandsAt(input, s, h))
    {
      hide IntField, LongField, Ahead;
      ok, lagMark := ReadIntIf(input, contentMask & LAG_MARK != 0, lagMark, s, g.used);
    }

    /** One field of parseFrom, `used` bytes into the payload */
    static method ReadIntIf(input: InBuffer, present: bool, was: bv32, ghost s: seq<bv8>, ghost used: nat)
      returns (ok: bool, value: bv32)
      requires input.Valid() && input.buffer != null && input.Rest() == Ahead(s, used) && used <= |s|
      modifies input`pos
      ensures input.Valid()
      ensures var r := IntField(Ahead(s, used), present, was);
              && ok == r.Ok? && value == (if r.Ok? then r.value else was) && input.pos == old(input.pos) + r.used
              && (ok ==> used + r.used <= |s| && input.Rest() == Ahead(s, used + r.used))
    {
      hide ReadInt;
      IntWithin(input.Rest());
      ok, value := true, was;
      if present {
        var v;
        ok, v := input.ReadCompactInt();
        value := if ok then v else was;
        DroppedTwice(s, used, input.pos - old(input.pos));
      }
    }

    static method ReadLongIf(input: InBuffer, present: bool, was: bv64, ghost s: seq<bv8>, ghost used: nat)
      returns (ok: bool, value: bv64)
      requires input.Valid() && input.buffer != null && input.Rest() == Ahead(s, used) && used <= |s|
      modifies input`pos
      ensures input.Valid()
      ensures var r := LongField(Ahead(s, used), present, was);
              && ok == r.Ok? && value == (if r.Ok? then r.value else was) && input.pos == old(input.pos) + r.used
              && (ok ==> used + r.used <= |s| && input.Rest() == Ahead(s, used + r.used))
    {
      hide ReadLong;
      LongWithin(input.Rest());
      ok, value := true, was;
      if present {
        var v;
        ok, v := input.ReadCompactLong();
        value := if ok then v else was;
        DroppedTwice(s, used, input.pos - old(input.pos));
      }
    }

    /** composeTo; `sent` is written, all there is unless the buffer cannot grow. */
    method ComposeTo(out: OutBuffer) returns (ok: bool, ghost sent: seq<bv8>)
      requires out.Valid() && out.pos + |Value().Bytes()| + 9 <= INT_MAX
      modifies out, out.buffer
      ensures sent <= Value().Bytes() && out.Appended(sent)
      ensures ok ==> sent == Value().Bytes()
      ensures ok <==> old(out.buffer) != null && AllFit(Value().Asks(), old(out.pos), old(out.Length()))
    {
      hide CompactInt, Wrote, Payload.FieldBytes, Payload.FieldAsks, AllFit, HasRoom, LengthFor;
      ghost var mid: seq<bv8>;
      ghost var fields: seq<bv8>;
      FitsFirst(Ask(5, |CompactInt(contentMask)|), Value().FieldAsks(), out.pos, out.Length());
      ok := out.WriteCompactInt(contentMask);
      sent := if ok then CompactInt(contentMask) else [];
      if !ok {
        return;
      }
      mid := out.Contents();
      ok, fields := ComposeTime(out);
      WroteThenWrote(old(out.Contents()), mid, out.Contents(), old(out.pos), sent, fields);
      sent := sent + fields;
    }

    /** The time and the marks behind the mask */
    method ComposeTime(out: OutBuffer) returns (ok: bool, ghost sent: seq<bv8>)
      requires out.Valid() && out.buffer != null && out.pos + |Value().FieldBytes()| + 9 <= INT_MAX
      modifies out, out.buffer
      ensures sent <= Value().FieldBytes() && out.Appended(sent)
      ensures ok ==> sent == Value().FieldBytes()
      ensures ok <==> AllFit(Value().FieldAsks(), old(out.pos), old(out.Length()))
    {
      hide LongIf, LongAsk, Wrote, Payload.MarkBytes, Payload.MarkAsks, AllFit, LengthAfter, Used;
      ghost var v := Value();
      ghost var asks := LongAsk(v.Has(TIME_MILLIS), timeMillis);
      FitsConcat(asks, v.MarkAsks(), out.pos, out.Length());
      ok := WriteLongIf(out, contentMask & TIME_MILLIS != 0, timeMillis);
      sent := if ok then LongIf(v.Has(TIME_MILLIS), timeMillis) else [];
      if !ok {
        return;
      }
      ghost var mid, marks: seq<bv8> := out.Contents(), [];
      ok, marks := ComposeMarks(out);
      WroteThenWrote(old(out.Contents()), mid, out.Contents(), old(out.pos), sent, marks);
      sent := sent + marks;
    }

    /** The three marks, as far as they are present */
    method ComposeMarks(out: OutBuffer) returns (ok: bool, ghost sent: seq<bv8>)
      requires out.Valid() && out.buffer != null && out.pos + |Value().MarkBytes()| + 5 <= INT_MAX
      modifies out, out.buffer
      ensures sent <= Value().MarkBytes() && out.Appended(sent)
      ensures ok ==> sent == Value().MarkBytes()
      ensures ok <==> AllFit(Value().MarkAsks(), old(out.pos), old(out.Length()))
    {
      hide Wrote, IntIf, IntAsk, Payload.LastMarkBytes, Payload.LastMarkAsks, AllFit, LengthAfter, Used;
      ghost var v := Value();
      ghost var first := IntIf(v.Has(TIME_MARK), timeMark);
      FitsConcat(IntAsk(v.Has(TIME_MARK), timeMark), v.LastMarkAsks(), out.pos, out.Length());
      ok := WriteIntIf(out, contentMask & TIME_MARK != 0, timeMark);
      sent := if ok then first else [];
      if !ok {
        return;
      }
      ghost var mid, others: seq<bv8> := out.Contents(), [];
      ok, others := ComposeLastMarks(out);
      WroteThenWrote(old(out.Contents()), mid, out.Contents(), old(out.pos), sent, others);
      sent := sent + others;
    }

    /** The delta mark and the lag mark */
    method ComposeLastMarks(out: OutBuffer) returns (ok: bool, ghost sent: seq<bv8>)
      requires out.Valid() && out.buffer != null && out.pos + |Value().LastMarkBytes()| + 5 <= INT_MAX
      modifies out, out.buffer
      ensures sent <= Value().LastMarkBytes() && out.Appended(sent)
      ensures ok ==> sent == Value().LastMarkBytes()
      ensures ok <==> AllFit(Value().LastMarkAsks(), old(out.pos), old(out.Length()))
    {
      hide Wrote, IntIf, IntAsk, AllFit, LengthAfter, Used;
      ghost var v := Value();
      ghost var delta, lag := IntIf(v.Has(DELTA_MARK), deltaMark), IntIf(v.Has(LAG_MARK), lagMark);
      FitsConcat(IntAsk(v.Has(DELTA_MARK), deltaMark), IntAsk(v.Has(LAG_MARK), lagMark), out.pos, out.Length());
      ok := WriteIntIf(out, contentMask & DELTA_MARK != 0, deltaMark);
      sent := if ok then delta else [];
      if !ok {
        return;
      }
      ghost var mid := out.Contents();
      ok := WriteIntIf(out, contentMask & LAG_MARK != 0, lagMark);
      WroteThenWrote(old(out.Contents()), mid, out.Contents(), old(out.pos), sent, if ok then lag else []);
      sent := sent + if ok then lag else [];
    }

    static method WriteIntIf(out: OutBuffer, present: bool, v: bv32) returns (ok: bool)
      requires out.Valid() && out.buffer != null && out.pos + 5 <= INT_MAX
      modifies out, out.buffer
      ensures out.Appended(if ok then IntIf(present, v) else []) && out.buffer != null
      ensures ok <==> AllFit(IntAsk(present, v), old(out.pos), old(out.Length()))
      ensures ok ==> out.Length() == LengthAfter(IntAsk(present, v), old(out.pos), old(out.Length()))
      ensures Used(IntAsk(present, v)) == |IntIf(present, v)|
    {
      hide CompactInt, Wrote;
      ok := true;
      if present {
        OneAsk(Ask(5, |CompactInt(v)|), out.pos, out.Length());
        ok := out.WriteCompactInt(v);
      } else {
        WroteNothing(out.Contents(), out.pos);
      }
    }

    static method WriteLongIf(out: OutBuffer, present: bool, v: bv64) returns (ok: bool)
      requires out.Valid() && out.buffer != null && out.pos + 9 <= INT_MAX
      modifies out, out.buffer
      ensures out.Appended(if ok then LongIf(present, v) else []) && out.buffer != null
      ensures ok <==> AllFit(LongAsk(present, v), old(out.pos), old(out.Length()))
      ensures ok ==> out.Length() == LengthAfter(LongAsk(present, v), old(out.pos), old(out.Length()))
      ensures Used(LongAsk(present, v)) == |LongIf(present, v)|
    {
      hide CompactLong, Wrote, Widen, Low;
      ok := true;
      if present {
        OneAsk(LongAsk(true, v)[0], out.pos, out.Length());
        ok := out.WriteCompactLong(v);
      } else {
        WroteNothing(out.Contents(), out.pos);
      }
    }
  }

  ghost predicate SmallRooms(asks: seq<Ask>) {
    forall i :: 0 <= i < |asks| ==> asks[i].room <= 9
  }

  lemma IntAskIs(present: bool, v: bv32)
    ensures Used(IntAsk(present, v)) == |IntIf(present, v)| && SmallRooms(IntAsk(present, v))
  {
    hide CompactInt;
  }

  lemma LongAskIs(present: bool, v: bv64)
    ensures Used(LongAsk(present, v)) == |LongIf(present, v)| && SmallRooms(LongAsk(present, v))
  {
    hide CompactLong, Widen, Low;
  }

  lemma BothAsks(a: seq<Ask>, b: seq<Ask>, x: seq<bv8>, y: seq<bv8>)
    requires Used(a) == |x| && Used(b) == |y| && SmallRooms(a) && SmallRooms(b)
    ensures Used(a + b) == |x + y| && SmallRooms(a + b)
  {
    FitsConcat(a, b, 0, 0);
  }

  /** Up to half the range of a C int every payload can be written. */
  lemma HalfFitsPayload(p: Payload, pos: nat, length: nat)
    requires 2 * (pos + |p.Bytes()|) + 9 <= INT_MAX
    ensures AllFit(p.Asks(), pos, length)
  {
    hide AllFit, Used, SmallRooms, IntAsk, LongAsk, IntIf, LongIf, CompactInt;
    IntAskIs(true, p.mask);
    LongAskIs(p.Has(TIME_MILLIS), p.timeMillis);
    IntAskIs(p.Has(TIME_MARK), p.timeMark);
    IntAskIs(p.Has(DELTA_MARK), p.deltaMark);
    IntAskIs(p.Has(LAG_MARK), p.lagMark);
    BothAsks(IntAsk(p.Has(DELTA_MARK), p.deltaMark), IntAsk(p.Has(LAG_MARK), p.lagMark),
             IntIf(p.Has(DELTA_MARK), p.deltaMark), IntIf(p.Has(LAG_MARK), p.lagMark));
    BothAsks(IntAsk(p.Has(TIME_MARK), p.timeMark), p.LastMarkAsks(),
             IntIf(p.Has(TIME_MARK), p.timeMark), p.LastMarkBytes());
    BothAsks(LongAsk(p.Has(TIME_MILLIS), p.timeMillis), p.MarkAsks(),
             LongIf(p.Has(TIME_MILLIS), p.timeMillis), p.MarkBytes());
    MaskFirst(p);
    BothAsks(IntAsk(true, p.mask), p.FieldAsks(), IntIf(true, p.mask), p.FieldBytes());
    AsksFit(p.Asks(), pos, length);
  }

  lemma MaskFirst(p: Payload)
    ensures p.Bytes() == IntIf(true, p.mask) + p.FieldBytes()
  {}

  lemma AsksFit(asks: seq<Ask>, pos: nat, length: nat)
    requires SmallRooms(asks) && 2 * (pos + Used(asks)) + 9 <= INT_MAX
    ensures AllFit(asks, pos, length)
  {
    HalfFits(asks, pos, length);
  }

  lemma DroppedTwice(s: seq<bv8>, j: nat, k: nat)
    requires j <= |s|
    ensures j + k <= |s| ==> s[j..][k..] == s[j + k..]
  {}

  // ---------- what comes back ----------

  datatype Setting = TimeMillis(time: bv64) | TimeMark(mark: bv32) | DeltaMark(mark: bv32) | LagMark(mark: bv32) | Clear

  function Apply(p: Payload, op: Setting): Payload {
    match op
    case TimeMillis(v) => p.SetTimeMillis(v)
    case TimeMark(v) => p.SetTimeMark(v)
    case DeltaMark(v) => p.SetDeltaMark(v)
    case LagMark(v) => p.SetLagMark(v)
    case Clear => Empty
  }

  /** The payload after calls of its setters and of clear */
  function Reached(ops: seq<Setting>): Payload {
    if ops == [] then Empty else Apply(Reached(ops[..|ops| - 1]), ops[|ops| - 1])
  }

  /** Fields that are not present are zero. */
  predicate Kept(p: Payload) {
    && (!p.Has(TIME_MILLIS) ==> p.timeMillis == 0)
    && (!p.Has(TIME_MARK) ==> p.timeMark == 0)
    && (!p.Has(DELTA_MARK) ==> p.deltaMark == 0)
    && (!p.Has(LAG_MARK) ==> p.lagMark == 0)
  }

  lemma {:induction false} ReachedKept(ops: seq<Setting>)
    ensures Kept(Reached(ops))
  {
    if ops != [] {
      ReachedKept(ops[..|ops| - 1]);
      SettingKeeps(Reached(ops[..|ops| - 1]), ops[|ops| - 1]);
    }
  }

  lemma SettingKeeps(p: Payload, op: Setting)
    requires Kept(p)
    ensures Kept(Apply(p, op))
  {
    match op
    case TimeMillis(_) => BitSet(p.mask, TIME_MILLIS);
    case TimeMark(_) => BitSet(p.mask, TIME_MARK);
    case DeltaMark(_) => BitSet(p.mask, DELTA_MARK);
    case LagMark(_) => BitSet(p.mask, LAG_MARK);
    case Clear =>
  }

  lemma BitSet(mask: bv32, c: bv32)
    requires c == 1 || c == 2 || c == 4 || c == 8
    ensures (mask | c) & c != 0
    ensures mask & 1 != 0 ==> (mask | c) & 1 != 0
    ensures mask & 2 != 0 ==> (mask | c) & 2 != 0
    ensures mask & 4 != 0 ==> (mask | c) & 4 != 0
    ensures mask & 8 != 0 ==> (mask | c) & 8 != 0
  {}

  /** A payload as it comes back: a time that loses its sign is later by 0x4000. */
  function Restored(p: Payload): Payload {
    if p.Has(TIME_MILLIS) && LosesSign(p.timeMillis) then p.(timeMillis := p.timeMillis + 0x4000) else p
  }

  lemma AheadIs(done: seq<bv8>, tail: seq<bv8>)
    ensures Ahead(done + tail, |done|) == tail
  {}

  lemma IntFieldBack(done: seq<bv8>, present: bool, v: bv32, tail: seq<bv8>)
    ensures IntField(Ahead(done + (IntIf(present, v) + tail), |done|), present, 0) ==
            Ok(if present then v else 0, |IntIf(present, v)|)
  {
    hide CompactInt, ReadInt;
    AheadIs(done, IntIf(present, v) + tail);
    IntRoundTrip(v, tail);
  }

  lemma LongFieldBack(done: seq<bv8>, present: bool, v: bv64, tail: seq<bv8>)
    ensures LongField(Ahead(done + (LongIf(present, v) + tail), |done|), present, 0) ==
            Ok(if !present then 0 else if LosesSign(v) then v + 0x4000 else v, |LongIf(present, v)|)
  {
    hide CompactLong, ReadLong, LosesSign;
    AheadIs(done, LongIf(present, v) + tail);
    LongRoundTrip(v, tail);
  }

  lemma MaskBack(p: Payload, tail: seq<bv8>)
    ensures ParseMask(Empty, CompactInt(p.mask) + tail) == Parsing(true, Empty.(mask := p.mask), |CompactInt(p.mask)|)
  {
    hide CompactInt, ReadInt;
    IntRoundTrip(p.mask, tail);
  }

  lemma TimeMillisBack(g: Parsing, done: seq<bv8>, v: bv64, tail: seq<bv8>)
    requires g.used == |done| && g.payload.timeMillis == 0 && (!g.payload.Has(TIME_MILLIS) ==> v == 0)
    ensures var field := LongIf(g.payload.Has(TIME_MILLIS), v);
            var back := if g.payload.Has(TIME_MILLIS) && LosesSign(v) then v + 0x4000 else v;
            ParseTimeMillis(g, done + (field + tail)) == Parsing(true, g.payload.(timeMillis := back), |done + field|)
  {
    hide LongIf, LongField, Ahead, LosesSign;
    LongFieldBack(done, g.payload.Has(TIME_MILLIS), v, tail);
  }

  lemma TimeMarkBack(g: Parsing, done: seq<bv8>, v: bv32, tail: seq<bv8>)
    requires g.used == |done| && g.payload.timeMark == 0 && (!g.payload.Has(TIME_MARK) ==> v == 0)
    ensures var field := IntIf(g.payload.Has(TIME_MARK), v);
            ParseTimeMark(g, done + (field + tail)) == Parsing(true, g.payload.(timeMark := v), |done + field|)
  {
    hide IntIf, IntField, Ahead;
    IntFieldBack(done, g.payload.Has(TIME_MARK), v, tail);
  }

  lemma DeltaMarkBack(g: Parsing, done: seq<bv8>, v: bv32, tail: seq<bv8>)
    requires g.used == |done| && g.payload.deltaMark == 0 && (!g.payload.Has(DELTA_MARK) ==> v == 0)
    ensures var field := IntIf(g.payload.Has(DELTA_MARK), v);
            ParseDeltaMark(g, done + (field + tail)) == Parsing(true, g.payload.(deltaMark := v), |done + field|)
  {
    hide IntIf, IntField, Ahead;
    IntFieldBack(done, g.payload.Has(DELTA_MARK), v, tail);
  }

  lemma LagMarkBack(g: Parsing, done: seq<bv8>, v: bv32, tail: seq<bv8>)
    requires g.used == |done| && g.payload.lagMark == 0 && (!g.payload.Has(LAG_MARK) ==> v == 0)
    ensures var field := IntIf(g.payload.Has(LAG_MARK), v);
            ParseLagMark(g, done + (field + tail)) == Parsing(true, g.payload.(lagMark := v), |done + field|)
  {
    hide IntIf, IntField, Ahead;
    IntFieldBack(done, g.payload.Has(LAG_MARK), v, tail);
  }

  /** The marks come back behind what has been read. */
  lemma MarksBack(g: Parsing, done: seq<bv8>, p: Payload, rest: seq<bv8>)
    requires g.used == |done| && g.payload.mask == p.mask && Kept(p)
    requires g.payload.timeMark == g.payload.deltaMark == g.payload.lagMark == 0
    ensures ParseMarks(g, done + (p.MarkBytes() + rest)) ==
            Parsing(true, g.payload.(timeMark := p.timeMark, deltaMark := p.deltaMark, lagMark := p.lagMark),
                    |done| + |p.MarkBytes()|)
  {
    hide IntIf, ParseTimeMark, ParseDeltaMark, ParseLagMark;
    var c, d := IntIf(p.Has(TIME_MARK), p.timeMark), IntIf(p.Has(DELTA_MARK), p.deltaMark);
    var e := IntIf(p.Has(LAG_MARK), p.lagMark);
    assert done + (p.MarkBytes() + rest) == done + (c + (d + (e + rest))) == done + c + (d + (e + rest))
           == done + c + d + (e + rest);
    TimeMarkBack(g, done, p.timeMark, d + (e + rest));
    var h := Parsing(true, g.payload.(timeMark := p.timeMark), |done + c|);
    DeltaMarkBack(h, done + c, p.deltaMark, e + rest);
    LagMarkBack(Parsing(true, h.payload.(deltaMark := p.deltaMark), |done + c + d|), done + c + d, p.lagMark, rest);
  }

  /** What composeTo wrote is parsed into a fresh payload and consumed entirely, whatever follows. */
  lemma Regrouped(a: seq<bv8>, b: seq<bv8>, c: seq<bv8>, d: seq<bv8>)
    ensures a + (b + c) + d == a + (b + (c + d)) == a + b + (c + d)
  {}

  lemma ParsedBack(p: Payload, rest: seq<bv8>)
    requires Kept(p)
    ensures Parsed(Empty, p.Bytes() + rest) == Parsing(true, Restored(p), |p.Bytes()|)
  {
    hide CompactInt, LongIf, LosesSign, ParseMask, ParseTimeMillis, ParseMarks, Payload.MarkBytes;
    var a, b, marks := CompactInt(p.mask), LongIf(p.Has(TIME_MILLIS), p.timeMillis), p.MarkBytes();
    Regrouped(a, b, marks, rest);
    var g := Parsing(true, Empty.(mask := p.mask), |a|);
    MaskBack(p, b + (marks + rest));
    TimeMillisBack(g, a, p.timeMillis, marks + rest);
    MarksBack(Parsing(true, g.payload.(timeMillis := Restored(p).timeMillis), |a + b|), a + b, p, rest);
  }

  /** Every payload the setters can reach comes back exactly, unless its time loses its sign. */
  lemma HeartbeatRoundTrip(ops: seq<Setting>, rest: seq<bv8>)
    ensures var p := Reached(ops);
            Parsed(Empty, p.Bytes() + rest) == Parsing(true, p, |p.Bytes()|) <==>
            !(p.Has(TIME_MILLIS) && LosesSign(p.timeMillis))
  {
    ReachedKept(ops);
    ParsedBack(Reached(ops), rest);
    OtherNumber(Reached(ops).timeMillis);
  }

  /** In particular every time before 2 to the power of 63 comes back. */
  lemma TimesComeBack(ops: seq<Setting>, rest: seq<bv8>)
    requires !Negative64(Reached(ops).timeMillis)
    ensures Parsed(Empty, Reached(ops).Bytes() + rest) == Parsing(true, Reached(ops), |Reached(ops).Bytes()|)
  {
    HeartbeatRoundTrip(ops, rest);
    PositiveKeepsSign(Reached(ops).timeMillis);
  }

  lemma PositiveKeepsSign(v: bv64)
    requires !Negative64(v)
    ensures !LosesSign(v)
  {}

  // ---------- payloads that have not fully arrived ----------

  /** What a step makes of a payload cut off at `n`: the same while it ends before, else a failure. */
  ghost predicate CutOff(whole: Parsing, cut: Parsing, n: nat) {
    whole.ok ==> if whole.used <= n then cut == whole else !cut.ok
  }

  lemma IntFieldCut(s: seq<bv8>, used: nat, present: bool, was: bv32, n: nat)
    requires used <= n <= |s|
    ensures var r, cut := IntField(Ahead(s, used), present, was), IntField(Ahead(s[..n], used), present, was);
            r.Ok? ==> if used + r.used <= n then cut == r else !cut.Ok?
  {
    hide ReadInt;
    var ahead := s[used..];
    assert s[..n][used..] == ahead[..n - used];
    if present && ReadInt(ahead).Ok? {
      if used + ReadInt(ahead).used <= n { IntStays(ahead, n - used); } else { IntNeedsAll(ahead, n - used); }
    }
  }

  lemma LongFieldCut(s: seq<bv8>, used: nat, present: bool, was: bv64, n: nat)
    requires used <= n <= |s|
    ensures var r, cut := LongField(Ahead(s, used), present, was), LongField(Ahead(s[..n], used), present, was);
            r.Ok? ==> if used + r.used <= n then cut == r else !cut.Ok?
  {
    hide ReadLong;
    var ahead := s[used..];
    assert s[..n][used..] == ahead[..n - used];
    if present && ReadLong(ahead).Ok? {
      if used + ReadLong(ahead).used <= n { LongStays(ahead, n - used); } else { LongNeedsAll(ahead, n - used); }
    }
  }

  lemma MarksCut(g: Parsing, s: seq<bv8>, n: nat)
    requires g.used <= n <= |s|
    ensures CutOff(ParseMarks(g, s), ParseMarks(g, s[..n]), n)
  {
    hide IntField, Ahead;
    IntFieldCut(s, g.used, g.payload.Has(TIME_MARK), g.payload.timeMark, n);
    var h := ParseTimeMark(g, s);
    if h.ok && h.used <= n {
      IntFieldCut(s, h.used, h.payload.Has(DELTA_MARK), h.payload.deltaMark, n);
      var d := ParseDeltaMark(h, s);
      if d.ok && d.used <= n {
        IntFieldCut(s, d.used, d.payload.Has(LAG_MARK), d.payload.lagMark, n);
      }
    }
  }

  lemma FieldsCut(g: Parsing, s: seq<bv8>, n: nat)
    requires g.used <= n <= |s|
    ensures CutOff(ParseFields(g, s), ParseFields(g, s[..n]), n)
  {
    hide LongField, Ahead, ParseMarks;
    LongFieldCut(s, g.used, g.payload.Has(TIME_MILLIS), g.payload.timeMillis, n);
    var h := ParseTimeMillis(g, s);
    if h.ok && h.used <= n { MarksCut(h, s, n); } else if h.ok { MarksGrow(h, s); }
  }

  lemma MarksGrow(g: Parsing, s: seq<bv8>)
    ensures ParseMarks(g, s).used >= g.used
  {
    hide IntField;
  }

  lemma FieldsGrow(g: Parsing, s: seq<bv8>)
    ensures ParseFields(g, s).used >= g.used
  {
    hide LongField, ParseMarks;
    MarksGrow(ParseTimeMillis(g, s), s);
  }

  /** As long as a byte of a payload is missing, it is not parsed. */
  lemma PayloadPrefixFails(p: Payload, n: nat)
    requires Kept(p) && n < |p.Bytes()|
    ensures !Parsed(Empty, p.Bytes()[..n]).ok
  {
    hide ReadInt, ParseFields, CompactInt;
    var s := p.Bytes();
    assert s + [] == s;
    ParsedBack(p, []);
    var g := ParseMask(Empty, s);
    if g.used <= n {
      IntStays(s, n);
      FieldsCut(g, s, n);
    } else {
      IntNeedsAll(s, n);
    }
  }

  // ---------- the wire in figures ----------

  lemma PayloadsOnTheWire()
    ensures Reached([]).Bytes() == [0x00]
    ensures Empty.SetTimeMillis(5).Bytes() == [0x01, 5] && Empty.SetTimeMark(5).Bytes() == [0x02, 5]
    ensures Empty.SetDeltaMark(5).Bytes() == [0x04, 5] && Empty.SetLagMark(5).Bytes() == [0x08, 5]
    ensures Empty.SetTimeMillis(1).SetTimeMark(2).SetDeltaMark(3).SetLagMark(4).Bytes() == [0x0F, 1, 2, 3, 4]
  {}
}
