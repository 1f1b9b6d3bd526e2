/** Base64 (section 4 of RFC 4648) as it encodes credentials, and its decoder. */
module Base64 {

  const WHITESPACE: bv8 := 64
  const EQUALS: bv8 := 65
  const INVALID: bv8 := 66
  const PAD: bv8 := 61

  /** base64chars: the character of a six-bit number */
  function Letter(k: bv8): bv8
    requires k < 64
  {
    if k < 26 then k + 65 else if k < 52 then k + 71 else if k < 62 then k - 4 else if k == 62 then 43 else 47
  }

  /** The table `d`: the number of a character, or what else it is. Only the newline is whitespace. */
  function Value(c: bv8): bv8 {
    if 65 <= c <= 90 then c - 65
    else if 97 <= c <= 122 then c - 71
    else if 48 <= c <= 57 then c + 4
    else if c == 43 then 62
    else if c == 47 then 63
    else if c == 10 then WHITESPACE
    else if c == PAD then EQUALS
    else INVALID
  }

  function Joined(a: bv8, b: bv8, c: bv8): bv32 {
    ((a as bv32) << 16) + ((b as bv32) << 8) + c as bv32
  }

  /** The six-bit number at a shift */
  function Sextet(n: bv32, shift: bv6): bv8
    requires shift <= 18
  {
    (((n >> shift) & 0xFF) as bv8) & 63
  }

  function Octet(n: bv32, shift: bv6): bv8
    requires shift <= 16
  {
    ((n >> shift) & 255) as bv8
  }

  lemma SextetSmall(n: bv32, shift: bv6)
    requires shift <= 18
    ensures Sextet(n, shift) < 64
  {}

  /** The letter at a shift */
  function Char(n: bv32, shift: bv6): bv8
    requires shift <= 18
  {
    SextetSmall(n, shift);
    Letter(Sextet(n, shift))
  }

  /** The letters of one, two or three bytes */
  function Group(s: seq<bv8>): seq<bv8>
    requires 1 <= |s| <= 3
  {
    var n := Joined(s[0], if |s| > 1 then s[1] else 0, if |s| > 2 then s[2] else 0);
    [Char(n, 18), Char(n, 12)] + (if |s| > 1 then [Char(n, 6)] else []) + if |s| > 2 then [Char(n, 0)] else []
  }

  /** The letters of all bytes, without padding */
  function Letters(s: seq<bv8>): seq<bv8> {
    if s == [] then [] else if |s| < 3 then Group(s) else Group(s[..3]) + Letters(s[3..])
  }

  function Padding(n: nat): seq<bv8> {
    if n % 3 == 1 then [PAD, PAD] else if n % 3 == 2 then [PAD] else []
  }

  /** What dx_base64_encode writes. */
  function Encoded(s: seq<bv8>): seq<bv8> {
    Letters(s) + Padding(|s|)
  }

  /** dx_base64_length: rounded down to a multiple of four */
  function Length(n: nat): nat {
    var m := 4 * n / 3 + 3;
    m - m % 4
  }

  lemma {:induction false} LettersLength(s: seq<bv8>)
    ensures |Letters(s)| == |s| + (|s| + 2) / 3
  {
    if |s| >= 3 {
      LettersLength(s[3..]);
    }
  }

  /** The encoding takes exactly the length that is allotted to it. */
  lemma EncodedLength(s: seq<bv8>)
    ensures |Encoded(s)| == Length(|s|)
  {
    hide Letters, Padding, Length;
    LettersLength(s);
    LengthIs(|s|);
  }

  lemma LengthIs(n: nat)
    ensures Length(n) == n + (n + 2) / 3 + |Padding(n)|
  {
    var k, r := n / 3, n % 3;
    LengthOf(k, r);
  }

  lemma LengthOf(k: nat, r: nat)
    requires r < 3
    ensures Length(3 * k + r) == 4 * k + if r == 0 then 0 else 4
  {
    var n := 3 * k + r;
    assert 4 * n / 3 == 4 * k + r;
  }

  lemma {:induction false} LettersAppend(a: seq<bv8>, b: seq<bv8>)
    requires |a| % 3 == 0
    ensures Letters(a + b) == Letters(a) + Letters(b)
  {
    hide Group;
    if a == [] {
      assert a + b == b;
    } else {
      LettersAppend(a[3..], b);
      assert (a + b)[..3] == a[..3] && (a + b)[3..] == a[3..] + b;
    }
  }

  // ---------- encoding ----------

  /** A character stored at the next place, unless the buffer is full. */
  method Put(out: array<bv8>, at: nat, c: bv8) returns (ok: bool)
    modifies out
    ensures ok <==> at < out.Length
    ensures out[..] == if ok then old(out[..])[at := c] else old(out[..])
  {
    ok := at < out.Length;
    if ok {
      out[at] := c;
    }
  }

  /** `bytes` are in `now` from `at` on, and everything else is as it was. */
  ghost predicate Stored(was: seq<bv8>, now: seq<bv8>, at: nat, bytes: seq<bv8>) {
    at + |bytes| <= |was| && now == was[..at] + bytes + was[at + |bytes|..]
  }

  lemma StoredMore(was: seq<bv8>, mid: seq<bv8>, now: seq<bv8>, at: nat, a: seq<bv8>, b: seq<bv8>)
    requires Stored(was, mid, at, a) && Stored(mid, now, at + |a|, b)
    ensures Stored(was, now, at, a + b)
  {}

  /** One letter more, behind those that are stored already */
  method PutNext(out: array<bv8>, at: nat, c: bv8, ghost was: seq<bv8>, ghost start: nat, ghost letters: seq<bv8>)
    returns (ok: bool)
    requires |was| == out.Length && Stored(was, out[..], start, letters) && at == start + |letters|
    modifies out
    ensures ok <==> at < out.Length
    ensures ok ==> Stored(was, out[..], start, letters + [c])
  {
    ghost var mid := out[..];
    ok := Put(out, at, c);
    if ok {
      StoredMore(was, mid, out[..], start, letters, [c]);
    }
  }

  /** One round of the encoding loop: the letters of up to three bytes. */
  method EncodeGroup(data: seq<bv8>, x: nat, out: array<bv8>, resultIndex: nat) returns (ok: bool, next: nat)
    requires x < |data| && resultIndex <= out.Length
    modifies out
    ensures ok <==> resultIndex + |GroupAt(data, x)| <= out.Length
    ensures ok ==> next == resultIndex + |GroupAt(data, x)|
    ensures ok ==> Stored(old(out[..]), out[..], resultIndex, GroupAt(data, x))
  {
    hide Char, Joined, Stored, GroupAt, Group;
    GroupAtIs(data, x);
    var n := Joined(data[x], if x + 1 < |data| then data[x + 1] else 0, if x + 2 < |data| then data[x + 2] else 0);
    ghost var was, letters := out[..], [];
    NothingStored(was, resultIndex);
    next := resultIndex;
    ok := PutNext(out, next, Char(n, 18), was, resultIndex, letters);
    if !ok {
      return;
    }
    next, letters := next + 1, letters + [Char(n, 18)];
    ok := PutNext(out, next, Char(n, 12), was, resultIndex, letters);
    if !ok {
      return;
    }
    next, letters := next + 1, letters + [Char(n, 12)];
    if x + 1 < |data| {
      ok := PutNext(out, next, Char(n, 6), was, resultIndex, letters);
      if !ok {
        return;
      }
      next, letters := next + 1, letters + [Char(n, 6)];
    }
    if x + 2 < |data| {
      ok := PutNext(out, next, Char(n, 0), was, resultIndex, letters);
      if !ok {
        return;
      }
      next, letters := next + 1, letters + [Char(n, 0)];
    }
  }

  /** Its letters, put together one by one */
  lemma GroupAtIs(data: seq<bv8>, x: nat)
    requires x < |data|
    ensures var n := Joined(data[x], if x + 1 < |data| then data[x + 1] else 0,
                            if x + 2 < |data| then data[x + 2] else 0);
            var two := [] + [Char(n, 18)] + [Char(n, 12)];
            GroupAt(data, x) == if x + 2 < |data| then two + [Char(n, 6)] + [Char(n, 0)]
                                else if x + 1 < |data| then two + [Char(n, 6)] else two
  {
    hide Char, Joined;
    assert data[x..if x + 3 < |data| then x + 3 else |data|][0] == data[x];
  }

  lemma NothingStored(s: seq<bv8>, at: nat)
    requires at <= |s|
    ensures Stored(s, s, at, [])
  {}

  /** The letters of the bytes from `x` on, up to three */
  function GroupAt(data: seq<bv8>, x: nat): seq<bv8>
    requires x < |data|
  {
    Group(data[x..if x + 3 < |data| then x + 3 else |data|])
  }

  lemma OneGroup(s: seq<bv8>)
    requires 1 <= |s| <= 3
    ensures Letters(s) == Group(s)
  {
    hide Group;
    if |s| == 3 {
      assert s[..3] == s && Letters(s[3..]) == [];
    }
  }

  lemma NextGroup(data: seq<bv8>, x: nat)
    requires x < |data| && x % 3 == 0
    ensures var end := if x + 3 < |data| then x + 3 else |data|;
            Letters(data[..end]) == Letters(data[..x]) + GroupAt(data, x)
    ensures |Letters(data[..x])| + |GroupAt(data, x)| <= |Letters(data)|
  {
    var end := if x + 3 < |data| then x + 3 else |data|;
    assert data[..end] == data[..x] + data[x..end];
    LettersAppend(data[..x], data[x..end]);
    OneGroup(data[x..end]);
    LettersLength(data[..end]);
    LettersLength(data);
  }

  /** The loop of dx_base64_encode */
  method EncodeLetters(data: seq<bv8>, out: array<bv8>) returns (ok: bool, resultIndex: nat)
    modifies out
    ensures ok <==> |Letters(data)| <= out.Length
    ensures ok ==> resultIndex == |Letters(data)| && out[..resultIndex] == Letters(data)
    ensures ok ==> out[resultIndex..] == old(out[..])[resultIndex..]
  {
    hide Group, GroupAt, Letters;
    ok, resultIndex := true, 0;
    var x: nat := 0;
    NoLetters(data);
    while x < |data|
      invariant x % 3 == 0 && ok
      invariant var end := if x < |data| then x else |data|;
                && resultIndex == |Letters(data[..end])| <= out.Length
                && out[..resultIndex] == Letters(data[..end])
      invariant out[resultIndex..] == old(out[..])[resultIndex..]
    {
      NextGroup(data, x);
      ok, resultIndex := EncodeGroup(data, x, out, resultIndex);
      if !ok {
        return;
      }
      x := x + 3;
    }
    assert data[..|data|] == data;
  }

  /** The padding loop of dx_base64_encode */
  method Pad(n: nat, out: array<bv8>, at: nat) returns (ok: bool, resultIndex: nat)
    requires at <= out.Length
    modifies out
    ensures ok <==> at + |Padding(n)| <= out.Length
    ensures ok ==> resultIndex == at + |Padding(n)| && out[..resultIndex] == old(out[..at]) + Padding(n)
    ensures ok ==> out[resultIndex..] == old(out[..])[resultIndex..]
  {
    ok, resultIndex := true, at;
    var padCount := n % 3;
    if padCount > 0 {
      while padCount < 3
        invariant n % 3 <= padCount <= 3 && ok && resultIndex <= out.Length
        invariant resultIndex == at + (padCount - n % 3)
        invariant out[..resultIndex] == old(out[..at]) + Padding(n)[..padCount - n % 3]
        invariant out[resultIndex..] == old(out[..])[resultIndex..]
      {
        ghost var mid := out[..];
        ok := Put(out, resultIndex, PAD);
        if !ok {
          return;
        }
        assert out[resultIndex + 1..] == mid[resultIndex..][1..] == old(out[..])[resultIndex + 1..];
        assert Padding(n)[..padCount + 1 - n % 3] == Padding(n)[..padCount - n % 3] + [PAD];
        resultIndex := resultIndex + 1;
        padCount := padCount + 1;
      }
    }
  }

  /** dx_base64_encode: succeeds exactly when the encoding fits, and adds a terminator when there is
      room for one. */
  method Encode(data: seq<bv8>, out: array<bv8>) returns (ok: bool)
    modifies out
    ensures ok <==> Length(|data|) <= out.Length
    ensures ok ==> out[..Length(|data|)] == Encoded(data)
    ensures ok ==> out[Length(|data|)..] ==
                   if Length(|data|) < out.Length then [0] + old(out[Length(|data|) + 1..]) else []
  {
    hide Letters, Padding, Length;
    EncodedLength(data);
    var resultIndex;
    ok, resultIndex := EncodeLetters(data, out);
    if !ok {
      return;
    }
    ok, resultIndex := Pad(|data|, out, resultIndex);
    if !ok {
      return;
    }
    if out.Length > resultIndex {
      out[resultIndex] := 0;
    }
  }

  lemma NoLetters(data: seq<bv8>)
    ensures Letters(data[..0]) == []
  {}

  // ---------- decoding ----------

  datatype Decoding = Invalid | Bytes(bytes: seq<bv8>)

  /** The bytes of an incomplete group; a single letter is dropped. */
  function Remainder(iter: nat, buf: bv32): seq<bv8> {
    if iter == 3 then [Octet(buf, 10), Octet(buf, 2)] else if iter == 2 then [Octet(buf, 4)] else []
  }

  /** A letter shifted into the buffer */
  function Next(buf: bv32, k: bv8): bv32 {
    (buf << 6) | k as bv32
  }

  /** What is decoded from the text ahead when `iter` letters of a group are in the buffer. */
  function DecodeFrom(s: seq<bv8>, iter: nat, buf: bv32, done: seq<bv8>): Decoding {
    if s == [] || Value(s[0]) == EQUALS then Bytes(done + Remainder(iter, buf))
    else if Value(s[0]) == WHITESPACE then DecodeFrom(s[1..], iter, buf, done)
    else if Value(s[0]) == INVALID then Invalid
    else
      var next := Next(buf, Value(s[0]));
      if iter == 3 then DecodeFrom(s[1..], 0, 0, done + [Octet(next, 16), Octet(next, 8), Octet(next, 0)])
      else DecodeFrom(s[1..], iter + 1, next, done)
  }

  function Decoded(s: seq<bv8>): Decoding {
    DecodeFrom(s, 0, 0, [])
  }

  lemma {:induction false} DecodedGrows(s: seq<bv8>, iter: nat, buf: bv32, done: seq<bv8>)
    ensures DecodeFrom(s, iter, buf, done).Bytes? ==> done <= DecodeFrom(s, iter, buf, done).bytes
    decreases |s|
  {
    hide Value, Octet;
    if s != [] {
      var next := Next(buf, Value(s[0]));
      DecodedGrows(s[1..], iter, buf, done);
      DecodedGrows(s[1..], iter + 1, next, done);
      DecodedGrows(s[1..], 0, 0, done + [Octet(next, 16), Octet(next, 8), Octet(next, 0)]);
    }
  }

  /** dx_base64_decode: succeeds exactly when the text is valid up to its first pad and the bytes fit
      the buffer of `limit` bytes. */
  method Decode(input: seq<bv8>, out: array<bv8>, limit: nat) returns (ok: bool, outLen: nat)
    requires limit <= out.Length
    modifies out
    ensures ok <==> Decoded(input).Bytes? && |Decoded(input).bytes| <= limit
    ensures ok ==> outLen == |Decoded(input).bytes| && out[..outLen] == Decoded(input).bytes
    ensures !ok ==> outLen == limit
    ensures ok ==> out[outLen..] == old(out[..])[outLen..]
  {
    hide Value, Octet, DecodeFrom;
    outLen := limit;
    var i: nat := 0;
    var iter: nat := 0;
    var buf: bv32 := 0;
    var len: nat := 0;
    assert input[0..] == input && out[..0] == [];
    while i < |input|
      invariant i <= |input| && len <= limit && iter <= 3
      invariant Decoded(input) == DecodeFrom(input[i..], iter, buf, out[..len])
      invariant out[len..] == old(out[..])[len..]
    {
      NextLetter(input, i, iter, buf, out[..len]);
      var c := Value(input[i]);
      i := i + 1;
      if c == WHITESPACE {
        continue;
      } else if c == INVALID {
        return false, limit;
      } else if c == EQUALS {
        NoMoreText(input, iter, buf, out[..len]);
        i := |input|;
        continue;
      } else {
        buf := Next(buf, c);
        iter := iter + 1;
        if iter == 4 {
          len := len + 3;
          DecodedGrows(input[i..], 0, 0, out[..len - 3] + [Octet(buf, 16), Octet(buf, 8), Octet(buf, 0)]);
          if len > limit {
            return false, limit;
          }
          Store3(out, len - 3, Octet(buf, 16), Octet(buf, 8), Octet(buf, 0));
          buf := 0;
          iter := 0;
        }
      }
    }
    NoMoreText(input, iter, buf, out[..len]);
    ok := StoreRemainder(out, len, iter, buf, limit);
    if ok {
      outLen := len + |Remainder(iter, buf)|;
      assert old(out[..])[len..][outLen - len..] == old(out[..])[outLen..];
    }
  }

  /** The end of dx_base64_decode */
  method StoreRemainder(out: array<bv8>, len: nat, iter: nat, buf: bv32, limit: nat) returns (ok: bool)
    requires len <= limit <= out.Length
    modifies out
    ensures ok <==> len + |Remainder(iter, buf)| <= limit
    ensures ok ==> var end := len + |Remainder(iter, buf)|;
                   out[..end] == old(out[..len]) + Remainder(iter, buf) && out[end..] == old(out[len..])[end - len..]
  {
    hide Octet;
    if iter == 3 {
      if len + 2 > limit {
        return false;
      }
      out[len], out[len + 1] := Octet(buf, 10), Octet(buf, 2);
    } else if iter == 2 {
      if len + 1 > limit {
        return false;
      }
      out[len] := Octet(buf, 4);
    }
    ok := true;
  }

  method Store3(out: array<bv8>, at: nat, a: bv8, b: bv8, c: bv8)
    requires at + 3 <= out.Length
    modifies out
    ensures out[..at + 3] == old(out[..at]) + [a, b, c] && out[at + 3..] == old(out[at + 3..])
  {
    out[at], out[at + 1], out[at + 2] := a, b, c;
  }

  lemma NextLetter(s: seq<bv8>, i: nat, iter: nat, buf: bv32, done: seq<bv8>)
    requires i < |s|
    ensures DecodeFrom(s[i..], iter, buf, done) ==
            var c := Value(s[i]);
            var next := Next(buf, c);
            if c == EQUALS then Bytes(done + Remainder(iter, buf))
            else if c == WHITESPACE then DecodeFrom(s[i + 1..], iter, buf, done)
            else if c == INVALID then Invalid
            else if iter == 3 then
              DecodeFrom(s[i + 1..], 0, 0, done + [Octet(next, 16), Octet(next, 8), Octet(next, 0)])
            else DecodeFrom(s[i + 1..], iter + 1, next, done)
  {
    hide DecodeFrom, Value, Octet, Next;
    AnyLetter(s[i..], iter, buf, done);
    assert s[i..][1..] == s[i + 1..];
  }

  lemma NoMoreText(s: seq<bv8>, iter: nat, buf: bv32, done: seq<bv8>)
    ensures DecodeFrom(s[|s|..], iter, buf, done) == Bytes(done + Remainder(iter, buf))
  {}

  // ---------- what comes back ----------

  lemma ValueOfLetter(k: bv8)
    requires k < 64
    ensures Value(Letter(k)) == k
  {}

  lemma DecodesLetter(n: bv32, shift: bv6, tail: seq<bv8>, iter: nat, buf: bv32, done: seq<bv8>)
    requires shift <= 18
    ensures var next := Next(buf, Sextet(n, shift));
            DecodeFrom([Char(n, shift)] + tail, iter, buf, done) ==
            if iter == 3 then DecodeFrom(tail, 0, 0, done + [Octet(next, 16), Octet(next, 8), Octet(next, 0)])
            else DecodeFrom(tail, iter + 1, next, done)
  {
    SextetSmall(n, shift);
    ValueOfLetter(Sextet(n, shift));
    hide Octet, Value, Letter, Sextet;
    NextLetter([Char(n, shift)] + tail, 0, iter, buf, done);
    assert ([Char(n, shift)] + tail)[0..] == [Char(n, shift)] + tail && ([Char(n, shift)] + tail)[1..] == tail;
  }

  /** The buffer after the letters of three, two and one bytes */
  lemma Three(a: bv8, b: bv8, c: bv8)
    ensures var n := Joined(a, b, c);
            var buf := Next(Next(Next(Next(0, Sextet(n, 18)), Sextet(n, 12)), Sextet(n, 6)), Sextet(n, 0));
            Octet(buf, 16) == a && Octet(buf, 8) == b && Octet(buf, 0) == c
  {}

  lemma Two(a: bv8, b: bv8)
    ensures var n := Joined(a, b, 0);
            var buf := Next(Next(Next(0, Sextet(n, 18)), Sextet(n, 12)), Sextet(n, 6));
            Octet(buf, 10) == a && Octet(buf, 2) == b
  {}

  lemma One(a: bv8)
    ensures var n := Joined(a, 0, 0);
            Octet(Next(Next(0, Sextet(n, 18)), Sextet(n, 12)), 4) == a
  {}

  lemma DecodesThree(s: seq<bv8>, tail: seq<bv8>, done: seq<bv8>)
    requires |s| == 3
    ensures DecodeFrom(Group(s) + tail, 0, 0, done) == DecodeFrom(tail, 0, 0, done + s)
  {
    hide Sextet, Octet, Next, Char, Joined, DecodeFrom;
    var n := Joined(s[0], s[1], s[2]);
    var b1 := Next(0, Sextet(n, 18));
    var b2 := Next(b1, Sextet(n, 12));
    var b3 := Next(b2, Sextet(n, 6));
    var t3 := [Char(n, 0)] + tail;
    var t2 := [Char(n, 6)] + t3;
    var t1 := [Char(n, 12)] + t2;
    assert Group(s) + tail == [Char(n, 18)] + t1;
    DecodesLetter(n, 18, t1, 0, 0, done);
    DecodesLetter(n, 12, t2, 1, b1, done);
    DecodesLetter(n, 6, t3, 2, b2, done);
    DecodesLetter(n, 0, tail, 3, b3, done);
    Three(s[0], s[1], s[2]);
    assert s == [s[0], s[1], s[2]];
  }

  lemma DecodesPad(tail: seq<bv8>, iter: nat, buf: bv32, done: seq<bv8>)
    ensures DecodeFrom([PAD] + tail, iter, buf, done) == Bytes(done + Remainder(iter, buf))
    ensures DecodeFrom([], iter, buf, done) == Bytes(done + Remainder(iter, buf))
  {}

  lemma DecodesTwo(s: seq<bv8>, done: seq<bv8>)
    requires |s| == 2
    ensures DecodeFrom(Group(s) + [PAD], 0, 0, done) == Bytes(done + s)
  {
    hide Sextet, Octet, Next, Char, Joined, DecodeFrom;
    var n := Joined(s[0], s[1], 0);
    var b1 := Next(0, Sextet(n, 18));
    var b2 := Next(b1, Sextet(n, 12));
    var t2 := [Char(n, 6)] + [PAD];
    var t1 := [Char(n, 12)] + t2;
    assert Group(s) + [PAD] == [Char(n, 18)] + t1;
    DecodesLetter(n, 18, t1, 0, 0, done);
    DecodesLetter(n, 12, t2, 1, b1, done);
    DecodesLetter(n, 6, [PAD], 2, b2, done);
    assert [PAD] + [] == [PAD];
    DecodesPad([], 3, Next(b2, Sextet(n, 6)), done);
    Two(s[0], s[1]);
    assert s == [s[0], s[1]];
  }

  lemma DecodesOne(s: seq<bv8>, done: seq<bv8>)
    requires |s| == 1
    ensures DecodeFrom(Group(s) + [PAD, PAD], 0, 0, done) == Bytes(done + s)
  {
    hide Sextet, Octet, Next, Char, Joined, DecodeFrom;
    var n := Joined(s[0], 0, 0);
    var b1 := Next(0, Sextet(n, 18));
    var t1 := [Char(n, 12)] + [PAD, PAD];
    assert Group(s) + [PAD, PAD] == [Char(n, 18)] + t1;
    DecodesLetter(n, 18, t1, 0, 0, done);
    DecodesLetter(n, 12, [PAD, PAD], 1, b1, done);
    assert [PAD] + [PAD] == [PAD, PAD];
    DecodesPad([PAD], 2, Next(b1, Sextet(n, 12)), done);
    One(s[0]);
    assert s == [s[0]];
  }

  lemma {:induction false} DecodesFrom(s: seq<bv8>, done: seq<bv8>)
    ensures DecodeFrom(Encoded(s), 0, 0, done) == Bytes(done + s)
    decreases |s|
  {
    hide Group, DecodeFrom;
    if |s| >= 3 {
      assert Encoded(s) == Group(s[..3]) + Encoded(s[3..]);
      DecodesThree(s[..3], Encoded(s[3..]), done);
      DecodesFrom(s[3..], done + s[..3]);
      assert done + s[..3] + s[3..] == done + s;
    } else if |s| == 2 {
      DecodesTwo(s, done);
    } else if |s| == 1 {
      DecodesOne(s, done);
    } else {
      DecodesPad([], 0, 0, done);
      assert Encoded(s) == [] && Remainder(0, 0) == [] && done + s == done + [] == done;
    }
  }

  /** Every byte string comes back from its encoding. */
  lemma RoundTrip(s: seq<bv8>)
    ensures Decoded(Encoded(s)) == Bytes(s)
  {
    DecodesFrom(s, []);
    assert [] + s == s;
  }

  lemma NewlineIsWhitespace()
    ensures Value(10) == WHITESPACE != EQUALS
  {}

  /** A text without its newlines */
  function Stripped(t: seq<bv8>): seq<bv8> {
    if t == [] then [] else (if t[0] == 10 then [] else [t[0]]) + Stripped(t[1..])
  }

  lemma {:induction false} NewlinesDoNotCount(t: seq<bv8>, iter: nat, buf: bv32, done: seq<bv8>)
    ensures DecodeFrom(t, iter, buf, done) == DecodeFrom(Stripped(t), iter, buf, done)
    decreases |t|
  {
    hide Octet, DecodeFrom, Value, Remainder;
    if t != [] {
      NewlineIsWhitespace();
      AnyLetter(t, iter, buf, done);
      var next := Next(buf, Value(t[0]));
      if Value(t[0]) == WHITESPACE {
        NewlinesDoNotCount(t[1..], iter, buf, done);
      } else if iter == 3 {
        NewlinesDoNotCount(t[1..], 0, 0, done + [Octet(next, 16), Octet(next, 8), Octet(next, 0)]);
      } else {
        NewlinesDoNotCount(t[1..], iter + 1, next, done);
      }
      if t[0] == 10 {
        assert Stripped(t) == Stripped(t[1..]);
      } else {
        assert Stripped(t)[0] == t[0] && Stripped(t)[1..] == Stripped(t[1..]);
        AnyLetter(Stripped(t), iter, buf, done);
      }
    }
  }

  lemma AnyLetter(s: seq<bv8>, iter: nat, buf: bv32, done: seq<bv8>)
    requires s != []
    ensures DecodeFrom(s, iter, buf, done) ==
            var c := Value(s[0]);
            var next := Next(buf, c);
            if c == EQUALS then Bytes(done + Remainder(iter, buf))
            else if c == WHITESPACE then DecodeFrom(s[1..], iter, buf, done)
            else if c == INVALID then Invalid
            else if iter == 3 then DecodeFrom(s[1..], 0, 0, done + [Octet(next, 16), Octet(next, 8), Octet(next, 0)])
            else DecodeFrom(s[1..], iter + 1, next, done)
  {
    hide Value, Octet;
  }

  /** The bytes come back from every text that is their encoding but for newlines. */
  lemma RoundTripWithNewlines(s: seq<bv8>, text: seq<bv8>)
    requires Stripped(text) == Encoded(s)
    ensures Decoded(text) == Bytes(s)
  {
    NewlinesDoNotCount(text, 0, 0, []);
    RoundTrip(s);
  }

  // ---------- any text ----------

  /** The first and last letters of every run of the alphabet */
  lemma LettersInFigures()
    ensures Letter(0) == 65 && Letter(25) == 90 && Letter(26) == 97 && Letter(51) == 122
    ensures Letter(52) == 48 && Letter(61) == 57 && Letter(62) == 43 && Letter(63) == 47
    ensures forall k: bv8 :: k < 61 && k != 25 && k != 51 ==> Letter(k + 1) == Letter(k) + 1
  {}

  /** A character of the alphabet */
  ghost predicate IsLetter(c: bv8) {
    exists k: bv8 :: k < 64 && Letter(k) == c
  }

  /** Letters and newlines up to the first pad or the end */
  ghost predicate ValidText(s: seq<bv8>) {
    s == [] || s[0] == 61 || ((s[0] == 10 || IsLetter(s[0])) && ValidText(s[1..]))
  }

  /** The letters up to there */
  function LettersIn(s: seq<bv8>): nat {
    if s == [] || s[0] == 61 then 0 else LettersIn(s[1..]) + if s[0] == 10 then 0 else 1
  }

  lemma ValuesAre(c: bv8)
    ensures Value(c) == EQUALS <==> c == 61
    ensures Value(c) == WHITESPACE <==> c == 10
    ensures Value(c) < 64 <==> IsLetter(c)
    ensures Value(c) < 64 || Value(c) == EQUALS || Value(c) == WHITESPACE || Value(c) == INVALID
  {
    if Value(c) < 64 { assert Letter(Value(c)) == c; }
    if IsLetter(c) { LetterHasValue(c); }
  }

  lemma LetterHasValue(c: bv8)
    requires IsLetter(c)
    ensures Value(c) < 64
  {
    var k: bv8 :| k < 64 && Letter(k) == c;
    assert Value(Letter(k)) == k;
  }

  lemma {:induction false} DecodesFromExactly(s: seq<bv8>, iter: nat, buf: bv32, done: seq<bv8>)
    requires iter <= 3
    ensures var r := DecodeFrom(s, iter, buf, done);
            && (r.Bytes? <==> ValidText(s))
            && (r.Bytes? ==> |r.bytes| == |done| + 3 * (iter + LettersIn(s)) / 4)
    decreases |s|
  {
    hide Value, Octet, IsLetter;
    if s != [] {
      ValuesAre(s[0]);
      if s[0] == 10 {
        DecodesFromExactly(s[1..], iter, buf, done);
      } else if s[0] != 61 && IsLetter(s[0]) {
        var next := Next(buf, Value(s[0]));
        if iter == 3 {
          DecodesFromExactly(s[1..], 0, 0, done + [Octet(next, 16), Octet(next, 8), Octet(next, 0)]);
        } else {
          DecodesFromExactly(s[1..], iter + 1, next, done);
        }
      }
    }
  }

  /** A text decodes exactly if it has nothing but letters and newlines before its first pad, and then to
      three bytes for every four letters, what is left of them rounded down. */
  lemma DecodesExactly(s: seq<bv8>)
    ensures Decoded(s).Bytes? <==> ValidText(s)
    ensures Decoded(s).Bytes? ==> |Decoded(s).bytes| == 3 * LettersIn(s) / 4
  {
    DecodesFromExactly(s, 0, 0, []);
  }

  /** The test vectors "f", "fo" and "foo" of section 10 of RFC 4648 */
  lemma TestVectors()
    ensures Encoded([102]) == [90, 103, 61, 61]
    ensures Encoded([102, 111]) == [90, 109, 56, 61]
    ensures Encoded([102, 111, 111]) == [90, 109, 57, 118]
  {}
}
