/** buffer-serializer/buffer-reader.ts: a cursor over an immutable buffer.
    The functions below describe each read on the bytes that remain after
    the cursor; the class keeps the buffer and the offset as the source does. */
module Reader {
  import opened Bytes
  import opened Text
  import opened Results
  import opened Types
  import opened Values
  import opened Writer

  /** lookup(): the next byte, without moving.  `!value` holds both for a
      missing byte and for a zero byte, so both read as end of stream. */
  function Peek(rest: seq<byte>): (r: Result<byte>)
    ensures r.Ok? <==> |rest| > 0 && rest[0] != 0
    ensures r.Ok? ==> r.value == rest[0]
  {
    if |rest| == 0 || rest[0] == 0 then Err(UnexpectedEnd) else Ok(rest[0])
  }

  /** number(bit): an unsigned big-endian integer or an 8-byte double;
      Node's bounds check throws when the bytes are not all there. */
  function ReadNumber(rest: seq<byte>, w: Width): (r: Result<(Number, seq<byte>)>)
    ensures r.Ok? <==> |rest| >= ByteCount(w)
    ensures r.Ok? ==> r.value.1 == rest[ByteCount(w)..] && (r.value.0.Float? <==> w == Double)
  {
    var n := ByteCount(w);
    if |rest| < n then Err(OutOfRange)
    else if w == Double then Ok((Float(rest[..n]), rest[n..]))
    else Ok((Int(FromBigEndian(rest[..n])), rest[n..]))
  }

  /** `x & mask` is zero, for a one-bit mask. */
  predicate BitClear(x: byte, mask: nat)
    requires mask == 0x80 || mask == 0x40 || mask == 0x20
  {
    x as int % (2 * mask) < mask
  }

  /** size(): inverts BufferWriter.size by the lead byte's top bits. */
  function ReadSize(rest: seq<byte>): (r: Result<(nat, seq<byte>)>)
    ensures r.Ok? ==> r.value.0 < 0x2000_0000 && |r.value.1| < |rest|
  {
    match Peek(rest)
    case Err(e) => Err(e)
    case Ok(lead) =>
      if BitClear(lead, 0x80) then
        // lookup() has just seen this byte, so the one-byte read succeeds
        var (n, t) := ReadNumber(rest, U8).value;
        Ok((n.i, t))
      else if BitClear(lead, 0x40) then
        match ReadNumber(rest, U16)
        case Err(e) => Err(e)
        case Ok((n, t)) => Ok((n.i % 0x4000, t))          // & 0x3FFF
      else if BitClear(lead, 0x20) then
        match ReadNumber(rest, U32)
        case Err(e) => Err(e)
        case Ok((n, t)) => Ok((n.i % 0x2000_0000, t))     // & 0x1FFFFFFF
      else Err(InvalidSize(lead as int))
  }

  /** buffer(length) and string(length): Buffer.slice clips at the end of
      the buffer; the offset still moves by the full length. */
  function ReadBytes(rest: seq<byte>, length: nat): (r: (seq<byte>, seq<byte>))
    ensures r.0 + r.1 == rest
    ensures |r.0| == if length <= |rest| then length else |rest|
  {
    var n := if length <= |rest| then length else |rest|;
    (rest[..n], rest[n..])
  }

  function ReadString(rest: seq<byte>, length: nat): (r: (string, seq<byte>))
    ensures |r.0| + |r.1| == |rest| && r.1 == ReadBytes(rest, length).1
  {
    var (bs, t) := ReadBytes(rest, length);
    (Latin1Decode(bs), t)
  }

  /** skip(): past one byte. */
  function SkipByte(rest: seq<byte>): seq<byte>
  {
    if rest == [] then [] else rest[1..]
  }

  /** The bytes after the cursor: none once the offset is past the end. */
  function Drop(buffer: seq<byte>, offset: nat): seq<byte>
  {
    if offset <= |buffer| then buffer[offset..] else []
  }

  // ---------------------------------------------------------------------
  // Reads invert writes

  /** number(w) reads back what BufferWriter.number(val, w) wrote, and
      consumes exactly its width. */
  lemma {:induction false} ReadNumberWritten(val: Number, w: Width, rest: seq<byte>)
    requires Writable(val, w)
    ensures ReadNumber(NumberBytes(val, w) + rest, w)
         == Ok((if w == Double then Float(NumberBytes(val, w)) else val, rest))
  {
    var bs := NumberBytes(val, w);
    assert (bs + rest)[..ByteCount(w)] == bs;
    assert (bs + rest)[ByteCount(w)..] == rest;
    if w != Double {
      NumberBytesValue(val, w);
    }
  }

  /** A two-byte prefix whose lead has its top bits 10 reads as a 14-bit size. */
  lemma {:induction false} ReadSizeTwo(bs: seq<byte>, rest: seq<byte>)
    requires |bs| == 2 && 0x80 <= bs[0] < 0xC0
    ensures ReadSize(bs + rest) == Ok((FromBigEndian(bs) % 0x4000, rest))
  {
    var all := bs + rest;
    assert all[0] == bs[0];
    assert all[..2] == bs;
    assert all[2..] == rest;
    assert !BitClear(all[0], 0x80) && BitClear(all[0], 0x40);
  }

  /** A four-byte prefix whose lead has its top bits 110 reads as a 29-bit size. */
  lemma {:induction false} ReadSizeFour(bs: seq<byte>, rest: seq<byte>)
    requires |bs| == 4 && 0xC0 <= bs[0] < 0xE0
    ensures ReadSize(bs + rest) == Ok((FromBigEndian(bs) % 0x2000_0000, rest))
  {
    var all := bs + rest;
    assert all[0] == bs[0];
    assert all[..4] == bs;
    assert all[4..] == rest;
    assert !BitClear(all[0], 0x80) && !BitClear(all[0], 0x40) && BitClear(all[0], 0x20);
  }

  /** A one-byte prefix with its top bit clear reads as itself, unless it is 0. */
  lemma {:induction false} ReadSizeOne(b: byte, rest: seq<byte>)
    requires b < 0x80
    ensures b == 0 ==> ReadSize([b] + rest) == Err(UnexpectedEnd)
    ensures b != 0 ==> ReadSize([b] + rest) == Ok((b as int, rest))
  {
    var all := [b] + rest;
    assert all[0] == b;
    assert all[..1] == [b];
    assert all[1..] == rest;
    assert FromBigEndian([b]) == b as int by {
      assert [b][..0] == [];
    }
    assert BitClear(b, 0x80);
  }

  /** size() reads back every size BufferWriter.size writes, except 0:
      the zero byte that encodes it makes the leading lookup() throw. */
  lemma {:induction false} SizeRoundTrip(s: int, rest: seq<byte>)
    requires 0 <= s < 0x1FFFFFFF
    ensures s == 0 ==> ReadSize(SizePrefix(s).value + rest) == Err(UnexpectedEnd)
    ensures s >= 1 ==> ReadSize(SizePrefix(s).value + rest) == Ok((s, rest))
  {
    if s < 0x7F {
      assert SizePrefix(s).value == [s as byte] by { SizePrefixTiers(s); }
      ReadSizeOne(s as byte, rest);
    } else if s < 0x3FFF {
      var bs := SizePrefix(s).value;
      assert |bs| == 2 && 0x80 <= bs[0] < 0xC0 && FromBigEndian(bs) == s + 0x8000 by { SizePrefixTiers(s); }
      ReadSizeTwo(bs, rest);
      assert (s + 0x8000) % 0x4000 == s;
    } else {
      var bs := SizePrefix(s).value;
      assert |bs| == 4 && 0xC0 <= bs[0] < 0xE0 && FromBigEndian(bs) == s + 0xC0000000 by { SizePrefixTiers(s); }
      ReadSizeFour(bs, rest);
      assert (s + 0xC0000000) % 0x2000_0000 == s;
    }
  }

  /** A size prefix that is not one of the three tiers is rejected. */
  lemma InvalidSizeLead(rest: seq<byte>)
    requires |rest| > 0 && rest[0] >= 0xE0
    ensures ReadSize(rest) == Err(InvalidSize(rest[0] as int))
  {
  }

  // ---------------------------------------------------------------------

  class BufferReader {
    const readBuffer: seq<byte>
    var bufferReadOffset: nat

    function Remaining(): seq<byte>
      reads this
    {
      Drop(readBuffer, bufferReadOffset)
    }

    /** The offset defaults to 0 (`offset || 0`). */
    constructor(existingBuffer: seq<byte>, offset: nat)
      ensures readBuffer == existingBuffer && bufferReadOffset == offset
    {
      readBuffer := existingBuffer;
      bufferReadOffset := offset;
    }

    method Buffer(length: nat) returns (r: seq<byte>)
      modifies this
      ensures bufferReadOffset == old(bufferReadOffset) + length
      ensures (r, Remaining()) == ReadBytes(old(Remaining()), length)
    {
      ghost var rest := Remaining();
      var start := bufferReadOffset;
      var end := start + length;
      if end <= |readBuffer| {
        r := readBuffer[start..end];
        assert rest[..length] == r;
        assert rest[length..] == readBuffer[end..];
      } else if start <= |readBuffer| {
        r := readBuffer[start..];
        assert r == rest && rest[|rest|..] == [];
      } else {
        r := [];
        assert rest == [];
      }
      bufferReadOffset := end;
      assert r == ReadBytes(rest, length).0;
      assert Remaining() == ReadBytes(rest, length).1;
    }

    method Skip()
      modifies this
      ensures bufferReadOffset == old(bufferReadOffset) + 1
      ensures Remaining() == SkipByte(old(Remaining()))
    {
      bufferReadOffset := bufferReadOffset + 1;
    }

    method Lookup() returns (r: Result<byte>)
      ensures r.Ok? <==> bufferReadOffset < |readBuffer| && readBuffer[bufferReadOffset] != 0
      ensures r == Peek(Remaining())
    {
      if bufferReadOffset >= |readBuffer| || readBuffer[bufferReadOffset] == 0 {
        return Err(UnexpectedEnd);
      }
      return Ok(readBuffer[bufferReadOffset]);
    }

    method Number(w: Width) returns (r: Result<Number>)
      modifies this
      ensures ReadNumber(old(Remaining()), w).Ok? ==>
        && r == Ok(ReadNumber(old(Remaining()), w).value.0)
        && Remaining() == ReadNumber(old(Remaining()), w).value.1
        && bufferReadOffset == old(bufferReadOffset) + ByteCount(w)
      ensures ReadNumber(old(Remaining()), w).Err? ==>
        r == Err(ReadNumber(old(Remaining()), w).error) && bufferReadOffset == old(bufferReadOffset)
    {
      var n := ByteCount(w);
      if bufferReadOffset + n > |readBuffer| {
        return Err(OutOfRange);
      }
      var bytes := readBuffer[bufferReadOffset..bufferReadOffset + n];
      assert Remaining()[..n] == bytes;
      assert Remaining()[n..] == readBuffer[bufferReadOffset + n..];
      match w {
        case Double => r := Ok(Float(bytes));
        case _ => r := Ok(Int(FromBigEndian(bytes)));
      }
      bufferReadOffset := bufferReadOffset + n;
    }

    method Size() returns (r: Result<nat>)
      modifies this
      ensures ReadSize(old(Remaining())).Ok? ==>
        r == Ok(ReadSize(old(Remaining())).value.0) && Remaining() == ReadSize(old(Remaining())).value.1
      ensures ReadSize(old(Remaining())).Err? ==> r == Err(ReadSize(old(Remaining())).error)
    {
      var lookup := Lookup();
      if lookup.Err? {
        return Err(lookup.error);
      }
      var lead := lookup.value;
      var w := U8;
      if BitClear(lead, 0x80) {
        w := U8;
      } else if BitClear(lead, 0x40) {
        w := U16;
      } else if BitClear(lead, 0x20) {
        w := U32;
      } else {
        return Err(InvalidSize(lead as int));
      }
      var n := Number(w);
      match n {
        case Err(e) => r := Err(e);
        case Ok(value) =>
          r := Ok(if w == U8 then value.i
                  else if w == U16 then value.i % 0x4000   // & 0x3FFF
                  else value.i % 0x2000_0000);             // & 0x1FFFFFFF
      }
    }

    method String(length: nat) returns (r: string)
      modifies this
      ensures bufferReadOffset == old(bufferReadOffset) + length
      ensures (r, Remaining()) == ReadString(old(Remaining()), length)
    {
      var buff := Buffer(length);
      r := Latin1Decode(buff);
    }
  }
}
