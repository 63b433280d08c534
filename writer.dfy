/** buffer-serializer/buffer-writer.ts: an append-only list of byte
    fragments. */
module Writer {
  import opened Bytes
  import opened Text
  import opened Results
  import opened Types
  import opened Values

  /** Node's range check in writeUInt8/writeUInt16BE/writeUInt32BE;
      writeDoubleBE takes any number. */
  predicate Writable(val: Number, w: Width)
  {
    match w
    case U8 => val.Int? && 0 <= val.i < 0x100
    case U16 => val.Int? && 0 <= val.i < 0x1_0000
    case U32 => val.Int? && 0 <= val.i < 0x1_0000_0000
    case Double => true
  }

  /** The fragment BufferWriter.number appends: the big-endian digits of an
      unsigned integer, or the binary64 pattern of a number. */
  function NumberBytes(val: Number, w: Width): (r: seq<byte>)
    requires Writable(val, w)
    ensures |r| == ByteCount(w)
  {
    match w
    case Double => (match val case Int(n) => Binary64OfInt(n) case Float(bits) => bits)
    case _ => BigEndian(val.i, ByteCount(w))
  }

  /** Reading an integer width back gives the value written. */
  lemma NumberBytesValue(val: Number, w: Width)
    requires Writable(val, w) && w != Double
    ensures FromBigEndian(NumberBytes(val, w)) == val.i
  {
    Pow256Widths();
    BigEndianRoundTrip(val.i, ByteCount(w));
  }

  /** The fragment BufferWriter.size appends, or the error it throws: one
      byte 0xxxxxxx, two bytes 10xxxxxx xxxxxxxx, or four bytes 110xxxxx ... */
  function SizePrefix(s: int): (r: Result<seq<byte>>)
    ensures r.Ok? <==> 0 <= s < 0x1FFFFFFF
    ensures r.Ok? ==> |r.value| == if s < 0x7F then 1 else if s < 0x3FFF then 2 else 4
  {
    if s < 0 then Err(SizeNegative)
    else if s < 0x7F then Ok(NumberBytes(Int(s), U8))
    // s | 0x8000, which is s + 0x8000 since bit 15 of s < 0x3FFF is clear
    else if s < 0x3FFF then Ok(NumberBytes(Int(s + 0x8000), U16))
    else if s < 0x1FFFFFFF then Ok(NumberBytes(Int(s + 0xC0000000), U32))
    else Err(SizeTooLarge)
  }

  /** Which sizes can be written, how many bytes each tier takes, and the
      lead bits that tell the tiers apart. */
  lemma SizePrefixTiers(s: int)
    ensures SizePrefix(s).Ok? <==> 0 <= s < 0x1FFFFFFF
    ensures s < 0 ==> SizePrefix(s) == Err(SizeNegative)
    ensures s >= 0x1FFFFFFF ==> SizePrefix(s) == Err(SizeTooLarge)
    ensures 0 <= s < 0x7F ==> SizePrefix(s) == Ok([s as byte])
    ensures 0x7F <= s < 0x3FFF ==>
      && |SizePrefix(s).value| == 2
      && 0x80 <= SizePrefix(s).value[0] < 0xC0
      && FromBigEndian(SizePrefix(s).value) == s + 0x8000
    ensures 0x3FFF <= s < 0x1FFFFFFF ==>
      && |SizePrefix(s).value| == 4
      && 0xC0 <= SizePrefix(s).value[0] < 0xE0
      && FromBigEndian(SizePrefix(s).value) == s + 0xC0000000
  {
    if 0 <= s < 0x7F {
      assert BigEndian(s, 1) == BigEndian(s / 0x100, 0) + [(s % 0x100) as byte];
      assert BigEndian(s, 1) == [s as byte];
      assert NumberBytes(Int(s), U8) == BigEndian(s, 1);
    } else if 0x7F <= s < 0x3FFF {
      NumberBytesValue(Int(s + 0x8000), U16);
      BigEndianLead(s + 0x8000, 2);
    } else if 0x3FFF <= s < 0x1FFFFFFF {
      NumberBytesValue(Int(s + 0xC0000000), U32);
      BigEndianLead(s + 0xC0000000, 4);
    }
  }

  /** Buffer.concat: the fragments joined in the order they were pushed. */
  function Concat(fragments: seq<seq<byte>>): seq<byte>
  {
    if fragments == [] then []
    else Concat(fragments[..|fragments| - 1]) + fragments[|fragments| - 1]
  }

  class BufferWriter {
    var bufferList: seq<seq<byte>>

    /** The bytes toBuffer would return now. */
    function Contents(): seq<byte>
      reads this
    {
      Concat(bufferList)
    }

    constructor()
      ensures bufferList == [] && Contents() == []
    {
      bufferList := [];
    }

    /** Pushes the fragment and keeps every earlier one as it was. */
    method Push(fragment: seq<byte>)
      modifies this
      ensures bufferList == old(bufferList) + [fragment]
      ensures Contents() == old(Contents()) + fragment
    {
      bufferList := bufferList + [fragment];
      assert bufferList[..|bufferList| - 1] == old(bufferList);
    }

    /** string(str): one byte per character. */
    method String(str: string)
      modifies this
      ensures bufferList == old(bufferList) + [Latin1Encode(str)]
      ensures Contents() == old(Contents()) + Latin1Encode(str)
    {
      Push(Latin1Encode(str));
    }

    /** size(s): the three-tier length prefix; throws, appending nothing, for
        a negative size or one of 0x1FFFFFFF or more. */
    method Size(s: int) returns (o: Outcome)
      modifies this
      ensures SizePrefix(s).Ok? ==> o == Pass && bufferList == old(bufferList) + [SizePrefix(s).value]
      ensures SizePrefix(s).Err? ==> o == Fail(SizePrefix(s).error) && bufferList == old(bufferList)
      ensures Contents() == old(Contents()) + (if o.Pass? then SizePrefix(s).value else [])
    {
      if s < 0 {
        return Fail(SizeNegative);
      }
      if s < 0x7F {
        Number(Int(s), U8);
        return Pass;
      }
      if s < 0x3FFF {
        Number(Int(s + 0x8000), U16);
        return Pass;
      }
      if s < 0x1FFFFFFF {
        Number(Int(s + 0xC0000000), U32);
        return Pass;
      }
      return Fail(SizeTooLarge);
    }

    /** number(val, bit): the value at the width, big-endian. */
    method Number(val: Number, w: Width)
      requires Writable(val, w)
      modifies this
      ensures bufferList == old(bufferList) + [NumberBytes(val, w)]
      ensures Contents() == old(Contents()) + NumberBytes(val, w)
    {
      var buffer: seq<byte>;
      match w {
        case U8 => buffer := BigEndian(val.i, 1);
        case U16 => buffer := BigEndian(val.i, 2);
        case U32 => buffer := BigEndian(val.i, 4);
        case Double =>
          buffer := if val.Int? then Binary64OfInt(val.i) else val.bits;
      }
      Push(buffer);
    }

    /** toBuffer(): everything appended so far, in order. */
    method ToBuffer() returns (r: seq<byte>)
      ensures r == Contents()
    {
      r := Concat(bufferList);
    }
  }
}
