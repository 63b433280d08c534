/** What the wire format of buffer-serializer/buffer-serializer.ts
    guarantees, and where it does not: round trips, tier choice, schema
    lookup and the quirks of the schema path. */
module CodecProperties {
  import opened Bytes
  import opened Text
  import opened Results
  import opened Types
  import opened Values
  import opened Writer
  import opened Reader
  import opened Codec

  /** number(tag, u8) writes the tag byte itself. */
  lemma TagByte(t: byte)
    ensures NumberBytes(Int(t as int), U8) == [t]
  {
    assert BigEndian(t as int, 1) == BigEndian(t as int / 0x100, 0) + [(t as int % 0x100) as byte];
  }

  /** number(u8) reads the tag byte as itself. */
  lemma ReadTag(b: byte, rest: seq<byte>)
    ensures ReadNumber([b] + rest, U8) == Ok((Int(b as int), rest))
  {
    assert ([b] + rest)[..1] == [b];
    assert ([b] + rest)[1..] == rest;
    assert FromBigEndian([b]) == b as int by {
      assert [b][..0] == [];
    }
  }

  // ---------------------------------------------------------------------
  // Numbers

  /** The narrowest of u8, u16, u32 that holds m. */
  function SmallestWidth(m: nat): (w: Width)
    requires m <= 0xFFFF_FFFF
    ensures w != Double && Writable(Int(m), w)
    ensures w == U16 ==> m > 0xFF
    ensures w == U32 ==> m > 0xFFFF
  {
    if m <= 0xFF then U8 else if m <= 0xFFFF then U16 else U32
  }

  /** An integer with |n| <= 0xFFFFFFFF is written in the narrowest width
      with a tag for its sign and width, and reads back as n, consuming
      exactly the tag and that width. */
  lemma {:induction false} IntegerRoundTrip(n: int, rest: seq<byte>)
    requires -0xFFFF_FFFF <= n <= 0xFFFF_FFFF
    ensures var m := if n < 0 then -n else n;
      && EncNumber(Int(n)) == [EncNumber(Int(n))[0]] + NumberBytes(Int(m), SmallestWidth(m))
      && (n >= 0 <==> EncNumber(Int(n))[0] in {TagPositive8, TagPositive16, TagPositive32})
      && Decode(EncNumber(Int(n)) + rest) == Ok((Num(Int(n)), rest))
  {
    var m := if n < 0 then -n else n;
    var w := SmallestWidth(m);
    var bs := EncNumber(Int(n));
    var payload := NumberBytes(Int(m), w);
    assert bs == [bs[0]] + payload;
    ReadNumberWritten(Int(m), w, rest);
    assert (bs + rest)[1..] == payload + rest;
  }

  /** Integers beyond 32 bits, in either direction, go out as doubles. */
  lemma LargeIntegerAsDouble(n: int, rest: seq<byte>)
    requires n < -0xFFFF_FFFF || n > 0xFFFF_FFFF
    ensures EncNumber(Int(n)) == [TagDouble] + Binary64OfInt(n)
    ensures Decode(EncNumber(Int(n)) + rest) == Ok((Num(Float(Binary64OfInt(n))), rest))
  {
    var bs := EncNumber(Int(n));
    assert (bs + rest)[1..] == Binary64OfInt(n) + rest;
    ReadNumberWritten(Int(n), Double, rest);
  }

  /** Any other number is its eight binary64 bytes after 'd', and reads back as them. */
  lemma FloatRoundTrip(bits: Bytes8, rest: seq<byte>)
    ensures Decode(EncNumber(Float(bits)) + rest) == Ok((Num(Float(bits)), rest))
  {
    var bs := EncNumber(Float(bits));
    assert (bs + rest)[1..] == bits + rest;
    ReadNumberWritten(Float(bits), Double, rest);
  }

  // ---------------------------------------------------------------------
  // Strings and booleans

  /** A non-empty string of characters below 256 reads back as itself. */
  lemma {:induction false} StringRoundTrip(s: string, rest: seq<byte>)
    requires 1 <= |s| < 0x1FFFFFFF && IsLatin1(s)
    ensures EncString(s).Ok?
    ensures Decode(EncString(s).value + rest) == Ok((Str(s), rest))
  {
    SizePrefixTiers(|s|);
    var prefix := SizePrefix(|s|).value;
    var text := Latin1Encode(s);
    SizeRoundTrip(|s|, text + rest);
    StringBody(s, text, rest);
    StringTag(prefix, text, rest);
  }

  /** The string's bytes, read back at its length. */
  lemma StringBody(s: string, text: seq<byte>, rest: seq<byte>)
    requires IsLatin1(s) && text == Latin1Encode(s)
    ensures ReadString(text + rest, |s|) == (s, rest)
  {
    assert (text + rest)[..|s|] == text;
    assert (text + rest)[|s|..] == rest;
    Latin1RoundTrip(s);
  }

  lemma StringTag(prefix: seq<byte>, text: seq<byte>, rest: seq<byte>)
    ensures ([TagString] + prefix + text + rest)[0] == TagString
    ensures ([TagString] + prefix + text + rest)[1..] == prefix + (text + rest)
  {
  }

  /** The empty string is written, but its zero size byte stops the read. */
  lemma EmptyStringUnreadable(rest: seq<byte>)
    ensures EncString("") == Ok([TagString, 0])
    ensures Decode(EncString("").value + rest) == Err(UnexpectedEnd)
  {
    SizePrefixTiers(0);
    var bs := EncString("").value;
    assert bs == [TagString, 0];
    assert (bs + rest)[1..] == [0] + rest;
    ReadSizeOne(0, rest);
  }

  lemma BoolRoundTrip(b: bool, rest: seq<byte>)
    ensures |EncBool(b)| == 1
    ensures Decode(EncBool(b) + rest) == Ok((Bool(b), rest))
  {
    assert (EncBool(b) + rest)[1..] == rest;
  }

  // ---------------------------------------------------------------------
  // Dates (schema type 'date')

  /** Every instant from 0 up to 2^32 seconds reads back exactly; 'D' carries
      the milliseconds when there are any, 'T' only whole seconds. */
  lemma {:induction false} DateRoundTrip(t: int, rest: seq<byte>)
    requires 0 <= t < 0x1_0000_0000 * 1000
    ensures EncDate(t).Ok?
    ensures EncDate(t).value[0] == (if t % 1000 != 0 then TagDateMs else TagDate)
    ensures |EncDate(t).value| == (if t % 1000 != 0 then 7 else 5)
    ensures Decode(EncDate(t).value + rest) == Ok((Date(t), rest))
  {
    var seconds := t / 1000;
    var ms := t % 1000;
    var sb := NumberBytes(Int(seconds), U32);
    var bs := EncDate(t).value;
    if ms != 0 {
      var mb := NumberBytes(Int(ms), U16);
      assert bs == [TagDateMs] + sb + mb;
      assert (bs + rest)[1..] == sb + (mb + rest);
      ReadNumberWritten(Int(seconds), U32, mb + rest);
      ReadNumberWritten(Int(ms), U16, rest);
    } else {
      assert bs == [TagDate] + sb;
      assert (bs + rest)[1..] == sb + rest;
      ReadNumberWritten(Int(seconds), U32, rest);
    }
  }

  /** Before the epoch the seconds are negative and the u32 write throws. */
  lemma NegativeDateRejected(t: int)
    requires t < 0
    ensures EncDate(t) == Err(OutOfRange)
  {
  }

  // ---------------------------------------------------------------------
  // Numeric schema types

  /** Under 'u32' a non-negative integer reads back: the tag is 'P' or 'I'
      and the decoder reads four bytes after either (0 comes back negated). */
  lemma {:induction false} ForcedU32RoundTrip(n: int, rest: seq<byte>)
    requires 0 <= n <= 0xFFFF_FFFF
    ensures EncPrim(Num(Int(n)), "u32").Ok?
    ensures Decode(EncPrim(Num(Int(n)), "u32").value + rest) == Ok((Num(Int(n)), rest))
  {
    var payload := NumberBytes(Int(n), U32);
    var bs := EncPrim(Num(Int(n)), "u32").value;
    assert bs == [if n > 0 then TagPositive32 else TagNegative32] + payload;
    assert (bs + rest)[1..] == payload + rest;
    ReadNumberWritten(Int(n), U32, rest);
  }

  /** Under any other numeric type the tag still promises four bytes, so the
      decoder never stops where the value's bytes end. */
  lemma {:induction false} ForcedWidthMisframed(v: Value, w: Width, rest: seq<byte>)
    requires w != U32 && v.Num? && Writable(v.n, w)
    ensures EncPrim(v, WidthName(w)).Ok?
    ensures |EncPrim(v, WidthName(w)).value| == 1 + ByteCount(w) != 5
    ensures var r := Decode(EncPrim(v, WidthName(w)).value + rest);
      r.Ok? ==> |r.value.1| == |rest| + ByteCount(w) - 4 != |rest|
  {
    ParseWidthName(w);
    var bs := EncPrim(v, WidthName(w)).value;
    assert bs[0] == TagPositive32 || bs[0] == TagNegative32;
    assert (bs + rest)[0] == bs[0];
    assert |(bs + rest)[1..]| == ByteCount(w) + |rest|;
  }

  /** A schema type name the encoder has no branch for writes nothing for the value. */
  lemma UnhandledSchemaTypeWritesNothing(v: Value, name: string)
    requires name !in {"u8", "u16", "u32", "double", "string", "date", "bool"}
    ensures EncPrim(v, name) == Ok([])
  {
  }

  // ---------------------------------------------------------------------
  // Schema lookup

  /** A record field with no schema entry, or an entry of "", is inferred from its value. */
  lemma MissingEntryInfers(schema: Schema, k: string, v: Value)
    requires k !in schema || schema[k] == Prim("")
    ensures EncTyped(schema, v, Some(k), None) == EncInfer(schema, v)
  {
  }

  /** A record field uses its top-level entry. */
  lemma TopLevelEntryUsed(schema: Schema, k: string, v: Value)
    requires k in schema && schema[k].Prim? && schema[k].name != ""
    ensures EncTyped(schema, v, Some(k), None) == EncPrim(v, schema[k].name)
  {
  }

  /** Under an array's nested entry a field's type comes from that entry alone:
      a top-level entry of the same name is not consulted. */
  lemma NestedEntryUsed(schema: Schema, a: string, k: string, v: Value)
    requires a != "" && a in schema && schema[a].Nested?
    ensures var fields := schema[a].fields;
      && (k in fields && fields[k] != "" ==> EncTyped(schema, v, Some(k), Some(a)) == EncPrim(v, fields[k]))
      && (k !in fields || fields[k] == "" ==> EncTyped(schema, v, Some(k), Some(a)) == EncInfer(schema, v))
  {
  }

  /** A nested entry on a field that holds a plain record changes nothing:
      the record's own fields are looked up at the top level again. */
  lemma NestedEntryIgnoredForRecord(schema: Schema, k: string, fs: seq<(string, Value)>)
    requires k in schema && schema[k].Nested?
    ensures EncTyped(schema, Rec(fs), Some(k), None) == EncInfer(schema, Rec(fs))
  {
  }

  /** An array whose first element is an object, under a nested entry: its
      elements go through the forEach that writes each as a generic object,
      with the fields typed under the array's key. */
  lemma ArrayOfObjectsUsesNestedEntry(schema: Schema, a: string, es: seq<Value>)
    requires a in schema && schema[a].Nested?
    requires |es| > 0 && IsObject(es[0])
    ensures EncTyped(schema, Arr(es), Some(a), None) == Wrap(TagArray, EncObjElems(schema, es, Some(a)))
  {
    assert EncTyped(schema, Arr(es), Some(a), None) == EncObject(schema, Arr(es), Some(a));
  }

  lemma {:induction false} ConcatCons(f: seq<byte>, fs: seq<seq<byte>>)
    ensures Concat([f] + fs) == f + Concat(fs)
    decreases |fs|
  {
    if fs == [] {
      assert [f] + fs == [f];
      assert Concat([f]) == Concat([]) + f;
    } else {
      var all := [f] + fs;
      assert all[..|all| - 1] == [f] + fs[..|fs| - 1];
      ConcatCons(f, fs[..|fs| - 1]);
    }
  }

  /** The forEach writes every element, in order, as 'O', the element's own
      keys and values, and '!'. */
  lemma {:induction false} ObjectElemsFramed(schema: Schema, es: seq<Value>, nested: Option<string>, frames: seq<seq<byte>>)
    requires NestedOk(schema, nested) && |frames| == |es|
    requires forall i :: 0 <= i < |es| ==>
      Props(es[i]).Ok? && Wrap(TagObject, EncFields(schema, Props(es[i]).value, nested)) == Ok(frames[i])
    ensures EncObjElems(schema, es, nested) == Ok(Concat(frames))
    decreases |es|
  {
    if es == [] {
    } else {
      assert EncObjElem(schema, es[0], nested) == Ok(frames[0]);
      ObjectElemsFramed(schema, es[1..], nested, frames[1..]);
      assert frames == [frames[0]] + frames[1..];
      ConcatCons(frames[0], frames[1..]);
    }
  }

  /** The first element that cannot be written ends the forEach with its error. */
  lemma {:induction false} ObjectElemsFirstFailure(schema: Schema, es: seq<Value>, nested: Option<string>, j: nat)
    requires NestedOk(schema, nested) && j < |es|
    requires forall i :: 0 <= i < j ==> EncObjElem(schema, es[i], nested).Ok?
    requires EncObjElem(schema, es[j], nested).Err?
    ensures EncObjElems(schema, es, nested) == Err(EncObjElem(schema, es[j], nested).error)
    decreases j
  {
    if j > 0 {
      assert EncObjElem(schema, es[0], nested).Ok?;
      ObjectElemsFirstFailure(schema, es[1..], nested, j - 1);
    }
  }

  /** An element with no own keys (a Set, a Map, a Date, a number or a
      boolean after an object) is written as 'O' '!'. */
  lemma KeylessElementWrittenEmpty(schema: Schema, e: Value, nested: Option<string>)
    requires NestedOk(schema, nested)
    requires e.SetOf? || e.MapOf? || e.Date? || e.Num? || e.Bool? || e.Other?
    ensures EncObjElem(schema, e, nested) == Ok([TagObject, TagEnd])
  {
    assert Props(e) == Ok([]);
    assert [TagObject] + [] + [TagEnd] == [TagObject, TagEnd];
  }

  // ---------------------------------------------------------------------
  // Failures and dropped output

  /** A byte with no case in the decoder's switch is an unknown code; this
      includes the end marker and 'S' and 'M', which no encoder writes. */
  lemma UnknownCodeRejected(c: byte, rest: seq<byte>)
    requires !IsDecodeTag(c)
    ensures Decode([c] + rest) == Err(UnknownCode(c as int))
    ensures !IsDecodeTag(TagEnd) && !IsDecodeTag(0x53) && !IsDecodeTag(0x4D)
  {
  }

  /** A value of any other typeof is an invalid type, also as a field. */
  lemma UndefinedRejected(schema: Schema, v: Value, k: string, ps: seq<(string, Value)>)
    requires v.Undefined? || v.Other?
    requires k !in schema && ValidKey(k) && |k| < 0x1FFFFFFF
    ensures EncInfer(schema, v) == Err(InvalidType)
    ensures EncFields(schema, [(k, v)] + ps, None) == Err(InvalidType)
  {
  }

  /** Under schema type `bool` the value is only tested for truthiness:
      `undefined` and `0n` write `f`, and a function, a symbol or any other
      bigint writes `t` although inference would reject it. */
  lemma BoolEntryTruthiness(v: Value)
    requires v.Undefined? || v.Other?
    ensures EncPrim(v, "bool") == Ok(if v.Other? && !v.zero then [TagTrue] else [TagFalse])
    ensures v.Other? && !v.zero ==> EncInfer(map[], v).Err?
  {
  }

  /** A key the pattern rejects is not written, but its value still is,
      typed by the schema entry for that key. */
  lemma InvalidKeyDropped(schema: Schema, k: string, v: Value, ps: seq<(string, Value)>)
    requires !ValidKey(k) && EncTyped(schema, v, Some(k), None).Ok?
    ensures EncFields(schema, [(k, v)] + ps, None)
         == Prepend(EncTyped(schema, v, Some(k), None).value, EncFields(schema, ps, None))
  {
    var fs := [(k, v)] + ps;
    assert fs[0] == (k, v) && fs[1..] == ps;
    assert EncKey(k) == Ok([]);
    assert [] + EncTyped(schema, v, Some(k), None).value == EncTyped(schema, v, Some(k), None).value;
  }

  /** The empty key passes the pattern and is written as the empty string,
      whose zero size byte the object decoder cannot get past. */
  lemma EmptyKeyUnreadable(schema: Schema, v: Value, ps: seq<(string, Value)>, acc: seq<(string, Value)>, rest: seq<byte>)
    requires EncTyped(schema, v, Some(""), None).Ok?
    ensures var r := EncFields(schema, [("", v)] + ps, None);
      r.Ok? ==> r.value[..2] == [TagString, 0] && DecodeFields(r.value + rest, acc) == Err(UnexpectedEnd)
  {
    var fs := [("", v)] + ps;
    assert fs[0] == ("", v) && fs[1..] == ps;
    EmptyStringUnreadable(rest);
    assert EncKey("") == Ok([TagString, 0]);
    var r := EncFields(schema, fs, None);
    if r.Ok? {
      var s := r.value + rest;
      assert s[0] == TagString && s[1] == 0;
      assert Peek(s[1..]) == Err(UnexpectedEnd);
    }
  }

  /** `bool` is JavaScript truthiness: +0 and -0 are written as false, like NaN. */
  lemma ZeroIsFalse(bits: Bytes8)
    requires IsZero(bits) || IsNaN(bits)
    ensures EncPrim(Num(Float(bits)), "bool") == Ok([TagFalse])
  {
  }

  /** Without a schema entry a Set, a Map or a Date has no own keys and is written as an empty object. */
  lemma KeylessObjectsWrittenEmpty(schema: Schema, v: Value)
    requires v.SetOf? || v.MapOf? || v.Date?
    ensures EncInfer(schema, v) == Ok([TagObject, TagEnd])
  {
    assert Props(v) == Ok([]);
    assert EncFields(schema, [], None) == Ok([]);
    assert EncRecord(schema, v) == Ok([TagObject] + [] + [TagEnd]);
    assert EncObject(schema, v, None) == EncRecord(schema, v);
    assert [TagObject] + [] + [TagEnd] == [TagObject, TagEnd];
  }

  // ---------------------------------------------------------------------
  // Property assignment in the object decoder

  /** After `acc[k] = x`, k reads as x, every other key as before, the
      existing keys keep their places, and a new key is appended. */
  lemma {:induction false} AssignSemantics(fs: seq<(string, Value)>, k: string, x: Value)
    ensures Get(Assign(fs, k, x), k) == Some(x)
    ensures forall j :: j != k ==> Get(Assign(fs, k, x), j) == Get(fs, j)
    ensures |Assign(fs, k, x)| == if HasKey(fs, k) then |fs| else |fs| + 1
    ensures forall i :: 0 <= i < |fs| ==> Assign(fs, k, x)[i].0 == fs[i].0
    ensures !HasKey(fs, k) ==> Assign(fs, k, x) == fs + [(k, x)]
  {
    if fs != [] && fs[0].0 != k {
      AssignSemantics(fs[1..], k, x);
      var r := Assign(fs, k, x);
      assert r == [fs[0]] + Assign(fs[1..], k, x);
      forall i | 0 <= i < |fs|
        ensures r[i].0 == fs[i].0
      {
        if i > 0 {
          assert r[i] == Assign(fs[1..], k, x)[i - 1];
        }
      }
      if HasKey(fs, k) {
        var i :| 0 <= i < |fs| && fs[i].0 == k;
        assert fs[1..][i - 1].0 == k;
      } else {
        assert forall i :: 0 <= i < |fs[1..]| ==> fs[1..][i].0 == fs[i + 1].0;
        assert [fs[0]] + (fs[1..] + [(k, x)]) == fs + [(k, x)];
      }
    } else if fs != [] {
      assert HasKey(fs, k);
    }
  }

  /** A schema-typed value writes nothing (a type name no branch handles)
      or bytes that start with a value's tag, never with `!`. */
  lemma TypedOutputShape(schema: Schema, v: Value, key: Option<string>, nested: Option<string>)
    requires NestedOk(schema, nested)
    ensures var r := EncTyped(schema, v, key, nested);
      r.Ok? ==> r.value == [] || StartsValue(r.value)
  {
  }

  /** The key loop's bytes never start with `!`, so the decoder's loop
      does not stop inside them. */
  lemma {:induction false} FieldsOutputShape(schema: Schema, ps: seq<(string, Value)>, nested: Option<string>)
    requires NestedOk(schema, nested)
    ensures var r := EncFields(schema, ps, nested);
      r.Ok? ==> r.value == [] || StartsValue(r.value)
    decreases |ps|
  {
    if ps != [] {
      FieldsOutputShape(schema, ps[1..], nested);
      TypedOutputShape(schema, ps[0].1, Some(ps[0].0), nested);
    }
  }

  /** The element loop's bytes never start with `!` either. */
  lemma {:induction false} ElemsOutputShape(schema: Schema, es: seq<Value>, nested: Option<string>)
    requires NestedOk(schema, nested)
    ensures var r := EncElems(schema, es, nested);
      r.Ok? ==> r.value == [] || StartsValue(r.value)
    decreases |es|
  {
    if es != [] {
      ElemsOutputShape(schema, es[1..], nested);
      TypedOutputShape(schema, es[0], None, nested);
    }
  }
}
