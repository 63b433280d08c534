/** buffer-serializer/buffer-serializer.ts: the codec as the source runs it,
    appending to a shared BufferWriter while it walks the value, and reading
    from a shared BufferReader while it rebuilds one.  Every method is proved
    to do what the functions of module Codec say. */
module Serializer {
  import opened Bytes
  import opened Text
  import opened Results
  import opened Types
  import opened Values
  import opened Writer
  import opened Reader
  import opened Codec
  import opened CodecProperties

  /** A write step did what the encoder function says: appended its bytes
      and passed, or failed with its error. */
  predicate Emitted(before: seq<byte>, after: seq<byte>, spec: Result<seq<byte>>, o: Outcome)
  {
    match spec
    case Ok(bs) => o == Pass && after == before + bs
    case Err(e) => o == Fail(e)
  }

  /** A read step did what the decoder function says: returned its value and
      left the cursor after it, or failed with its error. */
  predicate Decoded(spec: Result<(Value, seq<byte>)>, r: Result<Value>, after: seq<byte>)
  {
    match spec
    case Ok((v, rest)) => r == Ok(v) && after == rest
    case Err(e) => r == Err(e)
  }

  /** The tag toBufferInternalObjectDate writes before the seconds, which
      stays behind when the seconds do not fit. */
  function DateTag(t: int): byte
  {
    if t % 1000 != 0 then TagDateMs else TagDate
  }

  /** What a failed write under a type-name entry leaves in the writer: the
      tag written before Node's range check or the size prefix threw. */
  function PrimLeftover(v: Value, name: string): seq<byte>
  {
    if ParseWidth(name).Some? then
      (if v.Num? then [if Positive(v.n) then TagPositive32 else TagNegative32] else [])
    else if name == "string" then (if v.Str? then [TagString] else [])
    else if name == "date" then (if v.Date? then [DateTag(v.time)] else [])
    else []
  }

  /** buffWriter.string('O' | '!' | 'a') writes the tag's byte. */
  lemma LetterBytes()
    ensures Latin1Encode("O") == [TagObject]
    ensures Latin1Encode("!") == [TagEnd]
    ensures Latin1Encode("a") == [TagArray]
  {
  }

  lemma PrependAppend(a: seq<byte>, b: seq<byte>, r: Result<seq<byte>>)
    ensures Prepend(a + b, r) == Prepend(a, Prepend(b, r))
  {
    if r.Ok? {
      assert a + b + r.value == a + (b + r.value);
    }
  }

  /** One turn of the key loop: a failing key or value ends the whole loop
      with its error; otherwise the bytes already written, the key and the
      value are followed by what the rest of the loop writes. */
  lemma FieldsLoopStep(schema: Schema, ps: seq<(string, Value)>, i: nat, nested: Option<string>, before: seq<byte>)
    requires NestedOk(schema, nested) && i < |ps|
    ensures EncKey(ps[i].0).Err? ==> EncFields(schema, ps[i..], nested) == Err(EncKey(ps[i].0).error)
    ensures EncKey(ps[i].0).Ok? && EncTyped(schema, ps[i].1, Some(ps[i].0), nested).Err? ==>
      EncFields(schema, ps[i..], nested) == Err(EncTyped(schema, ps[i].1, Some(ps[i].0), nested).error)
    ensures EncKey(ps[i].0).Ok? && EncTyped(schema, ps[i].1, Some(ps[i].0), nested).Ok? ==>
      Prepend(before + EncKey(ps[i].0).value + EncTyped(schema, ps[i].1, Some(ps[i].0), nested).value,
              EncFields(schema, ps[i + 1..], nested))
      == Prepend(before, EncFields(schema, ps[i..], nested))
  {
    assert ps[i..][0] == ps[i] && ps[i..][1..] == ps[i + 1..];
    if EncKey(ps[i].0).Ok? && EncTyped(schema, ps[i].1, Some(ps[i].0), nested).Ok? {
      var kb := EncKey(ps[i].0).value;
      var xb := EncTyped(schema, ps[i].1, Some(ps[i].0), nested).value;
      PrependAppend(before, kb + xb, EncFields(schema, ps[i + 1..], nested));
      assert before + kb + xb == before + (kb + xb);
    }
  }

  /** A container's tag, then its body: a failing body fails the container,
      and a passing one is closed by the end marker. */
  lemma WrapEmitted(start: seq<byte>, tag: byte, body: Result<seq<byte>>, mid: seq<byte>, o: Outcome)
    requires Emitted(start + [tag], mid, body, o)
    ensures o.Fail? ==> Emitted(start, mid, Wrap(tag, body), o)
    ensures o.Pass? ==> Emitted(start, mid + [TagEnd], Wrap(tag, body), Pass)
  {
    if o.Pass? {
      assert mid + [TagEnd] == start + ([tag] + body.value + [TagEnd]);
    }
  }

  class BufferSerializer {
    const schema: Schema
    var buffWriter: BufferWriter
    var buffReader: BufferReader

    constructor(schema: Schema)
      ensures this.schema == schema
      ensures buffWriter.Contents() == [] && buffReader.Remaining() == []
    {
      this.schema := schema;
      buffWriter := new BufferWriter();
      buffReader := new BufferReader([], 0);
    }

    /** toBuffer: a fresh writer, the value, the concatenated bytes. */
    method ToBuffer(data: Value) returns (r: Result<seq<byte>>)
      modifies this
      ensures r == Serialize(schema, data)
    {
      buffWriter := new BufferWriter();
      var o := SerializeInternal(data);
      if o.Fail? {
        return Err(o.error);
      }
      assert [] + EncInfer(schema, data).value == EncInfer(schema, data).value;
      var bytes := buffWriter.ToBuffer();
      return Ok(bytes);
    }

    method SerializeInternal(data: Value) returns (o: Outcome)
      modifies buffWriter
      ensures Emitted(old(buffWriter.Contents()), buffWriter.Contents(), EncInfer(schema, data), o)
      decreases Size(data), 2
    {
      match data
      case Num(n) =>
        NumberInternal(n);
        o := Pass;
      case Str(s) =>
        o := StringInternal(s);
      case Bool(b) =>
        BooleanInternal(b);
        o := Pass;
      case Undefined =>
        o := Fail(InvalidType);
      case Other(_) =>
        o := Fail(InvalidType);
      case _ =>
        o := ObjectInternal(data, None);
    }

    method SerializeTyped(data: Value, key: Option<string>, nestedKey: Option<string>) returns (o: Outcome)
      requires NestedOk(schema, nestedKey)
      modifies buffWriter
      ensures Emitted(old(buffWriter.Contents()), buffWriter.Contents(), EncTyped(schema, data, key, nestedKey), o)
      decreases Size(data), 3
    {
      var k := KeyText(key);
      var schemaType: Option<SchemaEntry> := if k in schema then Some(schema[k]) else None;
      if IsTruthyKey(nestedKey) {
        var fields := schema[nestedKey.value].fields;
        schemaType := if k in fields then Some(Prim(fields[k])) else None;
      }
      assert schemaType == SchemaType(schema, key, nestedKey);
      if schemaType.None? || schemaType.value == Prim("") {
        assert EncTyped(schema, data, key, nestedKey) == EncInfer(schema, data);
        o := SerializeInternal(data);
        return;
      }
      match schemaType.value
      case Nested(_) =>
        assert EncTyped(schema, data, key, nestedKey) == EncObject(schema, data, key);
        o := ObjectInternal(data, key);
      case Prim(name) =>
        assert EncTyped(schema, data, key, nestedKey) == EncPrim(data, name);
        o := PrimInternal(data, name);
    }

    /** The type-name branches of serializeToTypedBuffer. */
    method PrimInternal(data: Value, name: string) returns (o: Outcome)
      modifies buffWriter
      ensures Emitted(old(buffWriter.Contents()), buffWriter.Contents(), EncPrim(data, name), o)
      ensures o.Fail? ==> buffWriter.Contents() == old(buffWriter.Contents()) + PrimLeftover(data, name)
    {
      var w := ParseWidth(name);
      if w.Some? {
        if !data.Num? {
          return Fail(NonNumberAtWidth);
        }
        var tag := if Positive(data.n) then TagPositive32 else TagNegative32;
        if !Writable(data.n, w.value) {
          TagByte(tag);
          buffWriter.Number(Int(tag as int), U8);
          return Fail(if data.n.Int? then OutOfRange else FractionAtWidth);
        }
        WriteTagged(tag, data.n, w.value);
        o := Pass;
      } else if name == "string" {
        if !data.Str? {
          return Fail(NonStringAsString);
        }
        o := StringInternal(data.s);
      } else if name == "date" {
        if !data.Date? {
          return Fail(TypeError);
        }
        o := DateInternal(data.time);
      } else if name == "bool" {
        BooleanInternal(Truthy(data));
        o := Pass;
      } else {
        o := Pass;
      }
    }

    method ObjectInternal(data: Value, key: Option<string>) returns (o: Outcome)
      requires NestedOk(schema, key)
      modifies buffWriter
      ensures Emitted(old(buffWriter.Contents()), buffWriter.Contents(), EncObject(schema, data, key), o)
      decreases Size(data), 1
    {
      if data.Arr? {
        o := ArrayInternal(data, key);
      } else {
        o := ObjectGenericInternal(data);
      }
    }

    method ObjectGenericInternal(data: Value) returns (o: Outcome)
      modifies buffWriter
      ensures Emitted(old(buffWriter.Contents()), buffWriter.Contents(), EncRecord(schema, data), o)
      decreases Size(data), 0
    {
      ghost var start := buffWriter.Contents();
      LetterBytes();
      buffWriter.String("O");
      var keys := Props(data);
      if keys.Err? {
        return Fail(keys.error);
      }
      assert EncRecord(schema, data) == Wrap(TagObject, EncFields(schema, keys.value, None));
      o := FieldsInternal(keys.value, None);
      WrapEmitted(start, TagObject, EncFields(schema, keys.value, None), buffWriter.Contents(), o);
      if o.Fail? {
        return;
      }
      buffWriter.String("!");
    }

    /** The loop over an object's keys: each key, then its value typed by the schema. */
    method FieldsInternal(ps: seq<(string, Value)>, nestedKey: Option<string>) returns (o: Outcome)
      requires NestedOk(schema, nestedKey)
      modifies buffWriter
      ensures Emitted(old(buffWriter.Contents()), buffWriter.Contents(), EncFields(schema, ps, nestedKey), o)
      decreases FieldsSize(ps), 4
    {
      var i := 0;
      while i < |ps|
        invariant 0 <= i <= |ps|
        invariant Prepend(buffWriter.Contents(), EncFields(schema, ps[i..], nestedKey))
               == Prepend(old(buffWriter.Contents()), EncFields(schema, ps, nestedKey))
      {
        FieldSizeAt(ps, i);
        FieldsLoopStep(schema, ps, i, nestedKey, buffWriter.Contents());
        var ko := KeyInternal(ps[i].0);
        if ko.Fail? {
          return ko;
        }
        var vo := SerializeTyped(ps[i].1, Some(ps[i].0), nestedKey);
        if vo.Fail? {
          return vo;
        }
        i := i + 1;
      }
      assert ps[|ps|..] == [];
      o := Pass;
    }

    method ArrayInternal(data: Value, key: Option<string>) returns (o: Outcome)
      requires data.Arr? && NestedOk(schema, key)
      modifies buffWriter
      ensures Emitted(old(buffWriter.Contents()), buffWriter.Contents(), EncArray(schema, data, key), o)
      decreases Size(data), 0
    {
      ghost var start := buffWriter.Contents();
      LetterBytes();
      buffWriter.String("a");
      var es := data.elems;
      ghost var body := if |es| > 0 && IsObject(es[0]) then EncObjElems(schema, es, key) else EncElems(schema, es, key);
      assert EncArray(schema, data, key) == Wrap(TagArray, body);
      if |es| > 0 && IsObject(es[0]) {
        o := ObjectElemsInternal(es, key);
      } else {
        o := ElemsInternal(es, key);
      }
      WrapEmitted(start, TagArray, body, buffWriter.Contents(), o);
      if o.Fail? {
        return;
      }
      buffWriter.String("!");
    }

    /** The forEach over an array whose first element is an object: each
        element as a generic object, its fields typed under the array's key. */
    method ObjectElemsInternal(es: seq<Value>, key: Option<string>) returns (o: Outcome)
      requires NestedOk(schema, key)
      modifies buffWriter
      ensures Emitted(old(buffWriter.Contents()), buffWriter.Contents(), EncObjElems(schema, es, key), o)
      decreases ElemsSize(es), 4
    {
      var i := 0;
      while i < |es|
        invariant 0 <= i <= |es|
        invariant Prepend(buffWriter.Contents(), EncObjElems(schema, es[i..], key))
               == Prepend(old(buffWriter.Contents()), EncObjElems(schema, es, key))
      {
        ElemSizeAt(es, i);
        assert es[i..][0] == es[i] && es[i..][1..] == es[i + 1..];
        ghost var before := buffWriter.Contents();
        var eo := ObjectElemInternal(es[i], key);
        if eo.Fail? {
          return eo;
        }
        ghost var xb := EncObjElem(schema, es[i], key).value;
        assert EncObjElems(schema, es[i..], key) == Prepend(xb, EncObjElems(schema, es[i + 1..], key));
        PrependAppend(before, xb, EncObjElems(schema, es[i + 1..], key));
        i := i + 1;
      }
      assert es[|es|..] == [];
      assert buffWriter.Contents() + [] == buffWriter.Contents();
      o := Pass;
    }

    /** The forEach callback: 'O', the element's own keys and values, '!'. */
    method ObjectElemInternal(element: Value, key: Option<string>) returns (o: Outcome)
      requires NestedOk(schema, key)
      modifies buffWriter
      ensures Emitted(old(buffWriter.Contents()), buffWriter.Contents(), EncObjElem(schema, element, key), o)
      decreases Size(element), 0
    {
      ghost var start := buffWriter.Contents();
      LetterBytes();
      buffWriter.String("O");
      var objectKeys := Props(element);
      if objectKeys.Err? {
        return Fail(objectKeys.error);
      }
      assert EncObjElem(schema, element, key) == Wrap(TagObject, EncFields(schema, objectKeys.value, key));
      o := FieldsInternal(objectKeys.value, key);
      WrapEmitted(start, TagObject, EncFields(schema, objectKeys.value, key), buffWriter.Contents(), o);
      if o.Fail? {
        return;
      }
      buffWriter.String("!");
    }

    /** The loop over any other array: each element typed with no key, under the array's key. */
    method ElemsInternal(es: seq<Value>, key: Option<string>) returns (o: Outcome)
      requires NestedOk(schema, key)
      modifies buffWriter
      ensures Emitted(old(buffWriter.Contents()), buffWriter.Contents(), EncElems(schema, es, key), o)
      decreases ElemsSize(es), 4
    {
      var i := 0;
      while i < |es|
        invariant 0 <= i <= |es|
        invariant Prepend(buffWriter.Contents(), EncElems(schema, es[i..], key))
               == Prepend(old(buffWriter.Contents()), EncElems(schema, es, key))
      {
        ElemSizeAt(es, i);
        assert es[i..][0] == es[i] && es[i..][1..] == es[i + 1..];
        ghost var before := buffWriter.Contents();
        var eo := SerializeTyped(es[i], None, key);
        if eo.Fail? {
          return eo;
        }
        ghost var xb := EncTyped(schema, es[i], None, key).value;
        assert EncElems(schema, es[i..], key) == Prepend(xb, EncElems(schema, es[i + 1..], key));
        PrependAppend(before, xb, EncElems(schema, es[i + 1..], key));
        i := i + 1;
      }
      assert es[|es|..] == [];
      assert buffWriter.Contents() + [] == buffWriter.Contents();
      o := Pass;
    }

    /** A key the pattern accepts goes through serializeToBufferInternal, which for a string writes it as one. */
    method KeyInternal(k: string) returns (o: Outcome)
      modifies buffWriter
      ensures Emitted(old(buffWriter.Contents()), buffWriter.Contents(), EncKey(k), o)
    {
      if ValidKey(k) {
        o := StringInternal(k);
      } else {
        o := Pass;
      }
    }

    /** The pair of writes the encoders repeat: a tag at u8, then a number at its width. */
    method WriteTagged(tag: byte, val: Number, w: Width)
      requires Writable(val, w)
      modifies buffWriter
      ensures buffWriter.Contents() == old(buffWriter.Contents()) + [tag] + NumberBytes(val, w)
    {
      TagByte(tag);
      buffWriter.Number(Int(tag as int), U8);
      buffWriter.Number(val, w);
    }

    method NumberInternal(val: Number)
      modifies buffWriter
      ensures buffWriter.Contents() == old(buffWriter.Contents()) + EncNumber(val)
    {
      if val.Int? {
        var i := val.i;
        if i < 0 {
          var abs := -i;
          if abs <= 0xFF {
            WriteTagged(TagNegative8, Int(abs), U8);
            return;
          }
          if abs <= 0xFFFF {
            WriteTagged(TagNegative16, Int(abs), U16);
            return;
          }
          if abs <= 0xFFFF_FFFF {
            WriteTagged(TagNegative32, Int(abs), U32);
            return;
          }
        } else {
          if i <= 0xFF {
            WriteTagged(TagPositive8, val, U8);
            return;
          }
          if i <= 0xFFFF {
            WriteTagged(TagPositive16, val, U16);
            return;
          }
          if i <= 0xFFFF_FFFF {
            WriteTagged(TagPositive32, val, U32);
            return;
          }
        }
      }
      WriteTagged(TagDouble, val, Double);
    }

    /** toBufferInternalObjectDate.  Dafny's `%` here differs from JavaScript's
        only for t < 0, where the seconds are negative and the write fails
        either way; both agree on whether the remainder is zero. */
    method DateInternal(t: int) returns (o: Outcome)
      modifies buffWriter
      ensures Emitted(old(buffWriter.Contents()), buffWriter.Contents(), EncDate(t), o)
      ensures o.Fail? ==> buffWriter.Contents() == old(buffWriter.Contents()) + [DateTag(t)]
    {
      var ms := t % 1000;
      var seconds := t / 1000;
      if ms != 0 {
        TagByte(TagDateMs);
        buffWriter.Number(Int(TagDateMs as int), U8);
        if !(0 <= seconds < 0x1_0000_0000) {
          return Fail(OutOfRange);
        }
        buffWriter.Number(Int(seconds), U32);
        buffWriter.Number(Int(ms), U16);
      } else {
        TagByte(TagDate);
        buffWriter.Number(Int(TagDate as int), U8);
        if !(0 <= seconds < 0x1_0000_0000) {
          return Fail(OutOfRange);
        }
        buffWriter.Number(Int(seconds), U32);
      }
      o := Pass;
    }

    method StringInternal(data: string) returns (o: Outcome)
      modifies buffWriter
      ensures Emitted(old(buffWriter.Contents()), buffWriter.Contents(), EncString(data), o)
      ensures o.Fail? ==> buffWriter.Contents() == old(buffWriter.Contents()) + [TagString]
    {
      TagByte(TagString);
      buffWriter.Number(Int(TagString as int), U8);
      o := buffWriter.Size(|data|);
      if o.Fail? {
        return;
      }
      buffWriter.String(data);
    }

    method BooleanInternal(data: bool)
      modifies buffWriter
      ensures buffWriter.Contents() == old(buffWriter.Contents()) + EncBool(data)
    {
      if data {
        TagByte(TagTrue);
        buffWriter.Number(Int(TagTrue as int), U8);
      } else {
        TagByte(TagFalse);
        buffWriter.Number(Int(TagFalse as int), U8);
      }
    }
  
    // -------------------------------------------------------------------
    // Decoding

    /** fromBuffer: a fresh reader at the offset (0 when none is given), one value. */
    method FromBuffer(buff: seq<byte>, offset: nat) returns (r: Result<Value>)
      modifies this
      ensures r == Deserialize(buff, offset)
    {
      buffReader := new BufferReader(buff, offset);
      r := DeserializeInternal();
    }

    method DeserializeInternal() returns (r: Result<Value>)
      modifies buffReader
      ensures Decoded(Decode(old(buffReader.Remaining())), r, buffReader.Remaining())
      decreases |buffReader.Remaining()|, 0
    {
      ghost var s := buffReader.Remaining();
      var code := buffReader.Number(U8);
      if code.Err? {
        return Err(code.error);
      }
      ReadTag(s[0], s[1..]);
      assert s == [s[0]] + s[1..];
      var c := code.value.i;
      if c == TagPositive8 as int {
        r := SignedNumber(U8, false);
      } else if c == TagNegative8 as int {
        r := SignedNumber(U8, true);
      } else if c == TagBlob as int {
        var size := buffReader.Size();
        if size.Err? {
          return Err(size.error);
        }
        var bytes := buffReader.Buffer(size.value);
        r := Ok(Blob(bytes));
      } else if c == TagDateMs as int {
        r := ObjectDateD();
      } else if c == TagDate as int {
        r := ObjectDateT();
      } else if c == TagNegative32 as int {
        r := SignedNumber(U32, true);
      } else if c == TagObject as int {
        r := ObjectGenericFrom();
      } else if c == TagPositive32 as int {
        r := SignedNumber(U32, false);
      } else if c == TagArray as int {
        r := ArrayDenseFrom();
      } else if c == TagDouble as int {
        var n := buffReader.Number(Double);
        r := if n.Ok? then Ok(Num(n.value)) else Err(n.error);
      } else if c == TagFalse as int {
        r := Ok(Bool(false));
      } else if c == TagNegative16 as int {
        r := SignedNumber(U16, true);
      } else if c == TagPositive16 as int {
        r := SignedNumber(U16, false);
      } else if c == TagString as int {
        var size := buffReader.Size();
        if size.Err? {
          return Err(size.error);
        }
        var str := buffReader.String(size.value);
        r := Ok(Str(str));
      } else if c == TagTrue as int {
        r := Ok(Bool(true));
      } else {
        r := Err(UnknownCode(c));
      }
    }

    /** `number(w)` or `- number(w)`. */
    method SignedNumber(w: Width, negative: bool) returns (r: Result<Value>)
      requires w != Double
      modifies buffReader
      ensures Decoded(DecodeInt(old(buffReader.Remaining()), w, negative), r, buffReader.Remaining())
    {
      var n := buffReader.Number(w);
      if n.Err? {
        return Err(n.error);
      }
      r := Ok(Num(Int(if negative then -n.value.i else n.value.i)));
    }

    /** fromBufferInternalObjectDateD: seconds * 1000 plus the milliseconds. */
    method ObjectDateD() returns (r: Result<Value>)
      modifies buffReader
      ensures Decoded(DecodeDate(old(buffReader.Remaining()), true), r, buffReader.Remaining())
    {
      var seconds := buffReader.Number(U32);
      if seconds.Err? {
        return Err(seconds.error);
      }
      var ms := buffReader.Number(U16);
      if ms.Err? {
        return Err(ms.error);
      }
      r := Ok(Date(seconds.value.i * 1000 + ms.value.i));
    }

    /** fromBufferInternalObjectDateT: whole seconds. */
    method ObjectDateT() returns (r: Result<Value>)
      modifies buffReader
      ensures Decoded(DecodeDate(old(buffReader.Remaining()), false), r, buffReader.Remaining())
    {
      var seconds := buffReader.Number(U32);
      if seconds.Err? {
        return Err(seconds.error);
      }
      r := Ok(Date(seconds.value.i * 1000));
    }

    /** fromBufferInternalObjectGeneric: key and value pairs until '!', then past it. */
    method ObjectGenericFrom() returns (r: Result<Value>)
      modifies buffReader
      ensures Decoded(DecodeFields(old(buffReader.Remaining()), []), r, buffReader.Remaining())
      decreases |buffReader.Remaining()|, 1
    {
      var acc: seq<(string, Value)> := [];
      while true
        invariant |buffReader.Remaining()| <= |old(buffReader.Remaining())|
        invariant DecodeFields(buffReader.Remaining(), acc) == DecodeFields(old(buffReader.Remaining()), [])
        decreases |buffReader.Remaining()|
      {
        var next := buffReader.Lookup();
        if next.Err? {
          return Err(next.error);
        }
        if next.value == TagEnd {
          break;
        }
        var key := DeserializeInternal();
        if key.Err? {
          return Err(key.error);
        }
        var value := DeserializeInternal();
        if value.Err? {
          return Err(value.error);
        }
        var name := PropertyKey(key.value);
        if name.Err? {
          return Err(name.error);
        }
        acc := Assign(acc, name.value, value.value);
      }
      buffReader.Skip();
      r := Ok(Rec(acc));
    }

    /** fromBufferInternalArrayDense: values until '!', then past it. */
    method ArrayDenseFrom() returns (r: Result<Value>)
      modifies buffReader
      ensures Decoded(DecodeElems(old(buffReader.Remaining()), []), r, buffReader.Remaining())
      decreases |buffReader.Remaining()|, 1
    {
      var result: seq<Value> := [];
      while true
        invariant |buffReader.Remaining()| <= |old(buffReader.Remaining())|
        invariant DecodeElems(buffReader.Remaining(), result) == DecodeElems(old(buffReader.Remaining()), [])
        decreases |buffReader.Remaining()|
      {
        var next := buffReader.Lookup();
        if next.Err? {
          return Err(next.error);
        }
        if next.value == TagEnd {
          break;
        }
        var element := DeserializeInternal();
        if element.Err? {
          return Err(element.error);
        }
        result := result + [element.value];
      }
      buffReader.Skip();
      r := Ok(Arr(result));
    }
  }
}
