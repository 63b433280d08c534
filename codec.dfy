/** The wire format of buffer-serializer/buffer-serializer.ts, stated as
    functions: what toBuffer emits for a value under a schema, and what
    fromBuffer rebuilds from the bytes after the read offset.  The class in
    serializer.dfy computes these step by step. */
module Codec {
  import opened Bytes
  import opened Text
  import opened Results
  import opened Types
  import opened Values
  import opened Writer
  import opened Reader

  // ---------------------------------------------------------------------
  // The tag table

  const TagPositive8: byte := 0x2B    // '+'
  const TagNegative8: byte := 0x2D    // '-'
  const TagBlob: byte := 0x42         // 'B', read only
  const TagDateMs: byte := 0x44       // 'D'
  const TagNegative32: byte := 0x49   // 'I'
  const TagObject: byte := 0x4F       // 'O'
  const TagPositive32: byte := 0x50   // 'P'
  const TagDate: byte := 0x54         // 'T'
  const TagArray: byte := 0x61        // 'a'
  const TagDouble: byte := 0x64       // 'd'
  const TagFalse: byte := 0x66        // 'f'
  const TagNegative16: byte := 0x69   // 'i'
  const TagPositive16: byte := 0x70   // 'p'
  const TagString: byte := 0x73       // 's'
  const TagTrue: byte := 0x74         // 't'
  const TagEnd: byte := 0x21          // '!', closes objects and arrays

  /** The tags deserializeFromBufferInternal has a case for. */
  predicate IsDecodeTag(b: byte)
  {
    b in {TagPositive8, TagNegative8, TagBlob, TagDateMs, TagDate, TagNegative32, TagObject,
          TagPositive32, TagArray, TagDouble, TagFalse, TagNegative16, TagPositive16, TagString, TagTrue}
  }

  /** Bytes that start with a value's tag, never read as the end of a container. */
  predicate StartsValue(bs: seq<byte>)
  {
    |bs| >= 1 && IsDecodeTag(bs[0]) && bs[0] != TagEnd
  }

  function Prepend(pre: seq<byte>, r: Result<seq<byte>>): Result<seq<byte>>
  {
    match r
    case Ok(bs) => Ok(pre + bs)
    case Err(e) => Err(e)
  }

  /** A container: its tag, its body, and the end marker. */
  function Wrap(tag: byte, body: Result<seq<byte>>): Result<seq<byte>>
  {
    match body
    case Ok(bs) => Ok([tag] + bs + [TagEnd])
    case Err(e) => Err(e)
  }

  // ---------------------------------------------------------------------
  // Schema lookup (serializeToTypedBuffer)

  /** The name a key gives when used to index an object: null reads as "null". */
  function KeyText(key: Option<string>): string
  {
    if key.Some? then key.value else "null"
  }

  /** `if (nestedKey)`: absent, null and "" are falsy. */
  predicate IsTruthyKey(key: Option<string>)
  {
    key.Some? && key.value != ""
  }

  /** A truthy nested key names a nested entry: the only way the encoder
      reaches an array with a key is through such an entry. */
  predicate NestedOk(schema: Schema, nested: Option<string>)
  {
    IsTruthyKey(nested) ==> nested.value in schema && schema[nested.value].Nested?
  }

  /** `schema[key]`, or `schema[nestedKey][key]` under a truthy nested key. */
  function SchemaType(schema: Schema, key: Option<string>, nested: Option<string>): (r: Option<SchemaEntry>)
    requires NestedOk(schema, nested)
    ensures IsTruthyKey(nested) ==> r.None? || r.value.Prim?
    ensures r.Some? && r.value.Nested? ==> NestedOk(schema, key) && !IsTruthyKey(nested)
  {
    var k := KeyText(key);
    if IsTruthyKey(nested) then
      var fields := schema[nested.value].fields;
      if k in fields then Some(Prim(fields[k])) else None
    else if k in schema then Some(schema[k])
    else None
  }

  // ---------------------------------------------------------------------
  // Leaf encoders

  /** toBufferInternalNumber: the smallest integer tier that holds |n|, else a double. */
  function EncNumber(n: Number): (r: seq<byte>)
    ensures StartsValue(r)
  {
    match n
    case Float(bits) => [TagDouble] + bits
    case Int(i) =>
      if i < 0 && -i <= 0xFF then [TagNegative8] + NumberBytes(Int(-i), U8)
      else if i < 0 && -i <= 0xFFFF then [TagNegative16] + NumberBytes(Int(-i), U16)
      else if i < 0 && -i <= 0xFFFF_FFFF then [TagNegative32] + NumberBytes(Int(-i), U32)
      else if 0 <= i <= 0xFF then [TagPositive8] + NumberBytes(n, U8)
      else if 0 <= i <= 0xFFFF then [TagPositive16] + NumberBytes(n, U16)
      else if 0 <= i <= 0xFFFF_FFFF then [TagPositive32] + NumberBytes(n, U32)
      else [TagDouble] + NumberBytes(n, Double)
  }

  /** toBufferInternalString: tag, size prefix, one byte per character. */
  function EncString(s: string): (r: Result<seq<byte>>)
    ensures r.Ok? <==> |s| < 0x1FFFFFFF
    ensures r.Ok? ==> StartsValue(r.value)
  {
    SizePrefixTiers(|s|);
    match SizePrefix(|s|)
    case Err(e) => Err(e)
    case Ok(prefix) => Ok([TagString] + prefix + Latin1Encode(s))
  }

  function EncBool(b: bool): (r: seq<byte>)
    ensures StartsValue(r)
  {
    if b then [TagTrue] else [TagFalse]
  }

  /** toBufferInternalObjectDate: seconds as u32, and the milliseconds as u16
      when there are any.  For t < 0 the seconds are negative and Node's
      range check throws. */
  function EncDate(t: int): (r: Result<seq<byte>>)
    ensures r.Ok? <==> 0 <= t < 0x1_0000_0000 * 1000
    ensures r.Ok? ==> StartsValue(r.value)
  {
    var seconds := t / 1000;     // Math.floor(t / 1000)
    if !(0 <= seconds < 0x1_0000_0000) then Err(OutOfRange)
    else if t % 1000 != 0 then Ok([TagDateMs] + NumberBytes(Int(seconds), U32) + NumberBytes(Int(t % 1000), U16))
    else Ok([TagDate] + NumberBytes(Int(seconds), U32))
  }

  /** `data > 0` for a number. */
  predicate Positive(n: Number)
  {
    match n
    case Int(i) => i > 0
    case Float(bits) => !IsNaN(bits) && bits[0] < 0x80 && !IsZero(bits)
  }

  /** The coercions the schema path leaves to JavaScript, which this model does not follow. */
  const NonNumberAtWidth := NotModelled("a numeric schema type on a value that is not a number")
  const FractionAtWidth := NotModelled("a fraction, NaN or infinity at an integer width")
  const NonStringAsString := NotModelled("a string schema type on a value that is not a string")

  /** A numeric schema type: tag 'P' or 'I' by sign, whatever the width,
      then the value at the declared width. */
  function EncForced(v: Value, w: Width): (r: Result<seq<byte>>)
    ensures r.Ok? <==> v.Num? && Writable(v.n, w)
    ensures r.Ok? ==> |r.value| == 1 + ByteCount(w) && StartsValue(r.value)
    ensures r.Ok? ==> (r.value[0] == TagPositive32 <==> Positive(v.n))
    ensures r.Ok? && w != Double ==> FromBigEndian(r.value[1..]) == v.n.i
  {
    if !v.Num? then Err(NonNumberAtWidth)
    else if Writable(v.n, w) then
      var bs := NumberBytes(v.n, w);
      assert w != Double ==> FromBigEndian(bs) == v.n.i by {
        if w != Double { NumberBytesValue(v.n, w); }
      }
      Ok([if Positive(v.n) then TagPositive32 else TagNegative32] + bs)
    else if v.n.Int? then Err(OutOfRange)
    else Err(FractionAtWidth)
  }

  /** A type-name schema entry other than "". */
  function EncPrim(v: Value, name: string): (r: Result<seq<byte>>)
    ensures r.Ok? ==> r.value == [] || StartsValue(r.value)
    ensures ParseWidth(name).None? && name == "bool" ==> r.Ok? && |r.value| == 1
  {
    match ParseWidth(name)
    case Some(w) => EncForced(v, w)
    case None =>
      if name == "string" then
        (if v.Str? then EncString(v.s) else Err(NonStringAsString))
      else if name == "date" then
        (if v.Date? then EncDate(v.time) else Err(TypeError))
      else if name == "bool" then Ok(EncBool(Truthy(v)))
      else Ok([])
  }

  /** `/^[a-zA-Z0-9_.-]*$/` */
  predicate KeyChar(c: char)
  {
    ('a' <= c <= 'z') || ('A' <= c <= 'Z') || ('0' <= c <= '9') || c == '_' || c == '.' || c == '-'
  }

  predicate ValidKey(k: string)
  {
    forall i :: 0 <= i < |k| ==> KeyChar(k[i])
  }

  /** toBufferInternalKey: a key the pattern accepts is written as a string; any other, not at all. */
  function EncKey(k: string): (r: Result<seq<byte>>)
    ensures r.Ok? <==> !ValidKey(k) || |k| < 0x1FFFFFFF
    ensures !ValidKey(k) ==> r == Ok([])
    ensures ValidKey(k) && r.Ok? ==> StartsValue(r.value) && r.value[0] == TagString
  {
    if ValidKey(k) then EncString(k) else Ok([])
  }

  // ---------------------------------------------------------------------
  // The recursive encoders.  Each call goes to a smaller value or to a
  // lower entry point for the same value: (Size, rank).

  /** serializeToTypedBuffer */
  function EncTyped(schema: Schema, v: Value, key: Option<string>, nested: Option<string>): Result<seq<byte>>
    requires NestedOk(schema, nested)
    decreases Size(v), 3
  {
    match SchemaType(schema, key, nested)
    case None => EncInfer(schema, v)
    case Some(Nested(_)) => EncObject(schema, v, key)
    case Some(Prim(name)) => if name == "" then EncInfer(schema, v) else EncPrim(v, name)
  }

  /** serializeToBufferInternal: dispatch on typeof. */
  function EncInfer(schema: Schema, v: Value): (r: Result<seq<byte>>)
    ensures r.Ok? ==> StartsValue(r.value)
    decreases Size(v), 2
  {
    match v
    case Num(n) => Ok(EncNumber(n))
    case Str(s) => EncString(s)
    case Bool(b) => Ok(EncBool(b))
    case Undefined => Err(InvalidType)
    case Other(_) => Err(InvalidType)
    case _ => EncObject(schema, v, None)
  }

  /** toBufferInternalObject: arrays apart, everything else as a generic object. */
  function EncObject(schema: Schema, v: Value, key: Option<string>): (r: Result<seq<byte>>)
    requires NestedOk(schema, key)
    ensures r.Ok? ==> StartsValue(r.value)
    decreases Size(v), 1
  {
    if v.Arr? then EncArray(schema, v, key) else EncRecord(schema, v)
  }

  /** toBufferInternalObjectGeneric: 'O', each own key and its value, '!'.
      The fields are looked up in the top-level schema. */
  function EncRecord(schema: Schema, v: Value): (r: Result<seq<byte>>)
    ensures r.Ok? ==> StartsValue(r.value)
    decreases Size(v), 0
  {
    match Props(v)
    case Err(e) => Err(e)
    case Ok(ps) => Wrap(TagObject, EncFields(schema, ps, None))
  }

  /** toBufferInternalArray: 'a', the elements, '!'.  When the first element
      is an object every element is written as a generic object whose fields
      are looked up under the array's key. */
  function EncArray(schema: Schema, v: Value, key: Option<string>): (r: Result<seq<byte>>)
    requires v.Arr? && NestedOk(schema, key)
    ensures r.Ok? ==> StartsValue(r.value)
    decreases Size(v), 0
  {
    var es := v.elems;
    if |es| > 0 && IsObject(es[0]) then Wrap(TagArray, EncObjElems(schema, es, key))
    else Wrap(TagArray, EncElems(schema, es, key))
  }

  /** The loop over a generic object's keys. */
  function EncFields(schema: Schema, ps: seq<(string, Value)>, nested: Option<string>): Result<seq<byte>>
    requires NestedOk(schema, nested)
    decreases FieldsSize(ps), 4
  {
    if ps == [] then Ok([])
    else
      FieldSizeAt(ps, 0);
      match EncKey(ps[0].0)
      case Err(e) => Err(e)
      case Ok(k) =>
        match EncTyped(schema, ps[0].1, Some(ps[0].0), nested)
        case Err(e) => Err(e)
        case Ok(x) => Prepend(k + x, EncFields(schema, ps[1..], nested))
  }

  /** The forEach callback: one element as a generic object, its fields
      looked up under the nested key. */
  function EncObjElem(schema: Schema, e: Value, nested: Option<string>): (r: Result<seq<byte>>)
    requires NestedOk(schema, nested)
    ensures Props(e).Err? ==> r.Err?
    ensures r.Ok? ==> |r.value| >= 2 && r.value[0] == TagObject && r.value[|r.value| - 1] == TagEnd
    decreases Size(e), 0
  {
    match Props(e)
    case Err(err) => Err(err)
    case Ok(ps) => Wrap(TagObject, EncFields(schema, ps, nested))
  }

  /** The forEach over an array of objects. */
  function EncObjElems(schema: Schema, es: seq<Value>, nested: Option<string>): (r: Result<seq<byte>>)
    requires NestedOk(schema, nested)
    ensures r.Ok? ==> |r.value| >= 2 * |es|
    decreases ElemsSize(es), 4
  {
    if es == [] then Ok([])
    else
      match EncObjElem(schema, es[0], nested)
      case Err(e) => Err(e)
      case Ok(x) => Prepend(x, EncObjElems(schema, es[1..], nested))
  }

  /** The loop over any other array's elements: no key, the array's key as nested key. */
  function EncElems(schema: Schema, es: seq<Value>, nested: Option<string>): Result<seq<byte>>
    requires NestedOk(schema, nested)
    decreases ElemsSize(es), 4
  {
    if es == [] then Ok([])
    else
      match EncTyped(schema, es[0], None, nested)
      case Err(e) => Err(e)
      case Ok(x) => Prepend(x, EncElems(schema, es[1..], nested))
  }

  /** toBuffer */
  function Serialize(schema: Schema, data: Value): (r: Result<seq<byte>>)
    ensures r.Ok? ==> StartsValue(r.value)
    ensures data.Undefined? || data.Other? ==> r == Err(InvalidType)
  {
    EncInfer(schema, data)
  }

  // ---------------------------------------------------------------------
  // Decoding (deserializeFromBufferInternal), on the bytes after the offset

  /** A JavaScript object's own properties, in the order assignment creates them. */
  predicate HasKey(fs: seq<(string, Value)>, k: string)
  {
    exists i :: 0 <= i < |fs| && fs[i].0 == k
  }

  function Get(fs: seq<(string, Value)>, k: string): Option<Value>
  {
    if fs == [] then None
    else if fs[0].0 == k then Some(fs[0].1)
    else Get(fs[1..], k)
  }

  /** `acc[key] = value`: an existing property keeps its place, a new one goes last. */
  function Assign(fs: seq<(string, Value)>, k: string, x: Value): seq<(string, Value)>
  {
    if fs == [] then [(k, x)]
    else if fs[0].0 == k then [(k, x)] + fs[1..]
    else [fs[0]] + Assign(fs[1..], k, x)
  }

  /** The property name a decoded key value is converted to. */
  function PropertyKey(kv: Value): Result<string>
  {
    match kv
    case Str(s) => Ok(s)
    case Num(Int(i)) => Ok(IntToString(i))
    case Bool(b) => Ok(if b then "true" else "false")
    case _ => Err(NotModelled("a property key that is not a string, an integer or a boolean"))
  }

  /** An unsigned read, negated for the '-', 'i' and 'I' tags. */
  function DecodeInt(t: seq<byte>, w: Width, negative: bool): (r: Result<(Value, seq<byte>)>)
    requires w != Double
    ensures r.Ok? ==> |r.value.1| < |t| + 1 && r.value.0.Num? && r.value.0.n.Int?
  {
    match ReadNumber(t, w)
    case Err(e) => Err(e)
    case Ok((n, rest)) => Ok((Num(Int(if negative then -n.i else n.i)), rest))
  }

  function DecodeDate(t: seq<byte>, withMs: bool): (r: Result<(Value, seq<byte>)>)
    ensures r.Ok? ==> |r.value.1| < |t|
  {
    match ReadNumber(t, U32)
    case Err(e) => Err(e)
    case Ok((seconds, t1)) =>
      if !withMs then Ok((Date(seconds.i * 1000), t1))
      else
        match ReadNumber(t1, U16)
        case Err(e) => Err(e)
        case Ok((ms, t2)) => Ok((Date(seconds.i * 1000 + ms.i), t2))
  }

  function Decode(s: seq<byte>): (r: Result<(Value, seq<byte>)>)
    ensures r.Ok? ==> |r.value.1| < |s|
    decreases |s|, 0
  {
    if |s| < 1 then Err(OutOfRange)
    else
      var code := s[0];
      var t := s[1..];
      if code == TagPositive8 then DecodeInt(t, U8, false)
      else if code == TagNegative8 then DecodeInt(t, U8, true)
      else if code == TagBlob then
        match ReadSize(t)
        case Err(e) => Err(e)
        case Ok((n, t1)) => Ok((Blob(ReadBytes(t1, n).0), ReadBytes(t1, n).1))
      else if code == TagDateMs then DecodeDate(t, true)
      else if code == TagDate then DecodeDate(t, false)
      else if code == TagNegative32 then DecodeInt(t, U32, true)
      else if code == TagObject then DecodeFields(t, [])
      else if code == TagPositive32 then DecodeInt(t, U32, false)
      else if code == TagArray then DecodeElems(t, [])
      else if code == TagDouble then
        match ReadNumber(t, Double)
        case Err(e) => Err(e)
        case Ok((n, t1)) => Ok((Num(n), t1))
      else if code == TagFalse then Ok((Bool(false), t))
      else if code == TagNegative16 then DecodeInt(t, U16, true)
      else if code == TagPositive16 then DecodeInt(t, U16, false)
      else if code == TagString then
        match ReadSize(t)
        case Err(e) => Err(e)
        case Ok((n, t1)) => Ok((Str(ReadString(t1, n).0), ReadString(t1, n).1))
      else if code == TagTrue then Ok((Bool(true), t))
      else Err(UnknownCode(code as int))
  }

  /** fromBufferInternalObjectGeneric's loop, with the properties read so far. */
  function DecodeFields(s: seq<byte>, acc: seq<(string, Value)>): (r: Result<(Value, seq<byte>)>)
    ensures r.Ok? ==> |r.value.1| < |s|
    decreases |s|, 1
  {
    match Peek(s)
    case Err(e) => Err(e)
    case Ok(b) =>
      if b == TagEnd then Ok((Rec(acc), SkipByte(s)))
      else
        match Decode(s)
        case Err(e) => Err(e)
        case Ok((kv, t)) =>
          match Decode(t)
          case Err(e) => Err(e)
          case Ok((x, t1)) =>
            match PropertyKey(kv)
            case Err(e) => Err(e)
            case Ok(k) => DecodeFields(t1, Assign(acc, k, x))
  }

  /** fromBufferInternalArrayDense's loop, with the elements read so far. */
  function DecodeElems(s: seq<byte>, acc: seq<Value>): (r: Result<(Value, seq<byte>)>)
    ensures r.Ok? ==> |r.value.1| < |s|
    decreases |s|, 1
  {
    match Peek(s)
    case Err(e) => Err(e)
    case Ok(b) =>
      if b == TagEnd then Ok((Arr(acc), SkipByte(s)))
      else
        match Decode(s)
        case Err(e) => Err(e)
        case Ok((x, t)) => DecodeElems(t, acc + [x])
  }

  /** fromBuffer */
  function Deserialize(buff: seq<byte>, offset: nat): (r: Result<Value>)
    ensures r.Ok? ==> offset < |buff|
  {
    match Decode(Drop(buff, offset))
    case Err(e) => Err(e)
    case Ok((v, _)) => Ok(v)
  }
}
