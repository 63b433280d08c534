/** The JavaScript values the serializer is given and returns. */
module Values {
  import opened Bytes
  import opened Text
  import opened Results

  /** A JavaScript number: an integral one by its value, any other (a
      fraction, NaN, an infinity) by its binary64 bit pattern. */
  datatype Number = Int(i: int) | Float(bits: Bytes8)

  datatype Value =
    | Num(n: Number)
    | Str(s: string)
    | Bool(b: bool)
    | Date(time: int)                     // a Date; getTime() in milliseconds
    | Blob(bytes: seq<byte>)              // a Buffer
    | Arr(elems: seq<Value>)
    | Rec(fields: seq<(string, Value)>)   // a plain object, its own keys in order
    | SetOf(members: seq<Value>)
    | MapOf(entries: seq<(Value, Value)>)
    | Undefined                           // undefined
    | Other(zero: bool)                   // a function, a symbol or a bigint; zero only for 0n

  /** typeof v === 'object' */
  predicate IsObject(v: Value)
  {
    v.Date? || v.Blob? || v.Arr? || v.Rec? || v.SetOf? || v.MapOf?
  }

  /** JavaScript truthiness. */
  predicate Truthy(v: Value)
  {
    match v
    case Num(Int(i)) => i != 0
    case Num(Float(bits)) => !IsNaN(bits) && !IsZero(bits)
    case Str(s) => s != ""
    case Bool(b) => b
    case Undefined => false
    case Other(zero) => !zero
    case _ => true
  }

  // ---------------------------------------------------------------------
  // A size that shrinks from a value to each of the values Object.keys
  // reaches inside it; the encoder's recursion is measured by it.

  function Size(v: Value): (r: nat)
    ensures r >= 1
    decreases v, 1
  {
    match v
    case Arr(es) => 1 + ElemsSize(es)
    case Rec(fs) => 1 + FieldsSizeFrom(v, 0)
    case Blob(bs) => 1 + |bs|
    case _ => 1
  }

  function ElemsSize(es: seq<Value>): nat
    decreases es
  {
    if es == [] then 0 else Size(es[0]) + ElemsSize(es[1..])
  }

  /** The sizes of a record's field values from the i-th on. */
  function FieldsSizeFrom(v: Value, i: nat): nat
    requires v.Rec? && i <= |v.fields|
    decreases v, 0, |v.fields| - i
  {
    if i == |v.fields| then 0 else Size(v.fields[i].1) + FieldsSizeFrom(v, i + 1)
  }

  function FieldsSize(fs: seq<(string, Value)>): nat
  {
    if fs == [] then 0 else Size(fs[0].1) + FieldsSize(fs[1..])
  }

  lemma {:induction false} FieldsSizeFromSuffix(fs: seq<(string, Value)>, i: nat)
    requires i <= |fs|
    ensures FieldsSizeFrom(Rec(fs), i) == FieldsSize(fs[i..])
    decreases |fs| - i
  {
    if i < |fs| {
      assert fs[i..][1..] == fs[i + 1..];
      FieldsSizeFromSuffix(fs, i + 1);
    }
  }

  lemma RecSize(fs: seq<(string, Value)>)
    ensures Size(Rec(fs)) == 1 + FieldsSize(fs)
  {
    FieldsSizeFromSuffix(fs, 0);
    assert fs[0..] == fs;
  }

  lemma {:induction false} ElemSizeAt(es: seq<Value>, i: nat)
    requires i < |es|
    ensures Size(es[i]) <= ElemsSize(es)
  {
    if i > 0 {
      ElemSizeAt(es[1..], i - 1);
    }
  }

  lemma {:induction false} FieldSizeAt(fs: seq<(string, Value)>, i: nat)
    requires i < |fs|
    ensures Size(fs[i].1) <= FieldsSize(fs)
  {
    if i > 0 {
      FieldSizeAt(fs[1..], i - 1);
    }
  }

  // ---------------------------------------------------------------------
  // Object.keys(v) paired with v[key]

  /** The entries of an array-like object: keys "from", "from+1", ... */
  function Indexed(es: seq<Value>, from: nat): (r: seq<(string, Value)>)
    ensures |r| == |es|
  {
    seq(|es|, i requires 0 <= i < |es| => (NatToString(from + i), es[i]))
  }

  function BytesAsNumbers(bs: seq<byte>): (r: seq<Value>)
    ensures |r| == |bs|
  {
    seq(|bs|, i requires 0 <= i < |bs| => Num(Int(bs[i] as int)))
  }

  lemma {:induction false} IndexedSize(es: seq<Value>, from: nat)
    ensures FieldsSize(Indexed(es, from)) == ElemsSize(es)
  {
    if es != [] {
      assert Indexed(es, from)[1..] == Indexed(es[1..], from + 1);
      IndexedSize(es[1..], from + 1);
    }
  }

  lemma {:induction false} BytesAsNumbersSize(bs: seq<byte>)
    ensures ElemsSize(BytesAsNumbers(bs)) == |bs|
  {
    if bs != [] {
      assert BytesAsNumbers(bs)[1..] == BytesAsNumbers(bs[1..]);
      BytesAsNumbersSize(bs[1..]);
    }
  }

  /** Object.keys(v).map(k => [k, v[k]]): a record's own fields, an array's or
      a Buffer's indices, and nothing for numbers, booleans, Dates, Sets and
      Maps.  Object.keys(undefined) throws; a string's character indices are
      not followed by this model. */
  function Props(v: Value): (r: Result<seq<(string, Value)>>)
    ensures r.Ok? ==> FieldsSize(r.value) < Size(v)
  {
    match v
    case Rec(fs) => RecSize(fs); Ok(fs)
    case Arr(es) => IndexedSize(es, 0); Ok(Indexed(es, 0))
    case Blob(bs) => IndexedSize(BytesAsNumbers(bs), 0); BytesAsNumbersSize(bs); Ok(Indexed(BytesAsNumbers(bs), 0))
    case Str(_) => Err(NotModelled("Object.keys of a string"))
    case Undefined => Err(TypeError)
    case _ => Ok([])
  }
}
