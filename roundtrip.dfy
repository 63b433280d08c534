/** fromBuffer(toBuffer(v)) == v with an empty schema, for the values whose
    encoding the decoder can take back apart. */
module RoundTrip {
  import opened Bytes
  import opened Text
  import opened Results
  import opened Types
  import opened Values
  import opened Writer
  import opened Reader
  import opened Codec
  import opened CodecProperties

  /** A key that is written (the pattern accepts it) and read back (it is not empty). */
  predicate PlainKey(k: string)
  {
    1 <= |k| < 0x1FFFFFFF && ValidKey(k)
  }

  /** The values that survive the trip: integers within 32 bits, other
      numbers by their bits, non-empty Latin-1 strings, booleans, records
      with distinct plain keys, and arrays that are not mistaken for arrays
      of records. */
  predicate Plain(v: Value)
    decreases Size(v), 1
  {
    match v
    case Num(Int(n)) => -0xFFFF_FFFF <= n <= 0xFFFF_FFFF
    case Num(Float(_)) => true
    case Str(s) => 1 <= |s| < 0x1FFFFFFF && IsLatin1(s)
    case Bool(_) => true
    case Rec(fs) => RecSize(fs); PlainFields(fs)
    case Arr(es) => PlainElems(es) && (|es| > 0 && IsObject(es[0]) ==> AllRecords(es))
    case _ => false
  }

  predicate PlainFields(fs: seq<(string, Value)>)
    decreases FieldsSize(fs), 2
  {
    fs == [] ||
      (PlainKey(fs[0].0) && !HasKey(fs[1..], fs[0].0) && Plain(fs[0].1) && PlainFields(fs[1..]))
  }

  predicate PlainElems(es: seq<Value>)
    decreases ElemsSize(es), 2
  {
    es == [] || (Plain(es[0]) && PlainElems(es[1..]))
  }

  predicate AllRecords(es: seq<Value>)
  {
    forall i :: 0 <= i < |es| ==> es[i].Rec?
  }

  /** Without a schema, writing every element of an array of records as a
      generic object is the same as writing each record by inference. */
  lemma {:induction false} RecordElemsAsObjects(es: seq<Value>)
    requires AllRecords(es)
    ensures EncObjElems(map[], es, None) == EncElems(map[], es, None)
    decreases |es|
  {
    if es != [] {
      assert AllRecords(es[1..]) by {
        assert forall i :: 0 <= i < |es[1..]| ==> es[1..][i] == es[i + 1];
      }
      RecordElemsAsObjects(es[1..]);
      assert es[0].Rec?;
      assert EncTyped(map[], es[0], None, None) == EncInfer(map[], es[0]);
      assert EncInfer(map[], es[0]) == EncObject(map[], es[0], None);
      assert EncObject(map[], es[0], None) == EncRecord(map[], es[0]);
      assert EncObjElem(map[], es[0], None) == EncRecord(map[], es[0]);
    }
  }

  lemma ValidKeyLatin1(k: string)
    requires ValidKey(k)
    ensures IsLatin1(k)
  {
  }

  // ---------------------------------------------------------------------
  // One step of each encoder and decoder, each on its own

  lemma InferRecord(fs: seq<(string, Value)>)
    ensures EncInfer(map[], Rec(fs)) == Wrap(TagObject, EncFields(map[], fs, None))
  {
    assert EncInfer(map[], Rec(fs)) == EncObject(map[], Rec(fs), None);
    assert EncObject(map[], Rec(fs), None) == EncRecord(map[], Rec(fs));
  }

  lemma InferArray(es: seq<Value>)
    ensures EncInfer(map[], Arr(es))
         == Wrap(TagArray, if |es| > 0 && IsObject(es[0]) then EncObjElems(map[], es, None) else EncElems(map[], es, None))
  {
    assert EncInfer(map[], Arr(es)) == EncObject(map[], Arr(es), None);
    assert EncObject(map[], Arr(es), None) == EncArray(map[], Arr(es), None);
  }

  lemma FieldsCons(fs: seq<(string, Value)>, kb: seq<byte>, xb: seq<byte>)
    requires fs != [] && ValidKey(fs[0].0)
    requires EncString(fs[0].0) == Ok(kb) && EncInfer(map[], fs[0].1) == Ok(xb)
    ensures EncFields(map[], fs, None) == Prepend(kb + xb, EncFields(map[], fs[1..], None))
  {
    assert EncTyped(map[], fs[0].1, Some(fs[0].0), None) == EncInfer(map[], fs[0].1);
  }

  lemma ElemsCons(es: seq<Value>, xb: seq<byte>)
    requires es != [] && EncInfer(map[], es[0]) == Ok(xb)
    ensures EncElems(map[], es, None) == Prepend(xb, EncElems(map[], es[1..], None))
  {
    assert EncTyped(map[], es[0], None, None) == EncInfer(map[], es[0]);
  }

  /** A container's bytes followed by more: the decoder enters the container's loop. */
  lemma DecodeContainer(tag: byte, body: seq<byte>, rest: seq<byte>)
    requires tag == TagObject || tag == TagArray
    ensures Decode([tag] + body + [TagEnd] + rest)
         == if tag == TagObject then DecodeFields(body + [TagEnd] + rest, []) else DecodeElems(body + [TagEnd] + rest, [])
  {
    var s := [tag] + body + [TagEnd] + rest;
    assert s[0] == tag;
    assert s[1..] == body + [TagEnd] + rest;
  }

  lemma FieldsEnd(acc: seq<(string, Value)>, rest: seq<byte>)
    ensures DecodeFields([TagEnd] + rest, acc) == Ok((Rec(acc), rest))
  {
    assert ([TagEnd] + rest)[1..] == rest;
  }

  lemma ElemsEnd(acc: seq<Value>, rest: seq<byte>)
    ensures DecodeElems([TagEnd] + rest, acc) == Ok((Arr(acc), rest))
  {
    assert ([TagEnd] + rest)[1..] == rest;
  }

  lemma FieldsStep(s: seq<byte>, acc: seq<(string, Value)>, k: string, t: seq<byte>, x: Value, t1: seq<byte>)
    requires StartsValue(s)
    requires Decode(s) == Ok((Str(k), t)) && Decode(t) == Ok((x, t1))
    ensures DecodeFields(s, acc) == DecodeFields(t1, Assign(acc, k, x))
  {
  }

  lemma ElemsStep(s: seq<byte>, acc: seq<Value>, t: seq<byte>, x: Value)
    requires StartsValue(s) && Decode(s) == Ok((x, t))
    ensures DecodeElems(s, acc) == DecodeElems(t, acc + [x])
  {
  }

  // ---------------------------------------------------------------------

  lemma {:induction false} ValueRoundTrip(v: Value, rest: seq<byte>)
    requires Plain(v)
    ensures EncInfer(map[], v).Ok?
    ensures Decode(EncInfer(map[], v).value + rest) == Ok((v, rest))
    decreases Size(v), 1
  {
    match v
    case Num(Int(n)) => IntegerRoundTrip(n, rest);
    case Num(Float(bits)) => FloatRoundTrip(bits, rest);
    case Str(s) => StringRoundTrip(s, rest);
    case Bool(b) => BoolRoundTrip(b, rest);
    case Rec(fs) => RecSize(fs); RecordRoundTrip(fs, rest);
    case Arr(es) => ArrayRoundTrip(es, rest);
  }

  lemma {:induction false} RecordRoundTrip(fs: seq<(string, Value)>, rest: seq<byte>)
    requires PlainFields(fs)
    ensures EncInfer(map[], Rec(fs)).Ok?
    ensures Decode(EncInfer(map[], Rec(fs)).value + rest) == Ok((Rec(fs), rest))
    decreases FieldsSize(fs), 3
  {
    InferRecord(fs);
    FieldsRoundTrip(fs, [], rest);
    DecodeContainer(TagObject, EncFields(map[], fs, None).value, rest);
    assert [] + fs == fs;
  }

  lemma {:induction false} ArrayRoundTrip(es: seq<Value>, rest: seq<byte>)
    requires PlainElems(es) && (|es| > 0 && IsObject(es[0]) ==> AllRecords(es))
    ensures EncInfer(map[], Arr(es)).Ok?
    ensures Decode(EncInfer(map[], Arr(es)).value + rest) == Ok((Arr(es), rest))
    decreases ElemsSize(es), 3
  {
    InferArray(es);
    if |es| > 0 && IsObject(es[0]) {
      RecordElemsAsObjects(es);
    }
    ElemsRoundTrip(es, [], rest);
    DecodeContainer(TagArray, EncElems(map[], es, None).value, rest);
    assert [] + es == es;
  }

  /** The object decoder's loop reads back the fields the encoder's loop
      wrote, appending each to the properties read so far. */
  lemma {:induction false} FieldsRoundTrip(fs: seq<(string, Value)>, acc: seq<(string, Value)>, rest: seq<byte>)
    requires PlainFields(fs)
    requires forall i :: 0 <= i < |fs| ==> !HasKey(acc, fs[i].0)
    ensures EncFields(map[], fs, None).Ok?
    ensures DecodeFields(EncFields(map[], fs, None).value + [TagEnd] + rest, acc) == Ok((Rec(acc + fs), rest))
    decreases FieldsSize(fs), 2
  {
    if fs == [] {
      FieldsEnd(acc, rest);
      assert [] + [TagEnd] + rest == [TagEnd] + rest;
      assert acc + [] == acc;
    } else {
      FieldSizeAt(fs, 0);
      FreshKeys(fs, acc);
      FieldsRoundTrip(fs[1..], acc + [fs[0]], rest);
      var tb := EncFields(map[], fs[1..], None).value;
      ValueRoundTrip(fs[0].1, tb + [TagEnd] + rest);
      var (k, x) := fs[0];
      FieldsStepFrom(k, x, fs[1..], acc, rest, EncInfer(map[], x).value, tb);
      assert [(k, x)] + fs[1..] == fs;
    }
  }

  /** One field: the key's string, the value, then the fields after it. */
  lemma FieldsStepFrom(k: string, x: Value, tl: seq<(string, Value)>, acc: seq<(string, Value)>,
                       rest: seq<byte>, xb: seq<byte>, tb: seq<byte>)
    requires PlainKey(k) && !HasKey(acc, k)
    requires EncInfer(map[], x) == Ok(xb) && EncFields(map[], tl, None) == Ok(tb)
    requires Decode(xb + (tb + [TagEnd] + rest)) == Ok((x, tb + [TagEnd] + rest))
    requires DecodeFields(tb + [TagEnd] + rest, acc + [(k, x)]) == Ok((Rec(acc + [(k, x)] + tl), rest))
    ensures EncFields(map[], [(k, x)] + tl, None).Ok?
    ensures DecodeFields(EncFields(map[], [(k, x)] + tl, None).value + [TagEnd] + rest, acc)
         == Ok((Rec(acc + ([(k, x)] + tl)), rest))
  {
    var fs := [(k, x)] + tl;
    assert fs[0] == (k, x) && fs[1..] == tl;
    var kb := KeyRoundTrip(k, xb + (tb + [TagEnd] + rest));
    FieldsCons(fs, kb, xb);
    FieldDecode(kb, xb, tb, rest, acc, k, x);
    assert acc + [(k, x)] + tl == acc + fs;
  }

  /** The object decoder's loop over a key string, a value and the fields
      after them. */
  lemma FieldDecode(kb: seq<byte>, xb: seq<byte>, tb: seq<byte>, rest: seq<byte>,
                    acc: seq<(string, Value)>, k: string, x: Value)
    requires StartsValue(kb) && !HasKey(acc, k)
    requires Decode(kb + (xb + (tb + [TagEnd] + rest))) == Ok((Str(k), xb + (tb + [TagEnd] + rest)))
    requires Decode(xb + (tb + [TagEnd] + rest)) == Ok((x, tb + [TagEnd] + rest))
    ensures DecodeFields(kb + xb + tb + [TagEnd] + rest, acc) == DecodeFields(tb + [TagEnd] + rest, acc + [(k, x)])
  {
    AssignNew(acc, k, x);
    FieldDecodeStep(kb, xb, tb + [TagEnd] + rest, acc, k, x);
    FieldBytes(kb, xb, tb, rest);
  }

  /** The bytes of one field and those after it, regrouped. */
  lemma FieldBytes(kb: seq<byte>, xb: seq<byte>, tb: seq<byte>, rest: seq<byte>)
    ensures kb + xb + tb + [TagEnd] + rest == kb + (xb + (tb + [TagEnd] + rest))
  {
  }

  /** A plain key is written as a string and read back as itself. */
  lemma KeyRoundTrip(k: string, rest: seq<byte>) returns (kb: seq<byte>)
    requires PlainKey(k)
    ensures EncString(k) == Ok(kb) && StartsValue(kb)
    ensures Decode(kb + rest) == Ok((Str(k), rest))
  {
    ValidKeyLatin1(k);
    StringRoundTrip(k, rest);
    kb := EncString(k).value;
  }

  lemma AssignNew(fs: seq<(string, Value)>, k: string, x: Value)
    requires !HasKey(fs, k)
    ensures Assign(fs, k, x) == fs + [(k, x)]
  {
    AssignSemantics(fs, k, x);
  }

  /** The object decoder consumes a key string and a value, and assigns the
      value to a key not yet present. */
  lemma FieldDecodeStep(kb: seq<byte>, xb: seq<byte>, after: seq<byte>, acc: seq<(string, Value)>, k: string, x: Value)
    requires StartsValue(kb)
    requires Decode(kb + (xb + after)) == Ok((Str(k), xb + after))
    requires Decode(xb + after) == Ok((x, after))
    requires Assign(acc, k, x) == acc + [(k, x)]
    ensures DecodeFields(kb + (xb + after), acc) == DecodeFields(after, acc + [(k, x)])
  {
    var s := kb + (xb + after);
    assert s[0] == kb[0];
    FieldsStep(s, acc, k, xb + after, x, after);
  }

  /** The keys after the first are still unused once the first is assigned. */
  lemma FreshKeys(fs: seq<(string, Value)>, acc: seq<(string, Value)>)
    requires fs != [] && !HasKey(fs[1..], fs[0].0)
    requires forall i :: 0 <= i < |fs| ==> !HasKey(acc, fs[i].0)
    ensures forall i :: 0 <= i < |fs[1..]| ==> !HasKey(acc + [fs[0]], fs[1..][i].0)
  {
    forall i | 0 <= i < |fs[1..]|
      ensures !HasKey(acc + [fs[0]], fs[1..][i].0)
    {
      assert fs[1..][i] == fs[i + 1];
      assert fs[1..][i].0 != fs[0].0;
    }
  }

  /** The array decoder's loop reads back the elements the encoder's loop wrote. */
  lemma {:induction false} ElemsRoundTrip(es: seq<Value>, acc: seq<Value>, rest: seq<byte>)
    requires PlainElems(es)
    ensures EncElems(map[], es, None).Ok?
    ensures DecodeElems(EncElems(map[], es, None).value + [TagEnd] + rest, acc) == Ok((Arr(acc + es), rest))
    decreases ElemsSize(es), 2
  {
    if es == [] {
      ElemsEnd(acc, rest);
      assert [] + [TagEnd] + rest == [TagEnd] + rest;
      assert acc + [] == acc;
    } else {
      ElemsRoundTrip(es[1..], acc + [es[0]], rest);
      var tb := EncElems(map[], es[1..], None).value;
      var after := tb + [TagEnd] + rest;
      assert EncInfer(map[], es[0]).Ok? && Decode(EncInfer(map[], es[0]).value + after) == Ok((es[0], after)) by {
        ValueRoundTrip(es[0], after);
      }
      var xb := EncInfer(map[], es[0]).value;
      var res := DecodeElems(after, acc + [es[0]]);
      assert EncElems(map[], es, None) == Ok(xb + tb) && DecodeElems(xb + after, acc) == res by {
        ElemsStepFrom(es, acc, xb, tb, after, res);
      }
      assert res == Ok((Arr(acc + es), rest)) by { ConsSplit(acc, es); }
      assert xb + tb + [TagEnd] + rest == xb + after;
    }
  }

  /** One element, then the elements after it: the loop reads the element
      and goes on with whatever follows it. */
  lemma ElemsStepFrom(es: seq<Value>, acc: seq<Value>, xb: seq<byte>, tb: seq<byte>,
                      after: seq<byte>, res: Result<(Value, seq<byte>)>)
    requires es != []
    requires EncInfer(map[], es[0]) == Ok(xb) && EncElems(map[], es[1..], None) == Ok(tb)
    requires Decode(xb + after) == Ok((es[0], after))
    requires DecodeElems(after, acc + [es[0]]) == res
    ensures EncElems(map[], es, None) == Ok(xb + tb)
    ensures DecodeElems(xb + after, acc) == res
  {
    ElemsCons(es, xb);
    ElemsDecodeStep(xb, after, acc, es[0]);
  }

  /** The elements loop reads one value written at the front and carries on after it. */
  lemma ElemsDecodeStep(xb: seq<byte>, after: seq<byte>, acc: seq<Value>, x: Value)
    requires StartsValue(xb) && Decode(xb + after) == Ok((x, after))
    ensures DecodeElems(xb + after, acc) == DecodeElems(after, acc + [x])
  {
    assert (xb + after)[0] == xb[0];
    ElemsStep(xb + after, acc, after, x);
  }

  /** Moving the head of `es` onto the accumulator keeps the whole. */
  lemma ConsSplit(acc: seq<Value>, es: seq<Value>)
    requires es != []
    ensures acc + [es[0]] + es[1..] == acc + es
  {
    assert es == [es[0]] + es[1..];
  }

  /** fromBuffer(toBuffer(v)) == v with an empty schema. */
  lemma SerializeRoundTrip(v: Value)
    requires Plain(v)
    ensures Serialize(map[], v).Ok?
    ensures Deserialize(Serialize(map[], v).value, 0) == Ok(v)
  {
    ValueRoundTrip(v, []);
    assert Serialize(map[], v).value + [] == Serialize(map[], v).value;
  }
}
