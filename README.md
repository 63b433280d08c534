# buffer-serializer and IncrementalMap in Dafny

This project models two things in Dafny and proves properties about them.

The first is the tagged binary codec of `buffer-serializer`. It has three layers:

- **BufferWriter**, an append-only list of byte fragments. It offers fixed-width big-endian numbers, one-byte-per-character text and a three-tier size prefix.
- **BufferReader**, a cursor over an immutable buffer. Every read moves its offset except `lookup`.
- **BufferSerializer**, the codec. Encoding walks a value, or follows the schema entry for its key, and appends tagged bytes to the shared writer. Decoding reads a tag from the shared reader and rebuilds the value. Containers are read until the end marker `!`.

The second is `IncrementalMap`, a map whose entries are kept per snapshot.

The model is written in two layers:

- The wire format is stated as pure functions on byte sequences:
  - `Writer.SizePrefix` and `Writer.NumberBytes`;
  - `Reader.ReadSize` and `Reader.ReadNumber`;
  - `Codec.EncInfer`, `Codec.EncTyped` and `Codec.Decode`, with their helpers.
- The classes keep the source's state: `BufferWriter.bufferList`, `BufferReader.readBuffer` with `bufferReadOffset`, the serializer's `buffWriter` and `buffReader`, and `IncrementalMap`'s `currentSnapshotKey` with its `map`. They change that state step by step, with the source's loops.
- Each method is proved to append, or to consume, exactly what the function says.
- Separate lemmas prove what the functions promise:
  - round trips;
  - the choice of the narrowest tier;
  - schema lookup;
  - failures and dropped output.

Files:

- `results.dfy`: `Option`, `Result` and the error values.
- `bytes.dfy`: bytes, big-endian digits and the binary64 pattern of a large integer.
- `text.dfy`: Latin-1 text and decimal text.
- `types.dfy`: `type.ts`.
- `values.dfy`: the JavaScript values the codec sees.
- `writer.dfy` and `reader.dfy`: the writer and the reader.
- `codec.dfy`: the wire format as functions.
- `codec_props.dfy` and `roundtrip.dfy`: the properties.
- `serializer.dfy`: the serializer class.
- `incremental_map.dfy`: `IncrementalMap`.

The codec is modelled as written:

- Without a schema entry, a Set, a Map or a Date is written as the empty object `O !`.
- Tag `B` is only ever read.
- A numeric schema type always writes tag `P` or `I`.
- A schema type name the encoder does not know writes nothing.
- A key the key pattern rejects is dropped, but its value is still written.
- `lookup` reads a zero byte as the end of the stream. So an empty string does not read back.

## Model

| member | source | states |
|---|---|---|
| Types.ParseWidth | buffer-serializer/type.ts:3-10 | A schema string names a width exactly when it is a key of `NumberTypesEnum`, and the width's name is that string and the enum's value. |
| Types.ParseWidthName | buffer-serializer/type.ts:3-10 | Each of the four widths `u8`, `u16`, `u32` and `double` is recognised by its own name. |
| Codec.SchemaType | buffer-serializer/buffer-serializer.ts:101-106 | Under an array's nested entry, a field's schema type is a type name or nothing, never another nested map. A nested entry is only followed when no nested key is in force. |
| Values.Props | buffer-serializer/buffer-serializer.ts:150-160 | A value's own properties, when it has them, are smaller than the value, so the key loop ends. |
| Writer.BufferWriter.constructor | buffer-serializer/buffer-writer.ts:4 | A new writer holds no fragments and no bytes. |
| Writer.BufferWriter.Push | buffer-serializer/buffer-writer.ts:4-8 | Appends one fragment. Earlier fragments are unchanged, and the bytes grow by exactly that fragment. |
| Writer.BufferWriter.String | buffer-serializer/buffer-writer.ts:6-8 | Appends one byte per character, the low 8 bits of each. |
| Writer.SizePrefixTiers | buffer-serializer/buffer-writer.ts:10-29 | A size is accepted exactly when `0 <= s < 0x1FFFFFFF`. A negative size and a size that is too large are the two errors. Sizes below `0x7F` take one byte `s`. Sizes below `0x3FFF` take two bytes with lead bits `10`, worth `s + 0x8000`. Larger sizes take four bytes with lead bits `110`, worth `s + 0xC0000000`. |
| Writer.SizePrefix | buffer-serializer/buffer-writer.ts:10-29 | A size has a prefix exactly when `0 <= s < 0x1FFFFFFF`. The prefix takes 1, 2 or 4 bytes, by tier. |
| Writer.BufferWriter.Size | buffer-serializer/buffer-writer.ts:10-29 | Appends the size prefix, or appends nothing and fails with the prefix's error. |
| Writer.NumberBytesValue | buffer-serializer/buffer-writer.ts:31-56 | At u8, u16 and u32 the bytes written are the big-endian digits of the value. |
| Writer.NumberBytes | buffer-serializer/buffer-writer.ts:31-56 | The fragment for a width is exactly that width's byte count: 1, 2, 4 or 8. |
| Writer.BufferWriter.Number | buffer-serializer/buffer-writer.ts:31-56 | Appends one fragment of exactly 1, 2, 4 or 8 bytes. |
| Writer.BufferWriter.ToBuffer | buffer-serializer/buffer-writer.ts:58-60 | Returns the fragments concatenated in the order they were appended. |
| Reader.BufferReader.constructor | buffer-serializer/buffer-reader.ts:4-10 | The reader keeps the buffer it is given, and its offset starts at the given offset. |
| Reader.BufferReader.Buffer | buffer-serializer/buffer-reader.ts:12-17 | Returns the next `length` bytes, clipped at the end of the buffer, and moves the offset by the full `length`. |
| Reader.ReadBytes | buffer-serializer/buffer-reader.ts:12-17 | The bytes read followed by the bytes left make up the input. The read is `length` bytes or all that is left, whichever is shorter. |
| Reader.BufferReader.Skip | buffer-serializer/buffer-reader.ts:19-21 | Moves the offset by exactly one, and the remaining bytes lose their first byte. |
| Reader.BufferReader.Lookup | buffer-serializer/buffer-reader.ts:23-31 | Succeeds exactly when a byte is left and it is not zero, and then returns that byte. The offset does not move. |
| Reader.Peek | buffer-serializer/buffer-reader.ts:23-31 | `lookup()` gives a byte exactly when one is left and it is not zero, and that byte is the next one. |
| Reader.BufferReader.Number | buffer-serializer/buffer-reader.ts:33-58 | Returns the big-endian value of the next 1, 2 or 4 bytes, or the 8 bytes of a double, and moves the offset by that width. When too few bytes are left it fails and does not move. |
| Reader.ReadNumber | buffer-serializer/buffer-reader.ts:33-58 | A read succeeds exactly when all the width's bytes are there. It then consumes exactly that many, and it gives a double exactly at width `double`. |
| Reader.ReadNumberWritten | buffer-serializer/buffer-reader.ts:33-58 | `number(w)` reads back what the writer's `number(v, w)` wrote and consumes exactly its width. |
| Reader.BufferReader.Size | buffer-serializer/buffer-reader.ts:60-76 | Reads a size exactly as the prefix function says: it branches on the lead byte's top bits and fails on `111xxxxx`. |
| Reader.ReadSize | buffer-serializer/buffer-reader.ts:60-76 | A size read gives a value below `0x20000000` and consumes at least one byte. |
| Reader.ReadSizeOne | buffer-serializer/buffer-reader.ts:60-66 | A lead byte with its top bit clear is the size itself, except a zero byte, which reads as the end of the stream. |
| Reader.ReadSizeTwo | buffer-serializer/buffer-reader.ts:67-69 | A lead byte `10xxxxxx` gives the two-byte value masked to 14 bits. |
| Reader.ReadSizeFour | buffer-serializer/buffer-reader.ts:70-72 | A lead byte `110xxxxx` gives the four-byte value masked to 29 bits. |
| Reader.InvalidSizeLead | buffer-serializer/buffer-reader.ts:75 | A lead byte `111xxxxx` is rejected as an invalid size. |
| Reader.SizeRoundTrip | buffer-serializer/buffer-reader.ts:60-73 | For `1 <= s < 0x1FFFFFFF`, `size()` reads back what the writer's `size(s)` wrote, consuming only it. For `s = 0` the read fails. |
| Reader.BufferReader.String | buffer-serializer/buffer-reader.ts:78-83 | Returns the next `length` bytes as characters, clipped at the end, and moves the offset by `length`. |
| Reader.ReadString | buffer-serializer/buffer-reader.ts:78-83 | One character per byte read. What is left is what `buffer(length)` leaves. |
| Codec.EncNumber | buffer-serializer/buffer-serializer.ts:197-242 | A number's bytes always start with a tag the decoder knows. |
| Codec.EncString | buffer-serializer/buffer-serializer.ts:259-263 | A string can be written exactly when its length is below `0x1FFFFFFF`, and its bytes start with a tag. |
| Codec.EncBool | buffer-serializer/buffer-serializer.ts:265-271 | A boolean writes one byte, a tag the decoder knows. |
| Codec.EncDate | buffer-serializer/buffer-serializer.ts:244-257 | A date can be written exactly when `0 <= t < 2^32 * 1000`, because its seconds go through a u32 write. Its bytes then start with a tag. |
| Codec.EncForced | buffer-serializer/buffer-serializer.ts:112-121 | A numeric schema type writes exactly when the value is a number the width's write accepts. It writes one tag and then the width's bytes. The tag is `P` exactly when the value is greater than 0, and at the integer widths the bytes are the value's big-endian digits. |
| Codec.EncPrim | buffer-serializer/buffer-serializer.ts:112-138 | A type-name entry writes nothing, or bytes that start with a tag. The name `bool` always writes one byte. |
| Codec.EncKey | buffer-serializer/buffer-serializer.ts:191-195 | A key the pattern rejects writes nothing and never fails. An accepted key is written as a string starting with `s`, and it fails only when it is too long. |
| Codec.EncObjElem | buffer-serializer/buffer-serializer.ts:167-178 | An element whose keys the model cannot list, `undefined` or a string, fails. A written element is at least two bytes, starts with `O` and ends with `!`. |
| Codec.EncObjElems | buffer-serializer/buffer-serializer.ts:165-181 | Each element takes at least its own `O !`, so there are at least twice as many bytes as elements. |
| Codec.Serialize | buffer-serializer/buffer-serializer.ts:14-20 | What `toBuffer` writes starts with a tag the decoder knows, and `undefined` is an invalid type. |
| Codec.Deserialize | buffer-serializer/buffer-serializer.ts:22-25 | `fromBuffer` can succeed only when the offset is inside the buffer. |
| Codec.EncInfer | buffer-serializer/buffer-serializer.ts:82-99 | What a value writes without a schema type, when it succeeds, starts with a decodable tag and never with the end marker. |
| Codec.EncObject | buffer-serializer/buffer-serializer.ts:142-148 | An object's bytes, when written, start with a tag the decoder knows and never with the end marker. |
| Codec.EncRecord | buffer-serializer/buffer-serializer.ts:150-160 | A generic object's bytes, when written, start with a tag the decoder knows. |
| Codec.EncArray | buffer-serializer/buffer-serializer.ts:162-189 | An array's bytes, when written, start with a tag the decoder knows. |
| Codec.DecodeInt | buffer-serializer/buffer-serializer.ts:33-70 | A signed read gives an integer number and consumes at least its tag. |
| Codec.DecodeDate | buffer-serializer/buffer-serializer.ts:274-287 | A date read consumes bytes. |
| Codec.Decode | buffer-serializer/buffer-serializer.ts:27-80 | Every successful read consumes at least one byte. |
| Codec.DecodeFields | buffer-serializer/buffer-serializer.ts:289-301 | Reading an object's pairs up to `!` consumes bytes. |
| Codec.DecodeElems | buffer-serializer/buffer-serializer.ts:303-313 | Reading an array's elements up to `!` consumes bytes. |
| CodecProperties.SmallestWidth | buffer-serializer/buffer-serializer.ts:197-242 | The width chosen for `abs(n) <= 0xFFFFFFFF` is an integer width that holds it. It is u16 only above `0xFF` and u32 only above `0xFFFF`. |
| CodecProperties.IntegerRoundTrip | buffer-serializer/buffer-serializer.ts:197-242 | An integer with `abs(n) <= 0xFFFFFFFF` is a sign tag (`+ p P` exactly when `n >= 0`) followed by `abs(n)` in the narrowest width. It reads back as `n` and consumes exactly those bytes. |
| CodecProperties.LargeIntegerAsDouble | buffer-serializer/buffer-serializer.ts:197-242 | An integer beyond `0xFFFFFFFF` in size is written as `d` and its binary64 pattern, and it reads back as that pattern. |
| CodecProperties.FloatRoundTrip | buffer-serializer/buffer-serializer.ts:197-242 | A non-integral number is written as `d` and its 8 bytes, which read back unchanged. |
| CodecProperties.StringRoundTrip | buffer-serializer/buffer-serializer.ts:259-263 | A non-empty Latin-1 string of allowed length reads back as itself and consumes exactly its bytes. |
| CodecProperties.EmptyStringUnreadable | buffer-serializer/buffer-serializer.ts:259-263 | The empty string is written as `s 0x00`, and reading it fails at `lookup`. |
| CodecProperties.BoolRoundTrip | buffer-serializer/buffer-serializer.ts:265-271 | A boolean is one tag byte and reads back as itself. |
| CodecProperties.DateRoundTrip | buffer-serializer/buffer-serializer.ts:244-287 | For `0 <= t < 2^32 * 1000`, a date is `D` with seconds and milliseconds (7 bytes) when `t % 1000 != 0`, and otherwise `T` with seconds (5 bytes). It reads back as `t`. |
| CodecProperties.NegativeDateRejected | buffer-serializer/buffer-serializer.ts:244-257 | A date before the epoch cannot be written at u32. |
| CodecProperties.ForcedU32RoundTrip | buffer-serializer/buffer-serializer.ts:112-121 | Under schema `u32`, every `0 <= n <= 0xFFFFFFFF` reads back as `n`. |
| CodecProperties.ForcedWidthMisframed | buffer-serializer/buffer-serializer.ts:112-121 | Under `u8`, `u16` or `double` the tag still promises four bytes. So the decoder does not stop where the value's bytes end. |
| CodecProperties.UnhandledSchemaTypeWritesNothing | buffer-serializer/buffer-serializer.ts:112-138 | A schema type name no branch handles writes nothing for the value. |
| CodecProperties.MissingEntryInfers | buffer-serializer/buffer-serializer.ts:102-110 | A missing or empty schema entry falls back to inference. |
| CodecProperties.TopLevelEntryUsed | buffer-serializer/buffer-serializer.ts:101-138 | A record field uses `schema[key]`. |
| CodecProperties.NestedEntryUsed | buffer-serializer/buffer-serializer.ts:105-110 | Inside an array under a nested entry, a field uses `schema[arrayKey][field]` and nothing else. |
| CodecProperties.NestedEntryIgnoredForRecord | buffer-serializer/buffer-serializer.ts:123-160 | A plain record under a nested entry looks its fields up in the top-level schema again. |
| CodecProperties.ArrayOfObjectsUsesNestedEntry | buffer-serializer/buffer-serializer.ts:162-181 | An array whose first element is an object, under a nested entry, is `a`, then every element written as its own object with its fields typed under the array's key, then `!`. |
| CodecProperties.ObjectElemsFramed | buffer-serializer/buffer-serializer.ts:165-181 | When every element has its keys and each is written as `O`, its fields under the nested key and `!`, the elements' bytes are those frames concatenated in order. |
| CodecProperties.ObjectElemsFirstFailure | buffer-serializer/buffer-serializer.ts:165-181 | When element `j` is the first to fail, writing the elements fails with that element's error. |
| CodecProperties.KeylessElementWrittenEmpty | buffer-serializer/buffer-serializer.ts:165-181 | An element that is a Set, a Map, a Date, a number, a boolean, a function, a symbol or a bigint has no own keys and is written as `O !`. |
| CodecProperties.UnknownCodeRejected | buffer-serializer/buffer-serializer.ts:79 | A byte with no case is an unknown code, and so are `!`, `S` and `M`. |
| CodecProperties.UndefinedRejected | buffer-serializer/buffer-serializer.ts:96-97 | `undefined`, a function, a symbol or a bigint is an invalid type, also as a field value. |
| CodecProperties.BoolEntryTruthiness | buffer-serializer/buffer-serializer.ts:265-271 | Under schema type `bool` only truthiness counts: `undefined` and `0n` write `f`, and a function, a symbol or any other bigint writes `t`, although inference rejects it. |
| CodecProperties.InvalidKeyDropped | buffer-serializer/buffer-serializer.ts:150-195 | A key the pattern rejects writes nothing. Its value is still written, typed by the schema entry for that key. |
| CodecProperties.EmptyKeyUnreadable | buffer-serializer/buffer-serializer.ts:289-301 | A record with the empty key writes that key as `s 0x00`, and the object decoder then fails at `lookup()`. So such a record cannot be read back. |
| CodecProperties.ZeroIsFalse | buffer-serializer/buffer-serializer.ts:265-271 | Under schema type `bool`, `+0`, `-0` and NaN are written as `f`, as JavaScript truthiness says. |
| CodecProperties.TypedOutputShape | buffer-serializer/buffer-serializer.ts:101-139 | A schema-typed value writes nothing, for a type name no branch handles, or bytes that start with a tag and never with `!`. |
| CodecProperties.FieldsOutputShape | buffer-serializer/buffer-serializer.ts:150-160 | The key loop's bytes never start with `!`, so the decoder's loop cannot stop inside them. |
| CodecProperties.ElemsOutputShape | buffer-serializer/buffer-serializer.ts:183-188 | The element loop's bytes never start with `!` either. |
| CodecProperties.KeylessObjectsWrittenEmpty | buffer-serializer/buffer-serializer.ts:142-160 | Without a schema entry, a Set, a Map or a Date is written as `O !`. |
| CodecProperties.AssignSemantics | buffer-serializer/buffer-serializer.ts:292-295 | `acc[key] = value` makes the key read as the value and leaves every other key alone. An existing key keeps its position, and a fresh key is appended. |
| RoundTrip.ValueRoundTrip | buffer-serializer/buffer-serializer.ts:27-313 | Without a schema, every plain value is written and reads back as itself. Plain values are: integers up to `0xFFFFFFFF` in size, non-integral numbers, booleans, non-empty Latin-1 strings, records with distinct non-empty valid keys, and arrays of these whose first element is not an object or whose elements are all records. |
| RoundTrip.RecordRoundTrip | buffer-serializer/buffer-serializer.ts:150-301 | A plain record reads back as itself: `O`, its keys and values, then `!`. |
| RoundTrip.ArrayRoundTrip | buffer-serializer/buffer-serializer.ts:162-313 | A plain array reads back as itself, including arrays of records. |
| RoundTrip.FieldsRoundTrip | buffer-serializer/buffer-serializer.ts:150-301 | The decoder's loop rebuilds exactly the fields the encoder's loop wrote, in order, and stops past `!`. |
| RoundTrip.ElemsRoundTrip | buffer-serializer/buffer-serializer.ts:183-313 | The decoder's loop rebuilds exactly the elements written, in order, and stops past `!`. |
| RoundTrip.SerializeRoundTrip | buffer-serializer/buffer-serializer.ts:14-25 | With an empty schema, `fromBuffer(toBuffer(v))` is `v` for every plain value. |
| Serializer.BufferSerializer.constructor | buffer-serializer/buffer-serializer.ts:10-12 | The serializer keeps the schema it is given. |
| Serializer.BufferSerializer.ToBuffer | buffer-serializer/buffer-serializer.ts:14-20 | Returns exactly the bytes of the encoding function, or its error. |
| Serializer.BufferSerializer.FromBuffer | buffer-serializer/buffer-serializer.ts:22-25 | Returns exactly what the decoding function gives from the offset. |
| Serializer.BufferSerializer.DeserializeInternal | buffer-serializer/buffer-serializer.ts:27-80 | Reads one value and leaves the cursor where the decoding function says. |
| Serializer.BufferSerializer.SerializeInternal | buffer-serializer/buffer-serializer.ts:82-99 | Appends exactly what inference writes, or fails with its error. |
| Serializer.BufferSerializer.SerializeTyped | buffer-serializer/buffer-serializer.ts:101-139 | Appends exactly what the schema-typed encoding writes. |
| Serializer.BufferSerializer.PrimInternal | buffer-serializer/buffer-serializer.ts:112-138 | Appends what a type-name entry writes. After a failure it has appended the tag the source writes before it throws: `P` or `I` for a number at a width, `s` for a string, `D` or `T` for a date. It has appended nothing when the value's type does not fit the entry. |
| Serializer.BufferSerializer.ObjectInternal | buffer-serializer/buffer-serializer.ts:142-148 | Appends an array's or a generic object's encoding. |
| Serializer.BufferSerializer.ObjectGenericInternal | buffer-serializer/buffer-serializer.ts:150-160 | Appends `O`, the fields and `!`. |
| Serializer.BufferSerializer.FieldsInternal | buffer-serializer/buffer-serializer.ts:154-157 | The key loop appends each key and its typed value, in order. |
| Serializer.BufferSerializer.ArrayInternal | buffer-serializer/buffer-serializer.ts:162-189 | Appends `a`, the elements and `!`. |
| Serializer.BufferSerializer.ObjectElemsInternal | buffer-serializer/buffer-serializer.ts:165-181 | Appends each element as its own object. |
| Serializer.BufferSerializer.ObjectElemInternal | buffer-serializer/buffer-serializer.ts:167-178 | Appends one element as `O`, its fields typed under the array's key, and `!`. |
| Serializer.BufferSerializer.ElemsInternal | buffer-serializer/buffer-serializer.ts:183-188 | Appends each element typed under the array's key. |
| Serializer.BufferSerializer.KeyInternal | buffer-serializer/buffer-serializer.ts:191-195 | Appends the key as a string when the pattern accepts it, and nothing otherwise. |
| Serializer.BufferSerializer.NumberInternal | buffer-serializer/buffer-serializer.ts:197-242 | Appends the number's tag and payload. |
| Serializer.BufferSerializer.DateInternal | buffer-serializer/buffer-serializer.ts:244-257 | Appends the date's encoding. On failure it has appended only the tag, `D` or `T`. |
| Serializer.BufferSerializer.StringInternal | buffer-serializer/buffer-serializer.ts:259-263 | Appends `s`, the size and the characters. On failure it has appended only `s`. |
| Serializer.BufferSerializer.BooleanInternal | buffer-serializer/buffer-serializer.ts:265-271 | Appends `t` or `f`. |
| Serializer.BufferSerializer.SignedNumber | buffer-serializer/buffer-serializer.ts:33-70 | Reads an integer of the given width, negated for the negative tags. |
| Serializer.BufferSerializer.ObjectDateD | buffer-serializer/buffer-serializer.ts:274-280 | Reads seconds and milliseconds as `seconds * 1000 + ms`. |
| Serializer.BufferSerializer.ObjectDateT | buffer-serializer/buffer-serializer.ts:282-287 | Reads whole seconds as `seconds * 1000`. |
| Serializer.BufferSerializer.ObjectGenericFrom | buffer-serializer/buffer-serializer.ts:289-301 | The loop reads key and value pairs until `lookup()` sees `!`, then skips exactly that byte. |
| Serializer.BufferSerializer.ArrayDenseFrom | buffer-serializer/buffer-serializer.ts:303-313 | The loop reads values until `lookup()` sees `!`, then skips exactly that byte. |
| Incremental.HistoryKeyInjective | incrementalMap.ts:5-13 | `${snapshot}:${key}` names a different string for each (snapshot, key) pair, because a number's text has no `:`. |
| Incremental.SetThenGet | incrementalMap.ts:5-13 | After a set, a get of the same key under the same snapshot returns the new value. Every other pair reads as before. |
| Incremental.IncrementalMap.constructor | incrementalMap.ts:2-3 | A fresh map is at snapshot 0 with no entries. |
| Incremental.IncrementalMap.Get | incrementalMap.ts:5-8 | Returns the entry set for the key under the current snapshot only. It never falls back to an earlier snapshot. |
| Incremental.IncrementalMap.Set | incrementalMap.ts:10-13 | Stores the value for the key under the current snapshot and overwrites what was there. The snapshot does not change, and the map still answers every get as its history does. |
| Incremental.IncrementalMap.Snapshot | incrementalMap.ts:15-17 | Changes only the current snapshot, and every stored entry stays. |
| Incremental.Scenario | incrementalMap.ts:20-40 | The demo's call sequence: snapshot 1 does not see the name set under snapshot 0, and going back to snapshot 0 reads its earlier values. |

## Left out

- IEEE 754: an integer beyond `0xFFFFFFFF` in size is turned into its exact binary64 pattern, rounded half to even. A `d` tag always reads back as `Float(bits)`. So whether a decoded double is integral, and `-0`, NaN and the infinities as values, are not modelled. Any other number is known only by its 8 bytes. Truthiness follows JavaScript on those bytes: the patterns of `+0`, `-0` and NaN are falsy, and every other pattern is truthy.
- Negative zero: `- number(u8)` of a zero byte gives `-0` in JavaScript. The model gives the integer 0. The two compare equal under `===`.
- `Object.keys` ordering: records are ordered field lists, and JavaScript's placing of integer-like keys first is not modelled. The round trip assumes distinct keys.
- JavaScript reflection: `typeof null`, prototype keys such as `schema['toString']`, `__proto__`, and getters are not modelled. An array element is typed under the key `null`, which a schema lookup reads as `"null"`, as the source does.
- Coercions: `Object.keys` of a string ends in a `NotModelled` error. So does a decoded property key that is not a string, an integer or a boolean (a double, a Date, an array or an object), where JavaScript would use `String(key)`.
- Codec.EncForced: a value that is not a number under a numeric schema type ends in a `NotModelled` error. JavaScript coerces it instead: `true` under `u8` writes `P 01`.
- Codec.EncForced: a fraction, NaN or an infinity at an integer width ends in a `NotModelled` error. Node truncates a fraction inside the range (`1.5` is written as `1`) and writes NaN as `0`. Only a value outside the range, such as an infinity, throws.
- Codec.EncPrim: a value that is not a string under schema type `string` ends in a `NotModelled` error with nothing written. The source writes `s` and then calls `size` on the value's `length`, whatever that is for the value's type.
- Partial output inside containers: when a field or an element fails, the serializer methods state the error but not which bytes the container has written so far. The source has already appended them to the shared writer when it throws.
- Codec.Deserialize, Serializer.BufferSerializer.FromBuffer and Reader.BufferReader.constructor: the offset is a natural number. A negative or fractional offset, which makes Node's first `readUInt8` throw, is not modelled.
- `new Date()` in the date decoders: the current time is overwritten by `setTime`, so an instant is integer milliseconds.
- The `Unknown number type` branch of `BufferWriter.number` (buffer-serializer/buffer-writer.ts:51-52): `Width` is a closed datatype, so it cannot be reached.
- Node's range checks in `writeUint8/16/32`: they are the precondition `Writable` on `BufferWriter.Number`. The encoders report `OutOfRange` where the source would throw from Node.
- `Buffer.concat` and `Buffer.alloc` internals: bytes are sequences.
- Latin-1 conversion of characters above `0xFF`: the writer keeps the low 8 bits, and round trips are claimed only for characters up to `0xFF`. A character above `U+FFFF` is one `char` in the model but two UTF-16 units in JavaScript. For such a character the source writes the size 2 and two bytes, while the model writes the size 1 and one byte.
- JavaScript's `${n}` exponent notation for huge snapshot numbers: `IncrementalMap` snapshot keys are integers and keys are strings. Non-integral snapshot numbers are not modelled.
- The demo's `console.log` output in incrementalMap.ts:20-40: only the call sequence and the values `get` returns are modelled.
- buffer-serializer/main.ts, async-queue, config-parser and mapToBool.ts: they are not part of this model. They are a console demo, promise and timer scheduling around an unseen `mutex` module, environment and property-descriptor handling, and compile-time types with no runtime behaviour.
- Codec.SchemaType: requires that a truthy nested key names a nested entry, which every call in the source guarantees. A nested key that names a plain type string, which would index into the string, is not modelled.
- Codec.DecodeDate: states only that bytes are consumed. What it rebuilds is stated by CodecProperties.DateRoundTrip.
