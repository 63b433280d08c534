/** The declarations of buffer-serializer/type.ts: the closed set of number
    widths and the shape of a schema. */
module Types {
  import opened Results

  /** NumberTypes: 'u8' | 'u16' | 'u32' | 'double'. */
  datatype Width = U8 | U16 | U32 | Double

  /** The members of NumberTypesEnum, each named by its own value. */
  const NumberTypesEnum: map<string, string> :=
    map["u8" := "u8", "u16" := "u16", "u32" := "u32", "double" := "double"]

  function WidthName(w: Width): string
  {
    match w
    case U8 => "u8"
    case U16 => "u16"
    case U32 => "u32"
    case Double => "double"
  }

  /** The bytes a value of the width occupies on the wire. */
  function ByteCount(w: Width): nat
  {
    match w
    case U8 => 1
    case U16 => 2
    case U32 => 4
    case Double => 8
  }

  /** The width a schema string names, if `Object.keys(NumberTypesEnum).includes` accepts it. */
  function ParseWidth(name: string): (r: Option<Width>)
    ensures r.Some? <==> name in NumberTypesEnum.Keys
    ensures r.Some? ==> WidthName(r.value) == name && NumberTypesEnum[name] == name
  {
    if name == "u8" then Some(U8)
    else if name == "u16" then Some(U16)
    else if name == "u32" then Some(U32)
    else if name == "double" then Some(Double)
    else None
  }

  lemma ParseWidthName(w: Width)
    ensures ParseWidth(WidthName(w)) == Some(w)
  {
  }

  /** A BufferSchema entry: a type-name string, or one level of field names
      mapped to type-name strings. */
  datatype SchemaEntry = Prim(name: string) | Nested(fields: map<string, string>)

  type Schema = map<string, SchemaEntry>
}
