/** JSON values as the bridge sees them after parsing. */
module Json {

  /** A number is held either as an exact 64-bit integer or as a finite double. */
  datatype Number = Integer(n: int) | Float(x: real)

  function NumericValue(number: Number): real {
    match number
    case Integer(n) => n as real
    case Float(x) => x
  }

  datatype Json =
    | Null
    | Bool(b: bool)
    | Num(number: Number)
    | Str(text: string)
    | Array(items: seq<Json>)
    | Object(fields: map<string, Json>)

  type Fields = map<string, Json>
}
