/** JSON documents as the payload code sees them; numbers are reals. */
module Json {
  datatype Value =
    | Null
    | Text(text: string)
    | Flag(flag: bool)
    | Number(number: real)
    | List(items: seq<Value>)
    | Object(fields: map<string, Value>)
}
