/** JSON as a tree. */
module Json {

  /** A number stands for the 64-bit integer its conversion yields. */
  datatype Json =
    | Null
    | Bool(b: bool)
    | Num(n: int)
    | Str(s: string)
    | List(items: seq<Json>)
    | Object(fields: Fields)

  type Fields = map<string, Json>
}
