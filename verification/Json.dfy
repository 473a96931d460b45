/** JSON values as the Python side sees them: `Get` of a missing key is `None`, which is
    also what JSON null parses to. */
module Json {
  datatype Json =
    | Null
    | Bool(b: bool)
    | Num(n: real)
    | Str(s: string)
    | Arr(items: seq<Json>)
    | Obj(fields: map<string, Json>)

  type Fields = map<string, Json>

  function Get(fields: Fields, key: string): Json { if key in fields then fields[key] else Null }
}
