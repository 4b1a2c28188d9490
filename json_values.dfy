/** JSON documents as the application receives them from request bodies and
    stores them in JSON-typed columns. Numbers are integers only. */
module JsonValues {

  datatype Json =
    | Null
    | Bool(b: bool)
    | Num(n: int)
    | Str(s: string)
    | Arr(items: seq<Json>)
    | Obj(fields: map<string, Json>)

  /** The empty object `{}`, the default the application substitutes for absent maps. */
  const EmptyObject: Json := Obj(map[])
}
