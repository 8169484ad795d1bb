/** The JavaScript values that flow through the query translator, the workflow runner and the bridge. */
module Json {
  import opened Records

  /**
   * `undefined`, `null`, booleans, numbers (integral only), strings, arrays
   * and plain objects in property-insertion order.
   */
  datatype Json =
    | Undefined
    | Null
    | Bool(b: bool)
    | Num(n: int)
    | Str(s: string)
    | Arr(items: seq<Json>)
    | Obj(fields: seq<(string, Json)>)

  /** JavaScript truthiness: `if (v)`. */
  predicate Truthy(v: Json)
  {
    match v
    case Undefined => false
    case Null => false
    case Bool(b) => b
    case Num(n) => n != 0
    case Str(s) => s != ""
    case Arr(_) => true
    case Obj(_) => true
  }
}
