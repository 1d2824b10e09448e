/** Parsed JSON as Python sees it. */
module Json {

  datatype Json =
    | Null
    | Bool(b: bool)
    | Int(n: int)
    | Float(x: real)
    | Str(s: string)
    | List(items: seq<Json>)
    | Obj(fields: map<string, Json>)

  /** `d.get(key)`: a missing key reads like null. */
  function Get(fields: map<string, Json>, key: string): Json {
    if key in fields then fields[key] else Null
  }

  /** `bool(value)`. */
  predicate Truthy(j: Json) {
    match j
    case Null => false
    case Bool(b) => b
    case Int(n) => n != 0
    case Float(x) => x != 0.0
    case Str(s) => s != ""
    case List(items) => items != []
    case Obj(fields) => fields != map[]
  }

  /** Whether Python can hash the value. */
  predicate Hashable(j: Json) {
    !j.List? && !j.Obj?
  }

  predicate AllInts(items: seq<Json>) {
    forall k :: 0 <= k < |items| ==> items[k].Int?
  }

  function Ints(items: seq<Json>): seq<int> {
    seq(|items|, k requires 0 <= k < |items| => if items[k].Int? then items[k].n else 0)
  }
}
