/**
 * Decoded JSON values as the Python side of the server sees them after
 * `response.json()`: strings, numbers, booleans, null, lists and objects
 * (Python dicts keyed by strings).
 */
module Json {

  datatype Json =
    | Null
    | Bool(b: bool)
    | Int(i: int)
    | Float(x: real)
    | Str(s: string)
    | List(items: seq<Json>)
    | Object(fields: map<string, Json>)

  /** Python truthiness (`bool(v)`): null, false, zero and empty containers are falsy. */
  function Truthy(v: Json): (b: bool)
    ensures !b <==> v in {Null, Bool(false), Int(0), Float(0.0), Str(""), List([]), Object(map[])}
  {
    match v
    case Null => false
    case Bool(b) => b
    case Int(i) => i != 0
    case Float(x) => x != 0.0
    case Str(s) => s != ""
    case List(items) => items != []
    case Object(fields) => fields != map[]
  }

  /**
   * Python's `str(v)` as used inside an f-string: a string is rendered as
   * itself; every other value goes through `show`, which stands for Python's
   * own conversion (its exact text, dict key order included, is not modelled).
   */
  function PyStr(v: Json, show: Json -> string): (r: string)
    ensures v.Str? ==> r == v.s
    ensures !v.Str? ==> r == show(v)
  {
    if v.Str? then v.s else show(v)
  }

  /** `d.get(key, default)` followed by `str(...)`, for a dict `d`. */
  function GetStr(d: map<string, Json>, key: string, default: string, show: Json -> string): (r: string)
    ensures key !in d ==> r == default
    ensures key in d && d[key].Str? ==> r == d[key].s
    ensures key in d ==> r == PyStr(d[key], show)
  {
    if key in d then PyStr(d[key], show) else default
  }
}
