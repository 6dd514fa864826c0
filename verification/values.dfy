/**
 * The values that flow through the backend: what `json.loads` produces and
 * what a Flask request body holds. Numbers are integers only.
 */
module Values {

  datatype Json =
    | Null
    | Bool(b: bool)
    | Num(n: int)
    | Str(s: string)
    | Arr(items: seq<Json>)
    | Obj(fields: map<string, Json>)

  /** Python truthiness: `None`, `False`, `0`, `""`, `[]` and `{}` are false. */
  predicate Truthy(v: Json) {
    match v
    case Null => false
    case Bool(b) => b
    case Num(n) => n != 0
    case Str(s) => s != ""
    case Arr(items) => items != []
    case Obj(fields) => fields != map[]
  }

  /** Python's `d.get(key, default)` on a dictionary. */
  function Get<V>(d: map<string, V>, key: string, default: V): V
  {
    if key in d then d[key] else default
  }
}
