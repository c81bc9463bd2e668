/** JSON-like values: the messages the browser sends to `live_method`
    handlers, and the nested objects the JavaScript front end manipulates.
    JavaScript `undefined` is never a `Value`; where it can appear the model
    uses `Option<Value>` with `None` for it. */
module Json {
  import opened Wrappers
  import Text

  /** JSON numbers are integers here: a number with a fraction is not a
      `Value`. */
  datatype Value =
    | Null
    | Bool(b: bool)
    | Num(n: int)
    | Str(s: string)
    | Arr(items: seq<Value>)
    | Obj(fields: map<string, Value>)

  /** A Python dict with string keys, as received by a live method. */
  type Dict = map<string, Value>

  /** JavaScript truthiness: `null`, `false`, `0` and `""` are falsy. */
  predicate JsTruthy(v: Value) {
    match v
    case Null => false
    case Bool(b) => b
    case Num(n) => n != 0
    case Str(s) => s != ""
    case _ => true
  }

  /** Python truthiness: in addition empty lists and dicts are falsy. */
  predicate PyTruthy(v: Value) {
    match v
    case Null => false
    case Bool(b) => b
    case Num(n) => n != 0
    case Str(s) => s != ""
    case Arr(items) => items != []
    case Obj(fields) => fields != map[]
  }

  /** `d.get(k)` (None for a missing key). */
  function Get(d: Dict, k: string): Option<Value> {
    if k in d then Some(d[k]) else None
  }

  /** The usual guard `v == "" or v is None` on a looked-up message field. */
  predicate EmptyOrNone(v: Option<Value>) {
    v == None || v == Some(Null) || v == Some(Str(""))
  }

  /** Python's `int(v)` on a decoded JSON value: numbers as they are,
      booleans as 0 and 1, decimal strings parsed (a ValueError otherwise),
      and a TypeError for `None`, lists and dicts. */
  function PyInt(v: Value): (r: Result<int>)
    ensures v.Num? ==> r == Ok(v.n)
    ensures v.Bool? ==> r == Ok(if v.b then 1 else 0)
    ensures v.Str? ==> (r.Ok? <==> Text.ParseInt(v.s).Some?) && (r.Err? ==> r.error == ValueError)
    ensures (v.Null? || v.Arr? || v.Obj?) ==> r == Err(TypeError)
  {
    match v
    case Num(n) => Ok(n)
    case Bool(b) => Ok(if b then 1 else 0)
    case Str(s) => (match Text.ParseInt(s) case Some(n) => Ok(n) case None => Err(ValueError))
    case _ => Err(TypeError)
  }
}
