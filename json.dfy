/** Decoded JSON values and Python dictionaries of them, as the mapping,
    validation and merging code of the services sees them, with the Python
    operations those functions apply: truthiness, `d.get(k, default)`,
    `float(v)` and `str(v)`. */
module Json {
  import opened Util

  /** A decoded JSON value. Python's `int` and `float` are both `Num`. */
  datatype Value = Str(s: string) | Num(n: real) | Bool(b: bool) | Nil
                 | List(elems: seq<Value>) | Obj(fields: map<string, Value>)

  type Dict = map<string, Value>

  /** Python truthiness. */
  predicate Truthy(v: Value) {
    match v
    case Str(s) => s != ""
    case Num(n) => n != 0.0
    case Bool(b) => b
    case Nil => false
    case List(es) => es != []
    case Obj(fs) => fs != map[]
  }

  /** `d.get(k, default)`; `d.get(k)` is `Get(d, k, Nil)`. */
  function Get(d: Dict, k: string, default: Value): (r: Value)
    ensures k !in d ==> r == default
  {
    if k in d then d[k] else default
  }

  /** `float(v)`, None where it raises `ValueError` (text that is not a number)
      or `TypeError` (`None`, a list, a dict). */
  function ToFloat(v: Value): (r: Option<real>)
    ensures v.Num? ==> r == Some(v.n)
    ensures v.Nil? || v.List? || v.Obj? ==> r.None?
  {
    match v
    case Str(s) => ParseFloat(s)
    case Num(n) => Some(n)
    case Bool(b) => Some(if b then 1.0 else 0.0)
    case _ => None
  }

  /** `str(v)`. The text of a number, list or dict is the oracle `render`. */
  function PyStr(v: Value, render: Value -> string): (r: string)
    ensures v.Str? ==> r == v.s
  {
    match v
    case Str(s) => s
    case Nil => "None"
    case Bool(b) => if b then "True" else "False"
    case _ => render(v)
  }
}
