/**
 * The dynamically typed values a YAML front-matter block yields, with the
 * Python built-ins the core applies to them: `bool(v)`, `str(v)`, hashing.
 */
module Values {
  import opened Text
  import opened Dates

  datatype Value =
    | VStr(s: string)
    | VInt(n: int)
    | VBool(b: bool)
    | VNone
    | VDate(date: Date)
    | VList(items: seq<Value>)

  /** Python truthiness, `bool(v)`. */
  predicate Truthy(v: Value)
  {
    match v
    case VStr(s) => s != ""
    case VInt(n) => n != 0
    case VBool(b) => b
    case VNone => false
    case VDate(_) => true
    case VList(items) => items != []
  }

  /** Values a Python dict accepts as keys (lists are unhashable). */
  predicate Hashable(v: Value)
  {
    !v.VList?
  }

  /** `str(v)` for a hashable value; a date prints as `YYYY-MM-DD`. */
  function ToStr(v: Value): string
    requires Hashable(v)
  {
    match v
    case VStr(s) => s
    case VInt(n) => IntToString(n)
    case VBool(b) => if b then "True" else "False"
    case VNone => "None"
    case VDate(d) => Format(d)
  }

  /** `m.get(key, default)`. */
  function Get(m: map<string, Value>, key: string, default: Value): Value
  {
    if key in m then m[key] else default
  }
}
