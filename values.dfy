/** The decoded JSON values the agents exchange, and Python dictionaries over them. */
module Values {
  import opened Wrappers

  /**
   * A value as `json.loads` produces it. Arrays and objects nested inside a
   * verdict are never inspected by the pipeline; only their size matters
   * (for truthiness), so `Collection` keeps just that.
   */
  datatype Value =
    | Null
    | Bool(b: bool)
    | Int(i: int)
    | Real(r: real)
    | Str(s: string)
    | Collection(size: nat)

  /** A Python `dict` with string keys: a missing key and a key bound to `False` are different. */
  type Dict = map<string, Value>

  /** Python truthiness: `bool(v)`. */
  predicate Truthy(v: Value)
  {
    match v
    case Null => false
    case Bool(b) => b
    case Int(i) => i != 0
    case Real(r) => r != 0.0
    case Str(s) => s != ""
    case Collection(n) => n > 0
  }

  /** `d.get(key, default)`. */
  function Get(d: Dict, key: string, default: Value): (v: Value)
    ensures key in d ==> v == d[key]
    ensures key !in d ==> v == default
  {
    if key in d then d[key] else default
  }

  /**
   * `v >= bound` for an integer bound, as Python evaluates it: numbers compare
   * by value (a `bool` counts as 0 or 1); any other type raises `TypeError`,
   * written here as `None`.
   */
  function AtLeast(v: Value, bound: int): Option<bool>
  {
    match v
    case Int(i) => Some(i >= bound)
    case Real(r) => Some(r >= bound as real)
    case Bool(b) => Some((if b then 1 else 0) >= bound)
    case _ => None
  }
}
