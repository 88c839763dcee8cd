/**
 * The Python values that `json.loads` and `JSONDecoder.raw_decode` produce,
 * and the few pieces of Python semantics the ingestion code applies to them:
 * truthiness (`x or y`, `if x:`), `dict.get`, dictionary keys (hashing and
 * equality), `== 4`, and the result of `float(...)`.
 */
module PyJson {
  import opened Wrappers

  /** A decoded JSON value. JSON integers and JSON reals decode to different
      Python types (`int` and `float`), so they are kept apart. An object is a
      `dict` from its (unique) keys to values. */
  datatype Json =
    | JNull
    | JBool(b: bool)
    | JInt(i: int)
    | JFloat(x: real)
    | JStr(s: string)
    | JArr(items: seq<Json>)
    | JObj(fields: map<string, Json>)

  /** Python's `bool(x)`: None, False, zero, the empty string, the empty list
      and the empty dict are false; everything else is true. */
  predicate Truthy(j: Json) {
    match j
    case JNull => false
    case JBool(b) => b
    case JInt(i) => i != 0
    case JFloat(x) => x != 0.0
    case JStr(s) => s != []
    case JArr(a) => a != []
    case JObj(m) => m != map[]
  }

  /** Python's `a or b`: the first operand when it is truthy, else the second. */
  function Or(a: Json, b: Json): (r: Json)
    ensures Truthy(a) ==> r == a
    ensures !Truthy(a) ==> r == b
    ensures Truthy(r) <==> Truthy(a) || Truthy(b)
  {
    if Truthy(a) then a else b
  }

  /** `d.get(k, default)`. */
  function GetOr(d: map<string, Json>, k: string, default: Json): (r: Json)
    ensures k in d ==> r == d[k]
    ensures k !in d ==> r == default
  {
    if k in d then d[k] else default
  }

  /** `d.get(k)`: a missing key reads as None, exactly like a present null. */
  function Get(d: map<string, Json>, k: string): Json {
    GetOr(d, k, JNull)
  }

  /** The two defaulting idioms of the loaders: `d.get(k, x)` and
      `d.get(k) or x` agree exactly when the key is missing, its value is
      truthy, or its value is the default itself; a present falsy value is
      kept by the first and replaced by the second. A missing key and a
      stored null both read as None through `d.get(k)`. */
  lemma GetDefaultVersusOr(d: map<string, Json>, k: string, x: Json)
    ensures GetOr(d, k, x) == Or(Get(d, k), x) <==> k !in d || Truthy(d[k]) || d[k] == x
    ensures Get(d, k) == JNull <==> k !in d || d[k] == JNull
  {
  }

  /** The identity of a value used as a dictionary key. Python equates and
      hashes `True`, `1` and `1.0` (and `False`, `0`, `0.0`) alike, so numbers
      and booleans share one kind of key. */
  datatype Key = KNone | KNum(x: real) | KStr(s: string)

  /** The key a value stands for in a `dict`; `None` when the value is a list
      or a dict, for which hashing raises `TypeError`. */
  function KeyOf(j: Json): (r: Option<Key>)
    ensures r.None? <==> j.JArr? || j.JObj?
  {
    match j
    case JNull => Some(KNone)
    case JBool(b) => Some(KNum(if b then 1.0 else 0.0))
    case JInt(i) => Some(KNum(i as real))
    case JFloat(x) => Some(KNum(x))
    case JStr(s) => Some(KStr(s))
    case JArr(_) => None
    case JObj(_) => None
  }

  /** Python's `j == 4` on a decoded value: true for the int 4 and the float
      4.0 only (`True == 4` is false). */
  predicate EqualsFour(j: Json) {
    j == JInt(4) || j == JFloat(4.0)
  }

  /** A Python `float`, as returned by `float(...)`: finite, an infinity or NaN. */
  datatype PyFloat = Finite(x: real) | PosInf | NegInf | NaN

  /** The IEEE comparison `v <= 0`; it is false for NaN. */
  predicate AtMostZero(v: PyFloat) {
    match v
    case Finite(x) => x <= 0.0
    case PosInf => false
    case NegInf => true
    case NaN => false
  }
}
