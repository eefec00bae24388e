/**
 * JSON values as the stats files hold them, and the Python conversions the
 * stats code applies to them: truthiness, `float(x)` and `int(x)`.
 */
module JsonValues {
  import opened Strings
  import opened Wrappers

  /**
   * A decoded JSON value. Lists and objects are not looked into; only
   * whether they are empty matters here.
   */
  datatype Json =
    | JNull
    | JBool(b: bool)
    | JInt(i: int)
    | JFloat(f: real)
    | JStr(s: string)
    | JContainer(isEmpty: bool)

  /** A decoded JSON document: an object, or anything else. */
  datatype Doc = DictDoc(entries: map<string, Json>) | NonDict

  /** Python falsiness: `None`, `False`, zero, the empty string and empty containers. */
  predicate Falsy(v: Json)
  {
    match v
    case JNull => true
    case JBool(b) => !b
    case JInt(i) => i == 0
    case JFloat(f) => f == 0.0
    case JStr(s) => s == []
    case JContainer(e) => e
  }

  /** `int(x)` of a float: truncation toward zero. */
  function TruncToZero(f: real): (r: int)
    ensures f >= 0.0 ==> r as real <= f < r as real + 1.0
    ensures f < 0.0 ==> r as real - 1.0 < f <= r as real
  {
    if f >= 0.0 then f.Floor else -((-f).Floor)
  }

  /** A string `float` and `int` accept here: a non-empty run of decimal digits. */
  predicate NumericText(s: string)
  {
    s != [] && AllDigits(s)
  }

  /** `float(x)`, or `None` where it raises. */
  function PyFloat(v: Json): (r: Option<real>)
    ensures v.JFloat? ==> r == Some(v.f)
    ensures v.JInt? ==> r == Some(v.i as real)
    ensures v.JNull? || v.JContainer? ==> r.None?
  {
    match v
    case JNull => None
    case JBool(b) => Some(if b then 1.0 else 0.0)
    case JInt(i) => Some(i as real)
    case JFloat(f) => Some(f)
    case JStr(s) => if NumericText(s) then Some(DecValue(s) as real) else None
    case JContainer(_) => None
  }

  /** `int(x)`, or `None` where it raises. */
  function PyInt(v: Json): (r: Option<int>)
    ensures v.JInt? ==> r == Some(v.i)
    ensures v.JFloat? ==> r == Some(TruncToZero(v.f))
    ensures v.JNull? || v.JContainer? ==> r.None?
  {
    match v
    case JNull => None
    case JBool(b) => Some(if b then 1 else 0)
    case JInt(i) => Some(i)
    case JFloat(f) => Some(TruncToZero(f))
    case JStr(s) => if NumericText(s) then Some(DecValue(s)) else None
    case JContainer(_) => None
  }

  /** `d.get(key, default)`. */
  function Get(d: map<string, Json>, key: string, default: Json): (v: Json)
    ensures key in d ==> v == d[key]
    ensures key !in d ==> v == default
  {
    if key in d then d[key] else default
  }
}
