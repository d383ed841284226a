/** JSON values as the handlers see them after parsing (Python dicts, lists,
    strings, ints, booleans and `None`), and the Python operations the handlers
    apply to them: `.get(k)`, `[k]`, `[i]`, `==` against an int, and `str()`. */
module Json {
  import opened Py
  import Decimal

  /** An object is modelled as a map from keys to values: key order does not
      matter to any of the handlers' decisions. Numbers are integers. */
  datatype Json =
    | JNull
    | JBool(b: bool)
    | JInt(i: int)
    | JString(s: string)
    | JArray(items: seq<Json>)
    | JObject(fields: map<string, Json>)

  /** `j.get(key)`: only a dict has `.get`; a missing key gives `None`. */
  function Get(j: Json, key: string): (r: Result<Json>)
    ensures r.Ok? <==> j.JObject?
    ensures r.Ok? && key in j.fields ==> r.value == j.fields[key]
    ensures r.Ok? && key !in j.fields ==> r.value == JNull
    ensures r.Raise? ==> r.exc == AttributeError
  {
    if j.JObject? then Ok(if key in j.fields then j.fields[key] else JNull)
    else Raise(AttributeError)
  }

  /** `j[key]` with a string key: a dict without the key raises `KeyError`,
      anything that is not a dict raises `TypeError`. */
  function Subscript(j: Json, key: string): (r: Result<Json>)
    ensures r.Ok? <==> j.JObject? && key in j.fields
    ensures r.Ok? ==> r.value == j.fields[key]
    ensures r.Raise? ==> r.exc == (if j.JObject? then KeyError else TypeError)
  {
    match j
    case JObject(fields) => if key in fields then Ok(fields[key]) else Raise(KeyError)
    case _ => Raise(TypeError)
  }

  /** `j[i]` with an integer index: lists and strings are indexed (a string gives
      a one-character string), a dict has no integer keys, and other values
      are not subscriptable. */
  function Index(j: Json, i: nat): (r: Result<Json>)
    ensures j.JArray? && i < |j.items| ==> r == Ok(j.items[i])
    ensures j.JString? && i < |j.s| ==> r == Ok(JString([j.s[i]]))
    ensures r.Ok? <==> (j.JArray? && i < |j.items|) || (j.JString? && i < |j.s|)
  {
    match j
    case JArray(items) => if i < |items| then Ok(items[i]) else Raise(IndexError)
    case JString(s) => if i < |s| then Ok(JString([s[i]])) else Raise(IndexError)
    case JObject(_) => Raise(KeyError)
    case _ => Raise(TypeError)
  }

  /** Python's `j == n` for an int `n`: besides an equal int, `True == 1` and
      `False == 0` hold, since `bool` is a subclass of `int`. */
  predicate EqualsInt(j: Json, n: int) {
    match j
    case JInt(m) => m == n
    case JBool(b) => (if b then 1 else 0) == n
    case _ => false
  }

  /** `str(j)` (equivalently `f"{j}"`) for the scalar values. */
  function Str(j: Json): (r: Result<string>)
    ensures j.JString? ==> r == Ok(j.s)
    ensures j.JNull? ==> r == Ok("None")
    ensures j.JInt? ==> r == Ok(Decimal.FromInt(j.i))
    ensures r.Raise? <==> j.JArray? || j.JObject?
  {
    match j
    case JNull => Ok("None")
    case JBool(b) => Ok(if b then "True" else "False")
    case JInt(n) => Ok(Decimal.FromInt(n))
    case JString(s) => Ok(s)
    case _ => Raise(NotModelled)
  }
}
