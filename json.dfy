// JSON documents as Python sees them after json.load: dicts, lists, strings, numbers, booleans, None.
module JsonValues {
  import opened Wrappers

  datatype Json =
    | JNull
    | JBool(b: bool)
    | JNum(n: real)
    | JStr(s: string)
    | JArr(items: seq<Json>)
    | JObj(fields: map<string, Json>)

  /** Python truthiness of a decoded JSON value. */
  predicate Truthy(j: Json)
  {
    match j
    case JNull => false
    case JBool(b) => b
    case JNum(n) => n != 0.0
    case JStr(s) => s != ""
    case JArr(a) => a != []
    case JObj(m) => m != map[]
  }

  /** Python's `a or b`. */
  function Or(a: Json, b: Json): (r: Json)
    ensures Truthy(a) ==> r == a
    ensures !Truthy(a) ==> r == b
  {
    if Truthy(a) then a else b
  }

  /** dict.get(k): the value, or None when the key is absent. */
  function Get(m: map<string, Json>, k: string): (r: Json)
    ensures k in m ==> r == m[k]
    ensures k !in m ==> r == JNull
  {
    if k in m then m[k] else JNull
  }

  /** dict.get(k, d): the default only when the key is absent (a stored None is returned as is). */
  function GetOr(m: map<string, Json>, k: string, d: Json): (r: Json)
    ensures k in m ==> r == m[k]
    ensures k !in m ==> r == d
  {
    if k in m then m[k] else d
  }

  /** A string-valued field read as `x.get(k) or ""`; non-string values are treated as absent. */
  function TextOf(j: Json): (r: string)
    ensures j.JStr? ==> r == j.s
    ensures !j.JStr? ==> r == ""
  {
    if j.JStr? then j.s else ""
  }
}
