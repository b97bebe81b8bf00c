/** The decoded body of a search response, as the Python program sees it
    after `json.loads`. A failed search returns `None`, which the program
    cannot tell apart from a JSON `null`; both are `JNull` here. */
module Payload {
  import opened Outcome
  import opened Strings

  datatype Json =
    | JNull
    | JBool(b: bool)
    | JInt(n: int)
    | JStr(s: string)
    | JArr(items: seq<Json>)
    | JObj(fields: map<string, Json>)

  /** The false value of `j`'s own type: `None`, `False`, `0`, `""`, `[]`
      or `{}`. */
  function FalseOfKind(j: Json): Json {
    match j
    case JNull => JNull
    case JBool(_) => JBool(false)
    case JInt(_) => JInt(0)
    case JStr(_) => JStr("")
    case JArr(_) => JArr([])
    case JObj(_) => JObj(map[])
  }

  /** Python truthiness: a decoded value is false exactly when it is the
      false value of its type. */
  function Truthy(j: Json): (t: bool)
    ensures t <==> j != FalseOfKind(j)
  {
    match j
    case JNull => false
    case JBool(b) => b
    case JInt(n) => n != 0
    case JStr(s) => |s| > 0
    case JArr(items) => |items| > 0
    case JObj(fields) => |fields| > 0
  }

  /** `d.get(key, default)`. */
  function Get(fields: map<string, Json>, key: string, default: Json): Json {
    if key in fields then fields[key] else default
  }

  /** Python's `str()` of a decoded value, as an f-string renders it. Arrays
      and objects get a fixed marker instead of Python's `repr`. */
  function Str(j: Json): (s: string)
    ensures j.JStr? ==> s == j.s
    ensures j.JInt? ==> ParseDecimal(s) == Some(j.n) && s == IntToString(j.n)
    ensures j.JBool? ==> s == (if j.b then "True" else "False")
    ensures j.JNull? ==> s == "None"
  {
    match j
    case JNull => "None"
    case JBool(b) => if b then "True" else "False"
    case JInt(n) => IntToStringRoundTrip(n); IntToString(n)
    case JStr(s) => s
    case JArr(_) => "[...]"
    case JObj(_) => "{...}"
  }
}
