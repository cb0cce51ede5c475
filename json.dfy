/** A parsed JSON document, as `json.load` hands it to the services, together
    with the few Python operations the services apply to such values:
    truthiness, `or`, `dict.get`, `str()` and iteration over a list. */
module JsonValue {
  import opened Text

  /** JSON numbers are modelled as integers (see README, "Left out"). */
  datatype Json =
    | JNull
    | JBool(b: bool)
    | JNum(n: int)
    | JStr(s: string)
    | JArr(items: seq<Json>)
    | JObj(fields: map<string, Json>)

  const EmptyList: Json := JArr([])
  const EmptyObject: Json := JObj(map[])

  /** Python truthiness: None, False, 0, "", [] and {} are false. */
  predicate Truthy(v: Json)
  {
    match v
    case JNull => false
    case JBool(b) => b
    case JNum(n) => n != 0
    case JStr(s) => s != ""
    case JArr(a) => a != []
    case JObj(m) => m != map[]
  }

  /** Python's `a or b`: the first operand when it is truthy, else the second. */
  function Or(a: Json, b: Json): (r: Json)
    ensures Truthy(r) <==> Truthy(a) || Truthy(b)
    ensures r == a || r == b
    ensures Truthy(a) ==> r == a
  {
    if Truthy(a) then a else b
  }

  /** `obj.get(key)`: the value under `key`, or None when the key is missing.
      A value that is not an object has no keys. */
  function Get(v: Json, key: string): (r: Json)
    ensures r != JNull ==> v.JObj? && key in v.fields && v.fields[key] == r
  {
    if v.JObj? && key in v.fields then v.fields[key] else JNull
  }

  /** A field read as text: the string itself, or "" for any other value. */
  function TextOf(v: Json): (r: string)
    ensures r != "" <==> v.JStr? && v.s != ""
  {
    if v.JStr? then v.s else ""
  }

  /** Python's `str(v)` for the scalar values; containers are not rendered. */
  function Str(v: Json): string
  {
    match v
    case JNull => "None"
    case JBool(b) => if b then "True" else "False"
    case JNum(n) => IntToStr(n)
    case JStr(s) => s
    case JArr(_) => ""
    case JObj(_) => ""
  }

  /** The elements a `for x in v` loop visits when `v` is a list. */
  function Elems(v: Json): seq<Json>
  {
    if v.JArr? then v.items else []
  }
}
