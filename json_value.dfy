/**
 * Decoded JSON as the scraper sees it (plus Python `bytes`), with the few
 * Python behaviours the scraper leans on: truthiness, `dict.get` and `x[0]`,
 * and the exceptions those raise on a value of the wrong type.
 */
module JsonValue {
  import opened Wrappers

  datatype Json =
    | JNull
    | JBool(b: bool)
    | JInt(i: int)
    | JStr(s: string)
    | JBytes(bytes: seq<bv8>)
    | JList(items: seq<Json>)
    | JObj(fields: map<string, Json>)

  /** The Python exceptions a wrongly shaped value can raise in the scraper. */
  datatype PyError = AttributeError | TypeError | KeyError | IndexError | ValueError

  const EmptyObj: Json := JObj(map[])
  const EmptyStr: Json := JStr("")

  /** Python's `bool(x)`. */
  predicate Truthy(j: Json)
  {
    match j
    case JNull => false
    case JBool(b) => b
    case JInt(i) => i != 0
    case JStr(s) => s != ""
    case JBytes(b) => b != []
    case JList(items) => items != []
    case JObj(fields) => fields != map[]
  }

  /** `d.get(key, default)`: only a dict has `get`. */
  function Get(d: Json, key: string, default: Json): (r: Result<Json, PyError>)
    ensures r.Failure? <==> !d.JObj?
    ensures r.Success? && NoBytes(d) && NoBytes(default) ==> NoBytes(r.value)
  {
    match d
    case JObj(fields) => Success(if key in fields then fields[key] else default)
    case _ => Failure(AttributeError)
  }

  /** `x[0]`: a list or string gives its first element, bytes its first byte, a dict with string keys a KeyError. */
  function First(x: Json): (r: Result<Json, PyError>)
    ensures r.Success? ==> Truthy(x)
    ensures r.Success? && NoBytes(x) ==> NoBytes(r.value)
  {
    match x
    case JList(items) => if items == [] then Failure(IndexError) else Success(items[0])
    case JStr(s) => if s == "" then Failure(IndexError) else Success(JStr([s[0]]))
    case JBytes(b) => if b == [] then Failure(IndexError) else Success(JInt(b[0] as int))
    case JObj(_) => Failure(KeyError)
    case _ => Failure(TypeError)
  }

  /** No `bytes` value anywhere inside `j`. */
  predicate NoBytes(j: Json)
  {
    match j
    case JBytes(_) => false
    case JList(items) => forall k :: 0 <= k < |items| ==> NoBytes(items[k])
    case JObj(fields) => forall key :: key in fields ==> NoBytes(fields[key])
    case _ => true
  }
}
