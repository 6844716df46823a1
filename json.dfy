/**
 * The JSON values the AI responses and the request bodies are made of, and
 * JavaScript's truthiness on them. `JSON.parse` itself is not modelled: it
 * appears as a function parameter wherever the code calls it.
 */
module Json {
  import opened Common

  datatype Json =
    | JNull
    | JBool(b: bool)
    | JNum(n: int)
    | JStr(s: string)
    | JArr(items: seq<Json>)
    | JObj(fields: map<string, Json>)

  /** `obj[key]`: `None` stands for `undefined`. Only objects have named fields. */
  function Get(v: Json, key: string): (r: Option<Json>)
    ensures r.Some? <==> v.JObj? && key in v.fields
  {
    if v.JObj? && key in v.fields then Some(v.fields[key]) else None
  }

  /** JavaScript truthiness; `undefined` is falsy. */
  predicate Truthy(v: Option<Json>) {
    match v
    case None => false
    case Some(JNull) => false
    case Some(JBool(b)) => b
    case Some(JNum(n)) => n != 0
    case Some(JStr(s)) => s != ""
    case Some(JArr(_)) => true
    case Some(JObj(_)) => true
  }

  /** `Array.isArray(v)`. */
  predicate IsArray(v: Option<Json>) {
    v.Some? && v.value.JArr?
  }

  /** `obj.key = value` on an object. */
  function Set(v: Json, key: string, value: Json): (r: Json)
    requires v.JObj?
    ensures r.JObj? && r.fields == v.fields[key := value]
  {
    JObj(v.fields[key := value])
  }
}
