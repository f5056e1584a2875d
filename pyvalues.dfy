/**
  The Python values the request handlers of app.py inspect: the parsed JSON
  body (`request.get_json()`), its truthiness, the `in` test and the `[...]`
  subscript the handlers apply to it, and the exceptions they can raise.
*/
module PyValues {

  /** A JSON document as json.loads returns it (numbers as reals). */
  datatype Json =
    | JNull
    | JBool(b: bool)
    | JNumber(n: real)
    | JString(s: string)
    | JArray(items: seq<Json>)
    | JObject(fields: map<string, Json>)

  /** The exceptions the core raises or lets through. */
  datatype PyError =
    | Exception(message: string)
    | ValueError
    | TypeError
    | AttributeError
    | KeyError(key: string)

  /** Python's truth value of a JSON value: `not v` is False. */
  predicate Truthy(v: Json)
  {
    match v
    case JNull => false
    case JBool(b) => b
    case JNumber(n) => n != 0.0
    case JString(s) => s != []
    case JArray(items) => items != []
    case JObject(fields) => fields != map[]
  }

  /** `key in s` for two str values. */
  predicate IsSubstring(key: string, s: string)
  {
    exists i :: 0 <= i <= |s| && key <= s[i..]
  }

  /** How `if not data or key not in data: <400>` followed by `data[key]` ends. */
  datatype Lookup = Missing | Found(value: Json) | Raises(error: PyError)

  /**
    The field check that opens both handlers (app.py:97-102, 129-134). A falsy
    body or one whose `in` test fails is Missing. Only an object holding the key
    yields a value: `in` on a list or a str succeeds for a matching element or
    substring, after which the str subscript raises TypeError, and `in` on a
    number or a boolean raises TypeError itself.
  */
  function LookupField(data: Json, key: string): (r: Lookup)
    ensures r.Found? <==> data.JObject? && key in data.fields
    ensures r.Found? ==> r.value == data.fields[key]
    ensures !Truthy(data) ==> r.Missing?
    ensures r.Raises? ==> r.error == TypeError
    ensures Truthy(data) && (data.JNumber? || data.JBool?) ==> r.Raises?
    ensures Truthy(data) && data.JArray? ==> (r.Raises? <==> JString(key) in data.items)
    ensures Truthy(data) && data.JString? ==> (r.Raises? <==> IsSubstring(key, data.s))
    ensures data.JObject? || data.JNull? ==> !r.Raises?
  {
    if !Truthy(data) then Missing
    else
      match data
      case JObject(fields) => if key in fields then Found(fields[key]) else Missing
      case JArray(items) => if JString(key) in items then Raises(TypeError) else Missing
      case JString(s) => if IsSubstring(key, s) then Raises(TypeError) else Missing
      case _ => Raises(TypeError)
  }
}
