/** The JavaScript values that `JSON.parse` can produce, and the two pieces of
    JavaScript semantics the reply post-processing relies on: reading a named
    property and truthiness. */
module Json {

  /** A parsed JSON document. Objects are keyed by property name; `JSON.parse`
      keeps the last of duplicated keys, so a map is enough. */
  datatype JsonValue =
    | JNull
    | JBool(b: bool)
    | JNumber(n: real)
    | JString(s: string)
    | JArray(items: seq<JsonValue>)
    | JObject(fields: map<string, JsonValue>)

  /** What `JSON.parse(text)` does: return a value or throw a `SyntaxError`
      carrying a message. */
  datatype ParseOutcome = ParseError(message: string) | Value(value: JsonValue)

  /** The outcome of evaluating `v.key`: `undefined`, a value, or a thrown
      `TypeError` with its message. */
  datatype Access = Undefined | Defined(value: JsonValue) | Throws(message: string)

  /** The `TypeError` message V8 gives for reading a property of `null`. */
  function NullPropertyMessage(key: string): string
  {
    "Cannot read " + "properties of " + "null (reading '" + key + "')"
  }

  /** Property access `v.key` on a parsed value, for keys that no built-in
      prototype defines (such as `title` and `steps`): only own properties of
      objects are found, every other non-null value yields `undefined`, and
      `null` throws. */
  function Property(v: JsonValue, key: string): (r: Access)
    ensures r.Throws? <==> v.JNull?
    ensures r.Defined? <==> v.JObject? && key in v.fields
    ensures r.Defined? ==> r.value == v.fields[key]
  {
    match v
    case JNull => Throws(NullPropertyMessage(key))
    case JObject(fields) => if key in fields then Defined(fields[key]) else Undefined
    case _ => Undefined
  }

  /** JavaScript truthiness of a JSON value: `null`, `false`, `0` (and `-0`)
      and `""` are falsy; every array and object, even an empty one, is truthy. */
  function Truthy(v: JsonValue): (r: bool)
    ensures !r <==> v == JNull || v == JBool(false) || v == JNumber(0.0) || v == JString("")
  {
    match v
    case JNull => false
    case JBool(b) => b
    case JNumber(n) => n != 0.0
    case JString(s) => s != ""
    case JArray(_) => true
    case JObject(_) => true
  }

  /** Truthiness of a property read that did not throw; `undefined` is falsy. */
  function TruthyAccess(a: Access): (r: bool)
    requires !a.Throws?
    ensures r <==> a.Defined? && a.value !in {JNull, JBool(false), JNumber(0.0), JString("")}
  {
    a.Defined? && Truthy(a.value)
  }

  /** `Array.isArray` on a property read that did not throw. */
  function IsArrayAccess(a: Access): (r: bool)
    requires !a.Throws?
    ensures r <==> exists items :: a == Defined(JArray(items))
    ensures r ==> TruthyAccess(a)
  {
    a.Defined? && a.value.JArray?
  }

}
