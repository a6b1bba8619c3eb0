/** The JSON values that the handlers read after `JSON.parse`, with the
    JavaScript operations they apply to them: truthiness (`!x`), property
    access (`x.key`) and string conversion (a template literal). Parsing
    itself is not modelled: it is a parameter `string -> Option<Json>`. */
module Json {
  import opened Wrappers

  /** A parsed JSON value. Objects are maps: `JSON.parse` keeps the last of
      duplicate keys. */
  datatype Json =
    | JNull
    | JBool(b: bool)
    | JNumber(n: real)
    | JString(s: string)
    | JArray(items: seq<Json>)
    | JObject(fields: map<string, Json>)

  /** JavaScript truthiness; `None` stands for `undefined`. A JSON number is
      never NaN, so only zero is falsy among numbers; every array and object,
      even an empty one, is truthy. */
  predicate Truthy(v: Option<Json>)
  {
    match v
    case None => false
    case Some(JNull) => false
    case Some(JBool(b)) => b
    case Some(JNumber(n)) => n != 0.0
    case Some(JString(s)) => s != ""
    case Some(JArray(_)) => true
    case Some(JObject(_)) => true
  }

  /** `v.key` on a value that is not null: an own field of an object, and
      `undefined` otherwise (none of the keys read in this model is a
      property of strings, numbers, booleans or arrays). Reading a property
      of `null` throws; callers handle that case before calling this. */
  function Prop(v: Json, key: string): Option<Json>
    requires v != JNull
  {
    if v.JObject? && key in v.fields then Some(v.fields[key]) else None
  }

  /** `{ [key]: value }` with a single string field, as used for error bodies. */
  function Single(key: string, value: string): Json
  {
    JObject(map[key := JString(value)])
  }

  /** `String(v)`, as a template literal converts an interpolated value.
      The decimal rendering of a number is the engine's and is passed in as
      `numberText`. */
  function Text(v: Json, numberText: real -> string): string
    decreases v, 1
  {
    match v
    case JNull => "null"
    case JBool(b) => if b then "true" else "false"
    case JNumber(n) => numberText(n)
    case JString(s) => s
    case JArray(items) => Join(items, numberText)
    case JObject(_) => "[object Object]"
  }

  /** `items.join(",")`, where a null element contributes the empty string. */
  function Join(items: seq<Json>, numberText: real -> string): string
    decreases items, 0
  {
    if items == [] then ""
    else
      var head := if items[0] == JNull then "" else Text(items[0], numberText);
      if |items| == 1 then head else head + "," + Join(items[1..], numberText)
  }
}
