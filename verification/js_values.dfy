/** The values `JSON.parse` can produce, with JavaScript's truthiness and
    property reads on them. Numbers are kept as reals. The decoders are
    parameters of the model, so a number literal that overflows to an
    infinity, or a NaN that Python's decoder accepts, stands for some real
    with the same truthiness (both are truthy). */
module JsValues {
  import opened Options

  datatype Json =
    | JNull
    | JBool(b: bool)
    | JNum(n: real)
    | JStr(s: string)
    | JArr(items: seq<Json>)
    | JObj(fields: map<string, Json>)

  /** JavaScript's `!!v`: null, false, 0 and the empty string are falsy;
      every array and object is truthy. */
  predicate Truthy(v: Json) {
    match v
    case JNull => false
    case JBool(b) => b
    case JNum(n) => n != 0.0
    case JStr(s) => s != ""
    case JArr(_) => true
    case JObj(_) => true
  }

  /** Reading property `key` of a decoded value: an own field of an object,
      and `undefined` (None) for a missing field or a non-object. Reading a
      property of null throws in JavaScript; every caller in the model
      treats that exactly like `undefined`. */
  function Prop(v: Json, key: string): (r: Option<Json>)
    ensures r.Some? <==> v.JObj? && key in v.fields
  {
    if v.JObj? && key in v.fields then Some(v.fields[key]) else None
  }

  /** Truthiness of a property read, `undefined` being falsy. */
  predicate TruthyProp(p: Option<Json>) {
    p.Some? && Truthy(p.value)
  }
}
