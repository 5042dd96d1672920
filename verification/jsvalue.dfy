/**
 * The dynamically typed values the storage layer receives: everything
 * `JSON.parse` can produce, and JavaScript's truthiness over them.
 */
module JsValue {
  import opened Wrappers

  /** A parsed JSON value. An object is a finite map from keys to values. */
  datatype Json =
    | JNull
    | JBool(b: bool)
    | JNum(n: real)
    | JStr(s: string)
    | JArr(items: seq<Json>)
    | JObj(fields: map<string, Json>)

  /** JavaScript truthiness (ToBoolean) of a value: null, false, 0 and "" are falsy,
      arrays and objects are always truthy. JSON cannot produce NaN. */
  predicate Truthy(v: Json) {
    match v
    case JNull => false
    case JBool(b) => b
    case JNum(n) => n != 0.0
    case JStr(s) => s != ""
    case JArr(_) => true
    case JObj(_) => true
  }

  /** Truthiness of a property read, where None is `undefined` (falsy). */
  predicate TruthyProp(p: Option<Json>) {
    p.Some? && Truthy(p.value)
  }

  /** The JavaScript type test for "object", which holds of null, arrays and objects. */
  predicate TypeofObject(v: Json) {
    v.JNull? || v.JArr? || v.JObj?
  }

  /** The property read `v[key]` for the record keys the storage layer reads.
      Only objects carry such properties; on anything else the read is `undefined`. */
  function Prop(v: Json, key: string): Option<Json> {
    if v.JObj? && key in v.fields then Some(v.fields[key]) else None
  }
}
