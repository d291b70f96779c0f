/**
 * The few JavaScript notions the core relies on: optional values, results,
 * the values `JSON.parse` can produce, and ToBoolean ("truthiness").
 */
module Js {

  /** A value that may be `undefined`: `None` is the absent value. */
  datatype Option<+T> = None | Some(value: T)

  /** A computation that either returns a value or throws an error. */
  datatype Result<+T, +E> = Ok(value: T) | Err(error: E)

  /**
   * A value produced by `JSON.parse`. Numbers are reals: JSON text cannot
   * denote NaN, and the overflow of a huge literal to Infinity is not modelled.
   * An object is a map from keys to values (a repeated key keeps its last value).
   */
  datatype Json =
    | JNull
    | JBool(b: bool)
    | JNum(n: real)
    | JStr(s: string)
    | JArr(items: seq<Json>)
    | JObj(fields: map<string, Json>)

  /** JavaScript ToBoolean of a JSON value: null, false, 0 and "" are falsy; arrays and objects are truthy even when empty. */
  predicate Truthy(v: Json)
  {
    match v
    case JNull => false
    case JBool(b) => b
    case JNum(n) => n != 0.0
    case JStr(s) => s != ""
    case JArr(_) => true
    case JObj(_) => true
  }

  /** ToBoolean of a property that may be undefined. */
  predicate Present(o: Option<Json>)
  {
    o.Some? && Truthy(o.value)
  }

  /** ToBoolean of an optional string: false for undefined and for "". */
  predicate StringTruthy(o: Option<string>)
  {
    o.Some? && o.value != ""
  }

  /**
   * The property read `v.key` on a value that is not null: an own property of
   * an object, or undefined (no JSON value other than an object has a property
   * called by the names this core reads).
   */
  function Get(v: Json, key: string): Option<Json>
  {
    if v.JObj? && key in v.fields then Some(v.fields[key]) else None
  }
}
