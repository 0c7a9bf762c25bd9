/**
 * The values `JSON.parse` produces, and JavaScript's truthiness on them.
 *
 * A property that an object does not have reads as `undefined`; the model
 * spells a property read as `Get`, which answers `None` for a missing key.
 */
module Json {
  import opened Wrappers

  /**
   * A JSON value. Numbers are reals: `JSON.parse` yields no NaN, and the
   * infinity of an overflowing literal and `-0` are not told apart from a large
   * real and `0`, which are truthy and falsy just like them.
   */
  datatype JsonValue =
    | JNull
    | JBool(b: bool)
    | JNum(n: real)
    | JString(s: string)
    | JArray(items: seq<JsonValue>)
    | JObject(fields: map<string, JsonValue>)

  /** A JavaScript object, as a map from property names to values. */
  type Fields = map<string, JsonValue>

  /** `obj.key`: the property's value, or `None` for `undefined`. */
  function Get(obj: Fields, key: string): (r: Option<JsonValue>)
    ensures r.Some? <==> key in obj
    ensures r.Some? ==> r.value == obj[key]
  {
    if key in obj then Some(obj[key]) else None
  }

  /**
   * JavaScript's ToBoolean: `null`, `false`, `0`, `""` are falsy and every
   * array and object is truthy, the empty ones included.
   */
  predicate Truthy(v: JsonValue) {
    match v
    case JNull => false
    case JBool(b) => b
    case JNum(n) => n != 0.0
    case JString(s) => s != []
    case JArray(_) => true
    case JObject(_) => true
  }

  /** ToBoolean of a property read; `undefined` (`None`) is falsy. */
  predicate TruthyRead(v: Option<JsonValue>) {
    v.Some? && Truthy(v.value)
  }

  /**
   * `obj.key || fallback`: the value read when truthy, otherwise `fallback`.
   * A truthy fallback makes the result truthy.
   */
  function Or(v: Option<JsonValue>, fallback: JsonValue): (r: JsonValue)
    ensures Truthy(fallback) ==> Truthy(r)
    ensures TruthyRead(v) ==> r == v.value
    ensures !TruthyRead(v) ==> r == fallback
  {
    if TruthyRead(v) then v.value else fallback
  }

  /** With a truthy fallback, defaulting a defaulted value again changes nothing. */
  lemma OrAbsorbs(v: Option<JsonValue>, fallback: JsonValue)
    requires Truthy(fallback)
    ensures Or(Some(Or(v, fallback)), fallback) == Or(v, fallback)
    ensures TruthyRead(Some(Or(v, fallback)))
  {
  }

  /** `Array.isArray(obj.key)`; an array is always truthy. */
  predicate IsArrayRead(v: Option<JsonValue>)
    ensures IsArrayRead(v) ==> TruthyRead(v)
  {
    v.Some? && v.value.JArray?
  }
}
