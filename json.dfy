/**
 * Decoded JSON values and the handful of JavaScript operations the client code
 * applies to them: optional member access `v?.key`, truthiness, `??`, `||` and
 * `String(v)`.
 */
module Json {
  import opened Wrappers
  import opened JsText

  /** A value `JSON.parse` can produce (numbers restricted to integers). */
  datatype Json =
    | JNull
    | JBool(b: bool)
    | JNum(n: int)
    | JStr(s: string)
    | JArr(items: seq<Json>)
    | JObj(fields: map<string, Json>)

  /**
   * `v?.key`: the member of an object, and `undefined` (None) for any other
   * value; none of the keys the client reads exists on a string, number or array.
   */
  function Get(v: Json, key: string): (r: Option<Json>)
    ensures r.Some? <==> v.JObj? && key in v.fields
    ensures r.Some? ==> r.value == v.fields[key]
  {
    if v.JObj? && key in v.fields then Some(v.fields[key]) else None
  }

  /** JavaScript's ToBoolean on a decoded value. */
  predicate Truthy(v: Json) {
    match v
    case JNull => false
    case JBool(b) => b
    case JNum(n) => n != 0
    case JStr(s) => s != ""
    case JArr(_) => true
    case JObj(_) => true
  }

  /** ToBoolean of a value that may be `undefined`. */
  predicate TruthyOpt(o: Option<Json>) {
    o.Some? && Truthy(o.value)
  }

  /** `null` or `undefined`, the values `??` skips. */
  predicate Nullish(o: Option<Json>) {
    o.None? || o.value.JNull?
  }

  /** `a ?? b`. */
  function Coalesce(a: Option<Json>, b: Option<Json>): (r: Option<Json>)
    ensures !Nullish(a) ==> r == a
    ensures Nullish(a) ==> r == b
  {
    if Nullish(a) then b else a
  }

  /** `a || b`. */
  function OrElse(a: Option<Json>, b: Option<Json>): (r: Option<Json>)
    ensures TruthyOpt(a) ==> r == a
    ensures !TruthyOpt(a) ==> r == b
  {
    if TruthyOpt(a) then a else b
  }

  /** `String(v)`. */
  function ToJsString(v: Json): string
    decreases v, 1
  {
    match v
    case JNull => "null"
    case JBool(b) => if b then "true" else "false"
    case JNum(n) => IntToDecimal(n)
    case JStr(s) => s
    case JArr(items) => JoinElements(items)
    case JObj(_) => "[object Object]"
  }

  /** `Array.prototype.toString`: the elements joined by ",", with `null` shown as "". */
  function JoinElements(items: seq<Json>): string
    decreases items, 0
  {
    if items == [] then ""
    else
      var first := if items[0].JNull? then "" else ToJsString(items[0]);
      if |items| == 1 then first else first + "," + JoinElements(items[1..])
  }

  /** `String(v)` of a value that may be `undefined`. */
  function ToJsStringOpt(o: Option<Json>): string {
    match o
    case None => "undefined"
    case Some(v) => ToJsString(v)
  }

  /** Every falsy value is `null`, `false`, `0` or `""`. */
  lemma FalsyValues(v: Json)
    ensures !Truthy(v) <==> v in {JNull, JBool(false), JNum(0), JStr("")}
  {
  }

  /** A truthy value can still print as "" — an empty array, or one holding only null. */
  lemma TruthyButEmptyText()
    ensures Truthy(JArr([])) && ToJsString(JArr([])) == ""
    ensures Truthy(JArr([JNull])) && ToJsString(JArr([JNull])) == ""
  {
  }
}
