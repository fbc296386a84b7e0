/** The JSON values that request bodies carry, with the JavaScript conversions the handlers
    apply to them: truthiness, `String(v)` and `parseInt(v, 10)`. */
module Json {
  import opened Wrappers
  import Numbers

  /** A JSON scalar or an object; JavaScript numbers are modelled as integers. */
  datatype JsonValue =
    | JNull
    | JBool(b: bool)
    | JNumber(n: int)
    | JString(s: string)
    | JObject

  /** A parsed request body: field name to value; an absent key reads as `undefined`. */
  type JsonObject = map<string, JsonValue>

  /** JavaScript truthiness: `null`, `false`, `0` and `""` are falsy, everything else truthy. */
  predicate Truthy(v: JsonValue) {
    match v
    case JNull => false
    case JBool(b) => b
    case JNumber(n) => n != 0
    case JString(s) => s != ""
    case JObject => true
  }

  /** `body.key` is truthy; a missing key is `undefined`, which is falsy. */
  predicate FieldTruthy(body: JsonObject, key: string) {
    key in body && Truthy(body[key])
  }

  /** `String(v)`. */
  function ToJsString(v: JsonValue): string {
    match v
    case JNull => "null"
    case JBool(b) => if b then "true" else "false"
    case JNumber(n) => Numbers.IntToString(n)
    case JString(s) => s
    case JObject => "[object Object]"
  }

  /** `parseInt(v, 10)`: the value is first converted to a string; NaN is `None`. */
  function ParseIntOf(v: JsonValue): Option<int> {
    Numbers.ParseInt(ToJsString(v))
  }

  /** A number passes through `parseInt` unchanged; the other non-string values give NaN. */
  lemma ParseIntOfSpec(v: JsonValue)
    ensures v.JNumber? ==> ParseIntOf(v) == Some(v.n)
    ensures v.JNull? || v.JBool? || v.JObject? ==> ParseIntOf(v).None?
  {
    match v
    case JNumber(n) => Numbers.ParseIntToString(n);
    case JNull => Numbers.ParseIntNonNumeric("null");
    case JBool(b) => Numbers.ParseIntNonNumeric(if b then "true" else "false");
    case JObject => Numbers.ParseIntNonNumeric("[object Object]");
    case JString(_) =>
  }
}
