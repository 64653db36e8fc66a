/**
 * The JavaScript values that JSON.parse produces, and the few language operations the
 * model applies to them: optional property access, String(x) and truthiness.
 */
module JsonValue {
  import opened Strings

  datatype Json =
    | JNull                          // null; also what reading a missing property yields
    | JBool(b: bool)
    | JNum(repr: string)             // a number, held as the text String(n) renders
    | JStr(s: string)
    | JArr(items: seq<Json>)
    | JObj(fields: map<string, Json>)

  /**
   * `v?.key`: the property of an object, or JNull (standing for undefined) when the key is
   * missing or `v` is not an object. The keys read by the model are never properties that
   * arrays, strings or Object.prototype carry.
   */
  function Get(v: Json, key: string): (r: Json)
    ensures r != JNull ==> v.JObj? && key in v.fields && r == v.fields[key]
  {
    if v.JObj? && key in v.fields then v.fields[key] else JNull
  }

  /** `String(v)`; an array renders as its elements joined by ",", a null element as "". */
  function ToJsString(v: Json): string
    decreases v
  {
    match v
    case JNull => "null"
    case JBool(b) => if b then "true" else "false"
    case JNum(r) => r
    case JStr(s) => s
    case JArr(items) =>
      Join(seq(|items|, i requires 0 <= i < |items| => if items[i].JNull? then "" else ToJsString(items[i])), ",")
    case JObj(_) => "[object Object]"
  }

  /** JavaScript truthiness: false, 0, -0, NaN, "" and null are falsy. */
  predicate Truthy(v: Json) {
    match v
    case JNull => false
    case JBool(b) => b
    case JNum(r) => r != "0" && r != "-0" && r != "NaN"
    case JStr(s) => s != ""
    case _ => true
  }
}
