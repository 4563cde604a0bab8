/**
 * Values produced by `JSON.parse`, and the JavaScript operations the
 * structured-data extractor applies to them: truthiness, `||`, property
 * reads and `String(v)`.
 */
module Json {
  import opened Wrappers
  import opened JsText
  import opened Runtime

  /** A parsed JSON value. Numbers are integers in this model. */
  datatype Json =
    | JNull
    | JBool(b: bool)
    | JNum(n: int)
    | JStr(s: string)
    | JArr(items: seq<Json>)
    | JObj(fields: map<string, Json>)

  /** JavaScript truthiness of a value. */
  predicate Truthy(v: Json) {
    match v
    case JNull => false
    case JBool(b) => b
    case JNum(n) => n != 0
    case JStr(s) => s != ""
    case JArr(_) => true
    case JObj(_) => true
  }

  /** A property value that is neither `undefined` nor falsy. */
  predicate Present(v: Option<Json>) {
    v.Some? && Truthy(v.value)
  }

  /** `a || b`, where `a` may be `undefined`. */
  function Or(a: Option<Json>, b: Json): (r: Json)
    ensures Present(a) ==> r == a.value
    ensures !Present(a) ==> r == b
  {
    if Present(a) then a.value else b
  }

  /** `v?.[key]` for a non-null value: an object's own property, `undefined` on every other value. */
  function Field(v: Json, key: string): Option<Json> {
    if v.JObj? && key in v.fields then Some(v.fields[key]) else None
  }

  /** `v[key]`: throws when `v` is null, otherwise as `Field`. */
  function Member(v: Json, key: string): (r: Outcome<Option<Json>>)
    ensures r.Threw? <==> v == JNull
    ensures r.Threw? ==> Message(r.fault) == "Cannot read properties of null (reading '" + key + "')"
    ensures r.Returned? ==> r.value == Field(v, key)
  {
    if v == JNull then Threw(NullMemberRead(key)) else Returned(Field(v, key))
  }

  /** `String(v)`: arrays are joined with commas, with `null` elements written as empty text. */
  function Stringify(v: Json): string
    decreases v
  {
    match v
    case JNull => "null"
    case JBool(b) => if b then "true" else "false"
    case JNum(n) => IntToString(n)
    case JStr(s) => s
    case JArr(items) =>
      Join(seq(|items|, i requires 0 <= i < |items| =>
                 if items[i] == JNull then "" else Stringify(items[i])), ",")
    case JObj(_) => "[object Object]"
  }
}
