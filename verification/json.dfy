/** A parsed JSON document, as a Python handler sees the result of `request.json()`. */
module JsonValue {

  import opened Common

  /** Numbers carry the exact value Python holds (an `int`, or the exact value of a `float`). */
  datatype Json =
    | JNull
    | JBool(b: bool)
    | JNum(n: real)
    | JStr(s: string)
    | JArr(items: seq<Json>)
    | JObj(fields: map<string, Json>)

  /** `j[k]` on a JSON value: None wherever Python raises KeyError or TypeError. */
  function Field(j: Json, k: string): (r: Option<Json>)
    ensures r.Some? <==> j.JObj? && k in j.fields
  {
    if j.JObj? && k in j.fields then Some(j.fields[k]) else None
  }
}
