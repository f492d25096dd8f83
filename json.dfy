/**
 * JSON values as the JavaScript code receives them (a parsed request body,
 * a record returned by the API), with the few operators the core applies.
 */
module Json {
  import opened Wrappers

  datatype Json =
    | JNull
    | JBool(b: bool)
    | JNum(n: real)
    | JStr(s: string)
    | JArr(items: seq<Json>)
    | JObj(fields: map<string, Json>)

  /** `typeof v === 'object' && v !== null`: arrays are objects too. */
  predicate IsObject(v: Json)
  {
    v.JArr? || v.JObj?
  }

  /**
   * `v.hasOwnProperty(k)` for the property names the core asks about; none of
   * them is an array index or `length`, so only a plain object can own one.
   */
  predicate HasOwn(v: Json, k: string)
  {
    v.JObj? && k in v.fields
  }

  /** `v[k]` on an object or array, `None` standing for `undefined`. */
  function Get(v: Json, k: string): Option<Json>
    requires IsObject(v)
  {
    if HasOwn(v, k) then Some(v.fields[k]) else None
  }

  /** A record held by a frontend store: its `_id` and the rest of its fields. */
  datatype Doc = Doc(id: string, fields: map<string, Json>)

  /** The `_id` of a record, the key the stores search by. */
  function IdOf(d: Doc): string
  {
    d.id
  }
}
