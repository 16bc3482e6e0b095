/**
 * The value types of the schema (src/integrations/supabase/types.ts): the `Json`
 * union and the `device_type` enum, together with the three JavaScript idioms the
 * core applies to such values: truthiness (`!x`), nullish coalescing (`x ?? d`)
 * and property reads (`x.key`, `x?.key`).
 */
module Types {
  import opened Wrappers

  /** A JSON value. Numbers are exact rationals here (see README, Left out). */
  datatype Json =
    | JNull
    | JBool(b: bool)
    | JNumber(n: real)
    | JString(s: string)
    | JArray(items: seq<Json>)
    | JObject(fields: map<string, Json>)

  /** The six device kinds of the `device_type` enum. */
  datatype DeviceType = Light | Fan | Ac | Curtain | Geyser | Sensor

  /** The literal `{}`. */
  const EmptyObject: Json := JObject(map[])

  /** Reading `v.key` (or `v?.key`) on a parsed JSON value: only an object has the
      keys this core reads; every other value yields `undefined` (None). */
  function Field(v: Json, key: string): Option<Json> {
    if v.JObject? && key in v.fields then Some(v.fields[key]) else None
  }

  /** JavaScript truthiness of a possibly undefined JSON value: `undefined`,
      `null`, `false`, `0` and `""` are falsy, everything else (including `[]`
      and `{}`) is truthy. */
  predicate Truthy(v: Option<Json>) {
    match v
    case None => false
    case Some(JNull) => false
    case Some(JBool(b)) => b
    case Some(JNumber(n)) => n != 0.0
    case Some(JString(s)) => s != ""
    case Some(JArray(_)) => true
    case Some(JObject(_)) => true
  }

  /** `undefined` or `null`: the values `??` replaces. */
  predicate Nullish(v: Option<Json>) {
    v.None? || v.value.JNull?
  }

  /** `v ?? d`. */
  function OrElse(v: Option<Json>, d: Json): (r: Json)
    ensures Nullish(v) ==> r == d
    ensures !Nullish(v) ==> Some(r) == v
  {
    if Nullish(v) then d else v.value
  }

  /** Truthiness of an optional string (a string value or `undefined`/`null`). */
  predicate Present(s: Option<string>) {
    s.Some? && s.value != ""
  }
}
