/**
 * JSON values as the gateway sees them after `JSON.parse`, with JavaScript's property access
 * and truthiness. A number is kept as the text `String(n)` gives it, so 1e999 is `"Infinity"`.
 */
module Json {
  import opened Common

  datatype Json =
    | Null
    | Bool(b: bool)
    | Num(repr: string)
    | Str(s: string)
    | Arr(items: seq<Json>)
    | Obj(fields: map<string, Json>)

  /**
   * `v[key]`: `None` is `undefined`. Reading a property of `null` throws, so every caller has to
   * prove that it does not. None of the keys the gateway reads exists on arrays or scalars.
   */
  function Prop(v: Json, key: string): Option<Json>
    requires !v.Null?
  {
    if v.Obj? && key in v.fields then Some(v.fields[key]) else None
  }

  /** `!!v` for a value that may be `undefined`. */
  predicate Truthy(v: Option<Json>)
  {
    match v
    case None => false
    case Some(Null) => false
    case Some(Bool(b)) => b
    case Some(Num(r)) => r != "0" && r != "NaN"
    case Some(Str(s)) => s != ""
    case Some(_) => true
  }

  /** `typeof v === 'string' && v.length > 0`. */
  function NonEmptyText(v: Option<Json>): Option<string>
  {
    if v.Some? && v.value.Str? && v.value.s != "" then Some(v.value.s) else None
  }

  /** `typeof v === 'number' && Number.isFinite(v)`, as the text of the number. */
  function FiniteNumber(v: Option<Json>): Option<string>
  {
    if v.Some? && v.value.Num? && v.value.repr !in {"Infinity", "-Infinity", "NaN"}
    then Some(v.value.repr) else None
  }

  function AsArray(v: Option<Json>): Option<seq<Json>>
  {
    if v.Some? && v.value.Arr? then Some(v.value.items) else None
  }
}
