/** The JavaScript values a parsed description file can hold, and the
    operators the normalisation code applies to them: truthiness, property
    access, optional chaining, `||` and `??`. */
module JsValues {
  import opened Wrappers

  /** A value produced by `JSON.parse`. Duplicate keys in an object keep the
      last occurrence, so an object is a map from key to value. */
  datatype Json =
    | Null
    | Bool(b: bool)
    | Num(n: real)
    | Str(s: string)
    | Arr(items: seq<Json>)
    | Obj(fields: map<string, Json>)

  /** JavaScript truthiness of a present value: `null`, `false`, `0` and `''`
      are falsy (JSON has no NaN), every other value is truthy. */
  predicate Truthy(v: Json) {
    match v
    case Null => false
    case Bool(b) => b
    case Num(n) => n != 0.0
    case Str(s) => s != ""
    case Arr(_) => true
    case Obj(_) => true
  }

  /** Truthiness of a value that may be `undefined`. */
  predicate Present(v: Option<Json>) {
    v.Some? && Truthy(v.value)
  }

  /** `null` or `undefined`, the values `??` and `?.` treat as missing. */
  predicate Nullish(v: Option<Json>) {
    v.None? || v.value == Null
  }

  /** `v.key` on a non-null value. None of the keys read by the normalisation
      code is an inherited property of objects, arrays, strings, numbers or
      booleans, so only an object's own key yields a value. Reading a property
      of `null` throws; callers rule that case out. */
  function Get(v: Json, key: string): (r: Option<Json>)
    requires v != Null
  {
    if v.Obj? && key in v.fields then Some(v.fields[key]) else None
  }

  /** `v?.key`: `undefined` when `v` is nullish, otherwise `v.key`. */
  function Chain(v: Option<Json>, key: string): (r: Option<Json>)
  {
    if Nullish(v) then None else Get(v.value, key)
  }

  /** `a || b`: `a` when it is truthy, otherwise `b`. */
  function Or(a: Option<Json>, b: Json): (r: Json)
  {
    if Present(a) then a.value else b
  }

  /** `a ?? b`: `a` unless it is `null` or `undefined`, otherwise `b`. */
  function Coalesce(a: Option<Json>, b: Option<Json>): (r: Option<Json>)
  {
    if Nullish(a) then b else a
  }
}
