/** The few JavaScript value rules the notes app depends on: truthiness,
    and what a `catch` clause can receive. */
module Js {
  import opened Wrappers

  /** A JavaScript value, as far as truthiness and `typeof` tell values apart.
      Objects and arrays are opaque; numbers are reals, with NaN apart. */
  datatype Value =
    | Undefined
    | Null
    | Bool(b: bool)
    | Number(n: real)
    | NaN
    | Str(s: string)
    | Object
    | Array

  /** JavaScript truthiness: `false`, `0`, `NaN`, `""`, `null` and
      `undefined` are falsy, every other value is truthy. */
  predicate Truthy(v: Value) {
    match v
    case Undefined => false
    case Null => false
    case Bool(b) => b
    case Number(n) => n != 0.0
    case NaN => false
    case Str(s) => s != ""
    case Object => true
    case Array => true
  }

  /** The value a rejected promise or a `throw` hands to `catch`: either an
      `Error` instance (so `instanceof Error` holds) with its message, or
      some other value (such as a plain store error object) which may carry
      a string `message` property. */
  datatype Thrown =
    | ErrorInstance(message: string)
    | OtherValue(messageProperty: Option<string>)

  /** `m || fallback` for a string `m`. */
  function OrElse(m: string, fallback: string): (r: string)
    ensures m != "" ==> r == m
    ensures m == "" ==> r == fallback
    ensures fallback != "" ==> r != ""
  {
    if m != "" then m else fallback
  }

  /** An optional string kept only when truthy: `v || undefined`, and the
      test of `v && ...`. A present non-empty string is kept as it is;
      an empty one counts as absent. */
  function TruthyOrAbsent(v: Option<string>): (r: Option<string>)
    ensures r.Some? <==> v.Some? && v.value != ""
    ensures r.Some? ==> r == v
  {
    if v.Some? && v.value != "" then v else None
  }
}
