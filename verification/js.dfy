/** Values of the JavaScript runtime that the handlers inspect: optional values,
    the primitive values a request or a row can carry, truthiness, and the
    exceptions a handler's `try` block can end with. */
module Js {

  /** `None` stands for `undefined` (an absent property). */
  datatype Option<+T> = None | Some(value: T)

  /** A JavaScript value as far as the handlers look at it. Numbers are
      integers here (no NaN, no fractions); `Object` is any non-null object,
      which is always truthy. */
  datatype JsValue =
    | Undefined
    | Null
    | Bool(b: bool)
    | Num(n: int)
    | Str(s: string)
    | Object

  /** JavaScript truthiness: `undefined`, `null`, `false`, `0` and `""` are falsy. */
  predicate Truthy(v: JsValue)
  {
    match v
    case Undefined => false
    case Null => false
    case Bool(b) => b
    case Num(n) => n != 0
    case Str(s) => |s| > 0
    case Object => true
  }

  /** Property read `obj[name]` on a plain object: a missing key reads as `undefined`. */
  function Get(obj: map<string, JsValue>, name: string): JsValue
  {
    if name in obj then obj[name] else Undefined
  }

  /** The error object the PostgreSQL driver rejects with: its `constraint`
      property (absent unless a constraint was violated) and its own `error`
      property (normally absent). */
  datatype DbError = DbError(constraint: Option<string>, errorProp: JsValue)

  /** What a `try` block can throw: a TypeError from reading a property of
      `undefined`, a rejected query, or a failure inside a foreign library. */
  datatype Exception =
    | TypeError
    | QueryFailure(error: DbError)
    | LibraryFailure

  /** How a call finished: with a value or by throwing. */
  datatype Completion<+T> = Normal(value: T) | Threw(exc: Exception)
}
