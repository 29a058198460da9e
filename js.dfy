/** The few JavaScript values a handler inspects with `!x`, and the truthiness rule for them. */
module Js {
  /**
   * A JavaScript value as far as truthiness is concerned. Objects are opaque and
   * identified by a reference, so "returned verbatim" means the same `Obj`.
   * NaN is not represented (numbers are integers here).
   */
  datatype JsValue =
    | Undefined
    | Null
    | Bool(b: bool)
    | Num(n: int)
    | Str(s: string)
    | Obj(ref: nat)

  /** ECMAScript ToBoolean: undefined, null, false, 0 and "" are falsy. */
  predicate Truthy(v: JsValue)
  {
    match v
    case Undefined => false
    case Null => false
    case Bool(b) => b
    case Num(n) => n != 0
    case Str(s) => s != ""
    case Obj(_) => true
  }
}
