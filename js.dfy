/** The fragment of JavaScript value semantics the reducer relies on:
    `undefined`, truthiness, and the short-circuit operators `&&` and `||`,
    which return one of their operands rather than a boolean. */
module Js {
  import opened HiddenStrings

  /** A value that may be `undefined`, such as an optional payload field. */
  datatype Maybe<T> = Undefined | Defined(value: T)

  /** The JavaScript values the reducer combines: the only objects it
      meets in an `&&`/`||` expression are hidden strings. */
  datatype JsValue = Undef | Bool(b: bool) | Str(s: string) | Obj(h: HiddenString)

  /** `undefined`, `false` and `''` are falsy; every object is truthy,
      even a `HiddenString` wrapping the empty string. */
  predicate Truthy(v: JsValue) {
    match v
    case Undef => false
    case Bool(b) => b
    case Str(s) => s != ""
    case Obj(_) => true
  }

  /** `a && b` */
  function And(a: JsValue, b: JsValue): JsValue {
    if Truthy(a) then b else a
  }

  /** `a || b` */
  function Or(a: JsValue, b: JsValue): JsValue {
    if Truthy(a) then a else b
  }

  /** The `error` property of an action: `true` on a failure response,
      absent (so `undefined`) otherwise. */
  function Flag(raised: bool): JsValue {
    if raised then Bool(true) else Undef
  }

  function OfString(m: Maybe<string>): JsValue {
    match m
    case Undefined => Undef
    case Defined(s) => Str(s)
  }

  function OfBool(m: Maybe<bool>): JsValue {
    match m
    case Undefined => Undef
    case Defined(b) => Bool(b)
  }

  function OfSecret(m: Maybe<HiddenString>): JsValue {
    match m
    case Undefined => Undef
    case Defined(h) => Obj(h)
  }
}
