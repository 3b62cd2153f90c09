/**
 * The few JavaScript value semantics the scraper relies on: what counts as
 * falsy, what `a || b` evaluates to, and what `/` yields on numbers.
 * Numbers are exact reals plus the three non-finite values; rounding and the
 * sign of zero are not modelled.
 */
module Js {

  /** A JavaScript number: a finite value, one of the two infinities, or NaN. */
  datatype Number = Finite(value: real) | PosInfinity | NegInfinity | NaN

  /** A loosely typed field of a raw record, as it arrives from parsed JSON. */
  datatype JsValue =
    | Undefined
    | Null
    | Bool(b: bool)
    | Num(n: Number)
    | Str(s: string)
    | Obj  // any object or array; always truthy, its contents are not inspected

  /** ECMAScript ToBoolean: undefined, null, false, 0, NaN and "" are falsy. */
  predicate Falsy(v: JsValue)
  {
    match v
    case Undefined => true
    case Null => true
    case Bool(b) => !b
    case Num(n) => n == Finite(0.0) || n == NaN
    case Str(s) => s == ""
    case Obj => false
  }

  predicate Truthy(v: JsValue)
  {
    !Falsy(v)
  }

  /** `a || b`: the left operand itself when it is truthy, otherwise the right operand. */
  function Or(a: JsValue, b: JsValue): (r: JsValue)
    ensures Truthy(a) ==> r == a
    ensures Falsy(a) ==> r == b
    ensures Truthy(r) <== Truthy(b)
  {
    if Truthy(a) then a else b
  }

  /**
   * `a / b` on numbers. A nonzero divisor gives the exact quotient; a zero
   * divisor gives an infinity of the dividend's sign, or NaN for 0 / 0.
   */
  function Divide(a: real, b: real): (q: Number)
    ensures b != 0.0 ==> q.Finite? && q.value * b == a
    ensures b == 0.0 ==> !q.Finite?
    ensures b == 0.0 ==> (q == NaN <==> a == 0.0)
  {
    if b != 0.0 then Finite(a / b)
    else if a > 0.0 then PosInfinity
    else if a < 0.0 then NegInfinity
    else NaN
  }
}
