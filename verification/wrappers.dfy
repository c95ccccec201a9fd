/** Optional values and the few JavaScript value rules the portfolio's
    TypeScript relies on: `||` over optional strings and numbers, and the
    truncating `%` operator. */
module Wrappers {

  /** An optional value: JavaScript's `undefined` and `null` are `None`. */
  datatype Option<+T> = None | Some(value: T) {
    function GetOr(default: T): T {
      match this
      case Some(v) => v
      case None => default
    }
  }

  /** JavaScript truthiness of an optional string: `undefined` and the
      empty string are falsy, every other string is truthy. */
  predicate TruthyString(s: Option<string>) {
    s.Some? && s.value != ""
  }

  /** `a || b` where both sides are optional strings. */
  function OrString(a: Option<string>, b: Option<string>): (r: Option<string>)
    ensures TruthyString(a) ==> r == a
    ensures !TruthyString(a) ==> r == b
  {
    if TruthyString(a) then a else b
  }

  /** `a || b` where `a` is an optional string and `b` a string literal. */
  function OrDefault(a: Option<string>, b: string): (r: string)
    ensures TruthyString(a) ==> r == a.value
    ensures !TruthyString(a) ==> r == b
  {
    if TruthyString(a) then a.value else b
  }

  /** `a || 0` for an optional number: `undefined` and `0` are falsy
      (NaN is not modelled). */
  function OrZero(a: Option<real>): (r: real)
    ensures r == a.GetOr(0.0)
    ensures a.None? ==> r == 0.0
  {
    if a.Some? && a.value != 0.0 then a.value else 0.0
  }

  /** JavaScript's `n % 2`: the remainder takes the sign of the dividend
      (truncating division), unlike Dafny's Euclidean `%`. */
  function JsRemTwo(n: int): (r: int)
    ensures r == 0 <==> n % 2 == 0
    ensures n >= 0 ==> r == 0 || r == 1
    ensures n < 0 ==> r == 0 || r == -1
  {
    if n >= 0 then n % 2 else -((-n) % 2)
  }
}
