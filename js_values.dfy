/**
 * The few pieces of JavaScript value semantics the caching middleware relies on:
 * optional values, and numbers that may be `undefined` or `NaN`.
 */
module JsValues {

  datatype Option<+T> = None | Some(value: T)

  datatype Result<+R, +E> = Success(value: R) | Failure(error: E)

  /** A JavaScript number; `None` stands for `undefined` and for `NaN`, which every
      use in the middleware treats alike (both are falsy and both poison arithmetic). */
  type JsNum = Option<int>

  /** JavaScript truthiness of a number: `0`, `undefined` and `NaN` are falsy. */
  predicate NumTruthy(x: JsNum)
  {
    x.Some? && x.value != 0
  }

  /** `a || b` on numbers. */
  function NumOr(a: JsNum, b: JsNum): JsNum
  {
    if NumTruthy(a) then a else b
  }

  /** `a * k` for an integer constant `k`. */
  function NumMul(a: JsNum, k: int): JsNum
  {
    match a
    case None => None
    case Some(n) => Some(n * k)
  }

  /** `a + b` on numbers. */
  function NumAdd(a: JsNum, b: JsNum): JsNum
  {
    if a.Some? && b.Some? then Some(a.value + b.value) else None
  }
}
