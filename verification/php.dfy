/** The few pieces of PHP value semantics that GetDiscounts relies on. */
module Php {

  /** A PHP value that may be null. */
  datatype Option<+T> = None | Some(value: T)

  /** PHP truthiness of a nullable string, as tested by `!$x` and `$x ?: $y`:
      null, "" and "0" are falsy, every other string is truthy. */
  predicate StringTruthy(s: Option<string>)
  {
    s.Some? && s.value != "" && s.value != "0"
  }

  /** PHP truthiness of a nullable integer: null and 0 are falsy. */
  predicate IntTruthy(n: Option<int>)
  {
    n.Some? && n.value != 0
  }

  /** The `(int)` cast of a nullable integer: null becomes 0, an integer stays itself. */
  function IntCast(n: Option<int>): (r: int)
    ensures r != 0 <==> IntTruthy(n)
    ensures IntTruthy(n) ==> r == n.value
  {
    if n.Some? then n.value else 0
  }
}
