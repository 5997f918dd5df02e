/**
 * PHP scalars as the criteria and the component see them: a number is
 * either an integer or a float, and the two are told apart by a type test
 * (`is_float`), never by their value. Floats are represented by exact
 * reals and nothing computes with them beyond the casts below.
 */
module PhpNumbers {

  datatype Num = IntNum(i: int) | FloatNum(x: real)

  /** The `(int)` cast: an integer stays as it is, a float is truncated
      toward zero. */
  function IntCast(n: Num): (r: int)
    ensures n.IntNum? ==> r == n.i
    ensures n.FloatNum? && n.x >= 0.0 ==> r >= 0 && r as real <= n.x < r as real + 1.0
    ensures n.FloatNum? && n.x < 0.0 ==> r <= 0 && r as real - 1.0 < n.x <= r as real
  {
    match n
    case IntNum(i) => i
    case FloatNum(x) => if x >= 0.0 then x.Floor else -((-x).Floor)
  }

  /** The `(float)` cast: a float stays as it is, and an integer becomes a
      whole float that `(int)` turns back into the same integer. */
  function FloatCast(n: Num): (r: real)
    ensures n.FloatNum? ==> r == n.x
    ensures n.IntNum? ==> r == r.Floor as real
    ensures IntCast(FloatNum(r)) == IntCast(n)
  {
    match n
    case IntNum(i) => i as real
    case FloatNum(x) => x
  }
}
