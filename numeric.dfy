/** Numbers of the JavaScript source, stated over exact reals: the positive
    infinity used as "no time", and the square root of the runtime library. */
module Numeric {
  import opened Wrappers

  /** A real or positive infinity. JavaScript's `Infinity` as a time bound,
      and every non-finite root (Infinity, -Infinity or NaN), is `PosInfinity`:
      none of them passes an open-interval test whose lower end is finite. */
  datatype ExtReal = Finite(value: real) | PosInfinity

  /** JavaScript's `<` between an extended real and another one. */
  predicate Less(a: ExtReal, b: ExtReal) {
    match (a, b)
    case (Finite(x), Finite(y)) => x < y
    case (Finite(_), PosInfinity) => true
    case (PosInfinity, _) => false
  }

  /** `sqrt` behaves as `Math.sqrt` on the non-negative reals. */
  ghost predicate IsSqrt(sqrt: real -> real) {
    forall x :: 0.0 <= x ==> 0.0 <= sqrt(x) && sqrt(x) * sqrt(x) == x
  }

  /** A square root of a positive number is positive. */
  lemma SqrtPositive(sqrt: real -> real, x: real)
    requires IsSqrt(sqrt)
    requires 0.0 < x
    ensures 0.0 < sqrt(x)
  {
    assert sqrt(x) * sqrt(x) == x;
  }

  /** Two non-negative numbers with the same square are equal; so the square
      root of a perfect square `y * y` is `y`. */
  lemma SqrtOfSquare(sqrt: real -> real, y: real)
    requires IsSqrt(sqrt)
    requires 0.0 <= y
    ensures sqrt(y * y) == y
  {
    var r := sqrt(y * y);
    assert 0.0 <= r && r * r == y * y;
    if r < y {
      SquareStrictlyMonotonic(r, y);
    } else if r > y {
      SquareStrictlyMonotonic(y, r);
    }
  }

  /** Squaring is strictly increasing on the non-negative reals. */
  lemma SquareStrictlyMonotonic(a: real, b: real)
    requires 0.0 <= a < b
    ensures a * a < b * b
  {
    var aa, ab, bb := a * a, a * b, b * b;
    assert aa <= ab;
    assert ab < bb;
  }

  /** JavaScript's `o || d` on an optional number: an absent value and the
      falsy number 0 both give `d`. NaN, the other falsy number, is not a
      real and does not occur here. */
  function Or(o: Option<real>, d: real): real {
    if o.None? || o.value == 0.0 then d else o.value
  }

  /** `o || d` keeps every truthy value, replaces the falsy ones, and is
      therefore never falsy itself when `d` is not. */
  lemma OrKeepsTruthy(o: Option<real>, d: real)
    ensures Or(o, d) == d <==> o.None? || o.value == 0.0 || o.value == d
    ensures o.Some? && o.value != 0.0 ==> Or(o, d) == o.value
    ensures d != 0.0 ==> Or(o, d) != 0.0
  {
  }
}
