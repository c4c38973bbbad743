/** Python's `round`: to the nearest integer, ties to the even neighbour, over exact reals. */
module Rounding {

  /** `r` is a nearest integer to `x`, and the even one when two are equally near. */
  predicate IsHalfEven(x: real, r: int) {
    && -0.5 <= x - r as real <= 0.5
    && (x - r as real == 0.5 || x - r as real == -0.5 ==> r % 2 == 0)
  }

  function HalfEven(x: real): (r: int)
    ensures IsHalfEven(x, r)
  {
    var f := x.Floor;
    var d := x - f as real;
    if d < 0.5 then f
    else if d > 0.5 then f + 1
    else if f % 2 == 0 then f else f + 1
  }

  lemma HalfEvenUnique(x: real, r: int)
    requires IsHalfEven(x, r)
    ensures r == HalfEven(x)
  {
    var q := HalfEven(x);
    assert -1.0 <= r as real - q as real <= 1.0;
    assert r == q || r == q + 1 || r == q - 1;
  }

  lemma HalfEvenMonotone(x: real, y: real)
    requires x <= y
    ensures HalfEven(x) <= HalfEven(y)
  {}

  lemma HalfEvenInteger(n: int)
    ensures HalfEven(n as real) == n
  {
    HalfEvenUnique(n as real, n);
  }

  /** Half-even rounding commutes with even shifts (it does not with odd ones: 0.5 and 1.5). */
  lemma HalfEvenEvenShift(x: real, k: int)
    ensures HalfEven(x - (2 * k) as real) == HalfEven(x) - 2 * k
  {
    var y := x - (2 * k) as real;
    var r := HalfEven(x) - 2 * k;
    assert y - r as real == x - HalfEven(x) as real;
    HalfEvenUnique(y, r);
  }
}
