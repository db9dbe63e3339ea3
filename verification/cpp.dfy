/** The two C++ arithmetic conversions the widget code depends on, written
    out because Dafny's own operators behave differently on negative values. */
module Cpp {

  /** `static_cast<int>(x)` for a `double` in range: rounds toward zero. */
  function Trunc(x: real): (r: int)
    ensures 0.0 <= x ==> r as real <= x < r as real + 1.0
    ensures x < 0.0 ==> r as real - 1.0 < x <= r as real
  {
    if x >= 0.0 then x.Floor else -((-x).Floor)
  }

  /** Truncation is monotone. */
  lemma TruncMonotone(x: real, y: real)
    requires x <= y
    ensures Trunc(x) <= Trunc(y)
  {
    if 0.0 <= x {
      assert Trunc(x) as real <= x <= y < Trunc(y) as real + 1.0;
    } else if y < 0.0 {
      assert Trunc(x) as real - 1.0 < x <= y <= Trunc(y) as real;
    }
  }

  /** `static_cast<int>(a * ratio)`. */
  function TruncScaled(a: real, ratio: real): int
  {
    Trunc(a * ratio)
  }

  /** Truncating a non-negative scale of an ordered pair keeps the order. */
  lemma TruncScaleMonotone(a: real, r1: real, r2: real)
    requires a >= 0.0 && r1 <= r2
    ensures TruncScaled(a, r1) <= TruncScaled(a, r2)
  {
    ScaleDifference(a, r1, r2);
    TruncMonotone(a * r1, a * r2);
  }

  lemma ScaleDifference(a: real, r1: real, r2: real)
    requires a >= 0.0 && r1 <= r2
    ensures a * r1 <= a * r2
  {
    var d := r2 - r1;
    assert a * r2 == a * r1 + a * d;
    assert a * d >= 0.0;
  }

  /** C++ `a / 2` on `int`: the quotient is rounded toward zero, so the
      remainder takes the sign of `a`. */
  function Half(a: int): (q: int)
    ensures 0 <= a ==> 0 <= 2 * q <= a < 2 * q + 2
    ensures a < 0 ==> a <= 2 * q < a + 2 && q <= 0
  {
    if a >= 0 then a / 2 else -((-a) / 2)
  }
}
