/** Python numeric built-ins over exact reals: `int()` on a float and
    `round(x, 2)`. */
module PyNum {

  /** Python's `int()` on a float: truncation toward zero. */
  function Trunc(x: real): (n: int)
    ensures 0.0 <= x ==> n as real <= x < n as real + 1.0
    ensures x < 0.0 ==> n as real - 1.0 < x <= n as real <= 0.0
  {
    if x >= 0.0 then x.Floor else -((-x).Floor)
  }

  /** `round(x, 2)`, with halves rounded up (see README). */
  function Round2(x: real): real {
    ((x * 100.0 + 0.5).Floor as real) / 100.0
  }

  /** Rounding to two decimals moves a value by at most half a hundredth. */
  lemma Round2Close(x: real)
    ensures x - 0.005 < Round2(x) <= x + 0.005
  {
    var f := (x * 100.0 + 0.5).Floor as real;
    assert f <= x * 100.0 + 0.5 < f + 1.0;
  }

  /** Rounding never reverses an order, and a gap of a hundredth or more
      survives it. */
  lemma Round2Monotone(x: real, y: real)
    ensures x <= y ==> Round2(x) <= Round2(y)
    ensures x + 0.01 <= y ==> Round2(x) < Round2(y)
  {
    var fx := (x * 100.0 + 0.5).Floor;
    var fy := (y * 100.0 + 0.5).Floor;
    assert fx as real <= x * 100.0 + 0.5 < fx as real + 1.0;
    assert fy as real <= y * 100.0 + 0.5 < fy as real + 1.0;
    if x + 0.01 <= y {
      assert x * 100.0 + 1.0 <= y * 100.0;
      assert fx < fy;
    } else if x <= y {
      assert fx <= fy;
    }
  }
}
