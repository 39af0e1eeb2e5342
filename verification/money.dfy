/** Money is a real number of dollars; amounts shown or stored are rounded to cents. */
module Money {

  /** Rounding to two decimals, half-up on the exact value (the source's `round(x, 2)` and `toFixed(2)`). */
  function Round2(x: real): (r: real)
    ensures x - 0.005 < r <= x + 0.005
  {
    (x * 100.0 + 0.5).Floor as real / 100.0
  }

  function MaxReal(a: real, b: real): (r: real)
    ensures r >= a && r >= b && (r == a || r == b)
  {
    if a >= b then a else b
  }

  function MinReal(a: real, b: real): (r: real)
    ensures r <= a && r <= b && (r == a || r == b)
  {
    if a <= b then a else b
  }

  /** Multiplying by a non-negative amount keeps order. */
  lemma ScaleMonotone(d: real, a: real, b: real)
    requires d >= 0.0 && a <= b
    ensures d * a <= d * b
  {
    assert d * b - d * a == d * (b - a);
  }

  /** Order survives dividing out the 30-day month. */
  lemma UnscaleMonotone(a: real, b: real)
    requires a * 30.0 <= b * 30.0
    ensures a <= b
  {
  }

  /** Rounding never reverses an order. */
  lemma Round2Monotone(x: real, y: real)
    requires x <= y
    ensures Round2(x) <= Round2(y)
  {
    var a, b := x * 100.0 + 0.5, y * 100.0 + 0.5;
    assert a <= b;
    FloorMonotone(a, b);
  }

  lemma FloorMonotone(a: real, b: real)
    requires a <= b
    ensures a.Floor <= b.Floor
  {
    assert a.Floor as real <= a;
    assert b < b.Floor as real + 1.0;
  }

  /** An amount already in whole cents is left as it is. */
  lemma Round2Cents(cents: int)
    ensures Round2(cents as real / 100.0) == cents as real / 100.0
  {
    var x := cents as real / 100.0;
    assert x * 100.0 + 0.5 == cents as real + 0.5;
    assert (x * 100.0 + 0.5).Floor == cents;
  }

  /** Rounding an amount a second time changes nothing. */
  lemma Round2Idempotent(x: real)
    ensures Round2(Round2(x)) == Round2(x)
  {
    Round2Cents((x * 100.0 + 0.5).Floor);
  }

  /** Rounding keeps non-negative amounts non-negative. */
  lemma Round2NonNegative(x: real)
    requires x >= 0.0
    ensures Round2(x) >= 0.0
  {
    Round2Monotone(0.0, x);
    Round2Cents(0);
  }
}
