/** Python's round(x, 2), applied to an exact value rather than to an IEEE double. */
module Rounding {

  /** The multiple of 0.01 nearest to x; a value exactly half-way between two
      multiples goes to the one whose hundredths count is even (round-half-even). */
  function Round2(x: real): (r: real)
    ensures (r * 100.0).Floor as real == r * 100.0
    ensures x - 0.005 <= r <= x + 0.005
  {
    var n := x * 100.0;
    var f := n.Floor;
    var frac := n - f as real;
    var k := if frac < 0.5 then f
             else if frac > 0.5 then f + 1
             else if f % 2 == 0 then f else f + 1;
    k as real / 100.0
  }

  /** Rounding never reverses the order of two values. */
  lemma Round2Monotone(x: real, y: real)
    requires x <= y
    ensures Round2(x) <= Round2(y)
  {
    var fx, fy := (x * 100.0).Floor, (y * 100.0).Floor;
    assert fx <= fy;
    if fx < fy {
      assert Round2(x) * 100.0 <= (fx + 1) as real;
      assert (fy as real) <= Round2(y) * 100.0;
    }
  }

  /** A value that already has at most two decimals is left unchanged. */
  lemma Round2Exact(k: int)
    ensures Round2(k as real / 100.0) == k as real / 100.0
  {
    var n := (k as real / 100.0) * 100.0;
    assert n == k as real;
    assert n.Floor == k;
  }

  /** Rounding keeps a value inside any interval with integer end points. */
  lemma Round2Between(x: real, lo: int, hi: int)
    requires lo as real <= x <= hi as real
    ensures lo as real <= Round2(x) <= hi as real
  {
    Round2Monotone(lo as real, x);
    Round2Monotone(x, hi as real);
    Round2Exact(lo * 100);
    Round2Exact(hi * 100);
    assert (lo * 100) as real / 100.0 == lo as real;
    assert (hi * 100) as real / 100.0 == hi as real;
  }
}
