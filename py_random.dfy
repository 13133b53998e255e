/**
 * `random.uniform(a, b)`, written as CPython computes it,
 * `a + (b - a) * random()`, with the draw `u = random()` in [0, 1) taken as
 * a parameter.
 */
module PyRandom {

  /**
   * `w * u`: the part of a width `w` that a draw `u` in [0, 1) covers. It
   * keeps the sign of the width, stays strictly short of it, and is zero
   * exactly when the draw or the width is.
   */
  function Scale(w: real, u: real): (r: real)
    ensures 0.0 <= u < 1.0 && 0.0 < w ==> 0.0 <= r < w
    ensures 0.0 <= u < 1.0 && w < 0.0 ==> w < r <= 0.0
    ensures r == 0.0 <==> u == 0.0 || w == 0.0
  {
    if w < 0.0 && 0.0 <= u < 1.0 then
      assert (-w) * u < -w;
      w * u
    else
      w * u
  }

  /** A larger draw covers strictly more of a positive width. */
  lemma ScaleIncreasing(w: real, u1: real, u2: real)
    requires 0.0 < w
    requires u1 < u2
    ensures Scale(w, u1) < Scale(w, u2)
  {
    assert 0.0 < Scale(w, u2 - u1);
    assert w * (u2 - u1) == w * u2 - w * u1;
  }

  /**
   * The draw lies between the two ends: from `a` up to but excluding `b`
   * when `a < b`, from `a` down to but excluding `b` when `b < a`, and it
   * is `a` itself for a zero draw or equal ends.
   */
  function Uniform(a: real, b: real, u: real): (r: real)
    ensures 0.0 <= u < 1.0 && a <= b ==> a <= r <= b
    ensures 0.0 <= u < 1.0 && a < b ==> r < b
    ensures 0.0 <= u < 1.0 && b < a ==> b < r <= a
    ensures u == 0.0 || a == b ==> r == a
  {
    a + Scale(b - a, u)
  }

  /** For `a < b` the draw is strictly increasing in `u`, so it is a one-to-one map of [0, 1) onto [a, b). */
  lemma UniformIncreasing(a: real, b: real, u1: real, u2: real)
    requires a < b
    requires u1 < u2
    ensures Uniform(a, b, u1) < Uniform(a, b, u2)
  {
    ScaleIncreasing(b - a, u1, u2);
  }
}
