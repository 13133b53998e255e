/**
 * `math.cos` and `math.acos`, and the constant pi, taken as parameters that
 * satisfy a few laws of the real functions. Nothing else about them is
 * assumed.
 */
module Trigonometry {

  /** A value of pi with the cosine and arc-cosine it goes with. */
  datatype Trig = Trig(pi: real, cos: real -> real, acos: real -> real) {

    /**
     * The laws: pi is near 3.14159, cosine falls strictly from 1 at 0 to
     * -1 at pi, and arc-cosine maps [-1, 1] into [0, pi] and undoes cosine.
     */
    ghost predicate Valid() {
      && 3.14159 < pi < 3.14160
      && cos(0.0) == 1.0
      && cos(pi) == -1.0
      && (forall x, y :: 0.0 <= x < y <= pi ==> cos(y) < cos(x))
      && (forall c :: -1.0 <= c <= 1.0 ==> 0.0 <= acos(c) <= pi && cos(acos(c)) == c)
    }

    /**
     * Past pi the cosine retraces its values: cos(x) = cos(2 pi - x) on
     * [pi, 2 pi], as for `math.cos`.
     */
    ghost predicate SymmetricAboutPi() {
      forall x :: pi <= x <= 2.0 * pi ==> cos(x) == cos(2.0 * pi - x)
    }
  }

  /** On [0, pi] the cosine stays within [-1, 1]. */
  lemma CosInUnitRange(t: Trig, x: real)
    requires t.Valid()
    requires 0.0 <= x <= t.pi
    ensures -1.0 <= t.cos(x) <= 1.0
  {
    if 0.0 < x { assert t.cos(x) < t.cos(0.0); }
    if x < t.pi { assert t.cos(t.pi) < t.cos(x); }
  }

  /**
   * Arc-cosine lands between two angles of [0, pi] whenever its argument
   * lies between their cosines, strictly so when the argument does.
   */
  lemma AcosBetween(t: Trig, a: real, b: real, c: real)
    requires t.Valid()
    requires 0.0 <= a <= b <= t.pi
    requires t.cos(b) <= c <= t.cos(a)
    ensures a <= t.acos(c) <= b
    ensures c < t.cos(a) ==> a < t.acos(c)
    ensures t.cos(b) < c ==> t.acos(c) < b
  {
    CosInUnitRange(t, a);
    CosInUnitRange(t, b);
    var x := t.acos(c);
    assert 0.0 <= x <= t.pi && t.cos(x) == c;
  }

  /** Arc-cosine undoes cosine on [0, pi]. */
  lemma AcosOfCos(t: Trig, x: real)
    requires t.Valid()
    requires 0.0 <= x <= t.pi
    ensures t.acos(t.cos(x)) == x
  {
    AcosBetween(t, x, x, t.cos(x));
  }

  /** Arc-cosine is strictly decreasing on [-1, 1]. */
  lemma AcosDecreasing(t: Trig, c1: real, c2: real)
    requires t.Valid()
    requires -1.0 <= c1 < c2 <= 1.0
    ensures t.acos(c2) < t.acos(c1)
  {
    var x1, x2 := t.acos(c1), t.acos(c2);
    assert t.cos(x1) == c1 && t.cos(x2) == c2;
  }

  /**
   * A straight line from (0, 1) to (pi, -1), mirrored about pi, and the
   * inverse of its first half.
   */
  function LinearTrig(): Trig
  {
    var pi := 3.1415926;
    Trig(pi,
         x => if x <= pi then 1.0 - 2.0 * x / pi else 1.0 - 2.0 * (2.0 * pi - x) / pi,
         c => pi * (1.0 - c) / 2.0)
  }

  /** The laws are consistent: the linear stand-in obeys them all. */
  lemma TrigLawsSatisfiable()
    ensures LinearTrig().Valid()
    ensures LinearTrig().SymmetricAboutPi()
  {
  }
}
