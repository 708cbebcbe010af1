/** Points in work space and the distance helpers of the extension
  * (`sub3`, `distanceSquared2`, `distanceSquared3`). */
module Geometry {

  /** A coordinate `{x, y, z}`. */
  datatype Point3 = Point3(x: real, y: real, z: real)

  /** `{x: 0, y: 0, z: 0}`. */
  const Origin: Point3 := Point3(0.0, 0.0, 0.0)

  /** Component-wise difference `p1 - p2`. */
  function Sub3(p1: Point3, p2: Point3): (r: Point3)
    ensures Point3(p2.x + r.x, p2.y + r.y, p2.z + r.z) == p1
  {
    Point3(p1.x - p2.x, p1.y - p2.y, p1.z - p2.z)
  }

  /** Squared planar distance between `p1` and `p2`. */
  function DistanceSquared2(p1: Point3, p2: Point3): (r: real)
    ensures r >= 0.0
  {
    SquareNonNegative(p2.x - p1.x);
    SquareNonNegative(p2.y - p1.y);
    (p2.x - p1.x) * (p2.x - p1.x) + (p2.y - p1.y) * (p2.y - p1.y)
  }

  /** Squared spatial distance between `p1` and `p2`; zero when the points coincide. */
  function DistanceSquared3(p1: Point3, p2: Point3): (r: real)
    ensures r >= 0.0
    ensures p1 == p2 ==> r == 0.0
  {
    SquareNonNegative(p2.x - p1.x);
    SquareNonNegative(p2.y - p1.y);
    SquareNonNegative(p2.z - p1.z);
    (p2.x - p1.x) * (p2.x - p1.x) + (p2.y - p1.y) * (p2.y - p1.y) + (p2.z - p1.z) * (p2.z - p1.z)
  }

  /** `a * a` is non-negative. */
  lemma SquareNonNegative(a: real)
    ensures a * a >= 0.0
  {
    if a < 0.0 {
      assert a * a == (-a) * (-a);
    }
  }

  /** The product of two positive numbers is positive. */
  lemma MulPositive(a: real, b: real)
    requires a > 0.0 && b > 0.0
    ensures a * b > 0.0
  {
  }

  /**
    * The floating-point library the extension calls (`Math.sqrt`, `Math.atan2`,
    * `Math.cos`, `Math.sin`, `Math.PI`). The model never computes these; they are
    * supplied by the caller and only `Sound` is assumed of them.
    */
  datatype MathLib = MathLib(
    sqrt: real -> real,
    atan2: (real, real) -> real,
    cos: real -> real,
    sin: real -> real,
    pi: real)

  /** The facts used about the library's trigonometry: `cos` and `sin` lie on the unit circle and `atan2` returns an angle in (-pi, pi]. */
  ghost predicate TrigSound(m: MathLib) {
    (forall a :: m.cos(a) * m.cos(a) + m.sin(a) * m.sin(a) == 1.0) &&
    (forall y, x :: -m.pi < m.atan2(y, x) <= m.pi) &&
    m.pi > 0.0
  }

  /** The facts used about the square root: `sqrt` is the non-negative square root. */
  ghost predicate Sound(m: MathLib) {
    (forall a :: a >= 0.0 ==> m.sqrt(a) >= 0.0 && m.sqrt(a) * m.sqrt(a) == a) &&
    m.pi > 0.0
  }
}
