/** Three-component vectors over the reals, as the scene code uses them for
    positions and directions, and the two linear interpolations it calls. */
module Vectors {

  datatype Vec3 = Vec3(x: real, y: real, z: real)

  const Origin: Vec3 := Vec3(0.0, 0.0, 0.0)

  function Add(a: Vec3, b: Vec3): Vec3 {
    Vec3(a.x + b.x, a.y + b.y, a.z + b.z)
  }

  function Sub(a: Vec3, b: Vec3): Vec3 {
    Vec3(a.x - b.x, a.y - b.y, a.z - b.z)
  }

  function Scale(a: Vec3, s: real): Vec3 {
    Vec3(a.x * s, a.y * s, a.z * s)
  }

  function Dot(a: Vec3, b: Vec3): real {
    a.x * b.x + a.y * b.y + a.z * b.z
  }

  /** Squared Euclidean distance: the squared length of the difference, and
      0 outright between equal points. Comparing it with a squared threshold
      is the same as comparing `distanceTo` with a non-negative threshold. */
  function DistSq(a: Vec3, b: Vec3): (d: real)
    ensures d >= 0.0
    ensures a == b ==> d == 0.0
  {
    if a == b then 0.0
    else
      var v := Sub(a, b);
      SquareNonNegative(v.x);
      SquareNonNegative(v.y);
      SquareNonNegative(v.z);
      Dot(v, v)
  }

  /** Squared distance on the horizontal (x, z) plane. */
  function HorizDistSq(a: Vec3, b: Vec3): (d: real)
    ensures 0.0 <= d <= DistSq(a, b)
  {
    SquareNonNegative(a.x - b.x);
    SquareNonNegative(a.y - b.y);
    SquareNonNegative(a.z - b.z);
    (a.x - b.x) * (a.x - b.x) + (a.z - b.z) * (a.z - b.z)
  }

  lemma SquareNonNegative(r: real)
    ensures r * r >= 0.0
  {
    if r < 0.0 {
      assert r * r == (-r) * (-r);
    }
  }

  /** Between equal points too, the squared distance is the squared length
      of the difference. */
  lemma DistSqIsDot(a: Vec3, b: Vec3)
    ensures DistSq(a, b) == Dot(Sub(a, b), Sub(a, b))
  {
    if a == b {
      assert Sub(a, b) == Origin;
    }
  }

  function Abs(r: real): (a: real)
    ensures a >= 0.0 && (a == r || a == -r)
  {
    if r < 0.0 then -r else r
  }

  /** Scalar interpolation as the math utilities define it: (1 - t) x + t y. */
  function Lerp(x: real, y: real, t: real): real {
    (1.0 - t) * x + t * y
  }

  /** Vector interpolation as the vector class defines it: each component
      moves by (b - a) * t. */
  function LerpVec(a: Vec3, b: Vec3, t: real): Vec3 {
    Vec3(a.x + (b.x - a.x) * t, a.y + (b.y - a.y) * t, a.z + (b.z - a.z) * t)
  }

  /** The vector blend lies on the line through a and b, and on the segment
      between them when 0 <= t <= 1: it is t of the way from a and (1 - t) of
      the way short of b, measured as squared distances. */
  lemma LerpVecOnSegment(a: Vec3, b: Vec3, t: real)
    ensures DistSq(a, LerpVec(a, b, t)) == t * t * DistSq(a, b)
    ensures DistSq(LerpVec(a, b, t), b) == (1.0 - t) * (1.0 - t) * DistSq(a, b)
  {
    var m := LerpVec(a, b, t);
    LerpVecDifferences(a, b, t);
    ScaledDistSq(a, m, a, b, t);
    ScaledDistSq(m, b, a, b, 1.0 - t);
  }

  /** The blend differs from a by t times a - b, and from b by (1 - t) times
      a - b. */
  lemma LerpVecDifferences(a: Vec3, b: Vec3, t: real)
    ensures Sub(a, LerpVec(a, b, t)) == Scale(Sub(a, b), t)
    ensures Sub(LerpVec(a, b, t), b) == Scale(Sub(a, b), 1.0 - t)
  {
  }

  /** Two points whose difference is s times the difference of a and b are
      s * s times as far apart as a and b, squared. */
  lemma ScaledDistSq(p: Vec3, q: Vec3, a: Vec3, b: Vec3, s: real)
    requires Sub(p, q) == Scale(Sub(a, b), s)
    ensures DistSq(p, q) == s * s * DistSq(a, b)
  {
    DistSqIsDot(p, q);
    DistSqIsDot(a, b);
    ScaledDot(Sub(a, b), s);
  }

  /** Scaling a vector by s scales its squared length by s * s. */
  lemma ScaledDot(v: Vec3, s: real)
    ensures Dot(Scale(v, s), Scale(v, s)) == s * s * Dot(v, v)
  {
    calc {
      Dot(Scale(v, s), Scale(v, s));
      (v.x * s) * (v.x * s) + (v.y * s) * (v.y * s) + (v.z * s) * (v.z * s);
      s * s * (v.x * v.x + v.y * v.y + v.z * v.z);
    }
  }
}
