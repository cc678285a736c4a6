/** The quaternion formulas of the attitude filter. */
module Quaternions {
  import opened Linear

  /** m_q[0], m_q[1], m_q[2], m_q[3]. */
  datatype Quat = Quat(a: real, b: real, c: real, d: real)

  function Norm2(q: Quat): real { q.a * q.a + q.b * q.b + q.c * q.c + q.d * q.d }

  function Divided(q: Quat, k: real): Quat
    requires k != 0.0
  {
    Quat(q.a / k, q.b / k, q.c / k, q.d / k)
  }

  /** Turning by scalar part `c` and vector part `v`; the propagation and the update both do this. */
  function Turn(q: Quat, c: real, v: Vec): Quat {
    Quat(c * q.a + v.z * q.b - v.y * q.c + v.x * q.d,
         c * q.b - v.z * q.a + v.x * q.c + v.y * q.d,
         c * q.c + v.y * q.a - v.x * q.b + v.z * q.d,
         c * q.d - v.x * q.a - v.y * q.b - v.z * q.c)
  }

  /** Norms multiply. */
  lemma TurnNorm(q: Quat, c: real, v: Vec)
    ensures Norm2(Turn(q, c, v)) == (c * c + Dot(v, v)) * Norm2(q)
  {
  }

  /** Column images of the rotation into the body frame. */
  function BodyAxis0(q: Quat): Vec {
    Vec(q.a * q.a - q.b * q.b - q.c * q.c + q.d * q.d, 2.0 * q.a * q.b - 2.0 * q.c * q.d, 2.0 * q.a * q.c + 2.0 * q.b * q.d)
  }

  function BodyAxis1(q: Quat): Vec {
    Vec(2.0 * q.a * q.b + 2.0 * q.c * q.d, -(q.a * q.a - q.b * q.b + q.c * q.c - q.d * q.d), -(2.0 * q.a * q.d - 2.0 * q.b * q.c))
  }

  function BodyAxis2(q: Quat): Vec {
    Vec(2.0 * q.a * q.c - 2.0 * q.b * q.d, 2.0 * q.a * q.d + 2.0 * q.b * q.c, -(q.a * q.a + q.b * q.b - q.c * q.c - q.d * q.d))
  }

  /** The predicted measurement: `y` seen from the body. */
  function RotateToBody(q: Quat, y: Vec): Vec {
    RowTimes(y, Mat(BodyAxis0(q), BodyAxis1(q), BodyAxis2(q)))
  }

  lemma Axes00(q: Quat)
    ensures Dot(BodyAxis0(q), BodyAxis0(q)) == Norm2(q) * Norm2(q)
  {
  }

  lemma Axes01(q: Quat)
    ensures Dot(BodyAxis0(q), BodyAxis1(q)) == 0.0
  {
  }

  lemma Axes02(q: Quat)
    ensures Dot(BodyAxis0(q), BodyAxis2(q)) == 0.0
  {
  }

  lemma Axes11(q: Quat)
    ensures Dot(BodyAxis1(q), BodyAxis1(q)) == Norm2(q) * Norm2(q)
  {
  }

  lemma Axes12(q: Quat)
    ensures Dot(BodyAxis1(q), BodyAxis2(q)) == 0.0
  {
  }

  lemma Axes22(q: Quat)
    ensures Dot(BodyAxis2(q), BodyAxis2(q)) == Norm2(q) * Norm2(q)
  {
  }

  /** The images of the axes are orthogonal and equally long. */
  lemma AxesOrthogonal(q: Quat)
    ensures var m, n := Mat(BodyAxis0(q), BodyAxis1(q), BodyAxis2(q)), Norm2(q) * Norm2(q);
            Dot(m.r0, m.r0) == Dot(m.r1, m.r1) == Dot(m.r2, m.r2) == n &&
            Dot(m.r0, m.r1) == Dot(m.r0, m.r2) == Dot(m.r1, m.r2) == 0.0
  {
    hide Dot, BodyAxis0, BodyAxis1, BodyAxis2, Norm2;
    Axes00(q);
    Axes01(q);
    Axes02(q);
    Axes11(q);
    Axes12(q);
    Axes22(q);
  }

  /** The prediction has the length of the reference vector, times the square of the quaternion's norm. */
  lemma RotationKeepsLength(q: Quat, y: Vec)
    ensures Dot(RotateToBody(q, y), RotateToBody(q, y)) == Norm2(q) * Norm2(q) * Dot(y, y)
  {
    hide BodyAxis0, BodyAxis1, BodyAxis2, RowTimes, Norm2;
    var m, n := Mat(BodyAxis0(q), BodyAxis1(q), BodyAxis2(q)), Norm2(q) * Norm2(q);
    AxesOrthogonal(q);
    DotSym(m.r0, m.r1);
    DotSym(m.r0, m.r2);
    DotSym(m.r1, m.r2);
    DotCombination(y, m, y, m);
    Collect(y, n);
  }

  lemma Collect(y: Vec, n: real)
    ensures y.x * (y.x * n + y.y * 0.0 + y.z * 0.0) + y.y * (y.x * 0.0 + y.y * n + y.z * 0.0)
          + y.z * (y.x * 0.0 + y.y * 0.0 + y.z * n) == n * Dot(y, y)
  {
  }

  // ---- The entries the Euler angles are taken from ----

  function R13(q: Quat): real { 2.0 * q.a * q.c - 2.0 * q.b * q.d }

  function R21(q: Quat): real { 2.0 * q.a * q.b - 2.0 * q.c * q.d }

  function R22(q: Quat): real { -1.0 * (q.a * q.a) + q.b * q.b - q.c * q.c + q.d * q.d }

  function R23(q: Quat): real { 2.0 * q.a * q.d + 2.0 * q.b * q.c }

  function R33(q: Quat): real { -1.0 * (q.a * q.a) - q.b * q.b + q.c * q.c + q.d * q.d }

  /** They are entries of the rotation the measurements are predicted with. */
  lemma AngleEntries(q: Quat)
    ensures R21(q) == BodyAxis0(q).y && R22(q) == BodyAxis1(q).y
    ensures R13(q) == BodyAxis2(q).x && R23(q) == BodyAxis2(q).y && R33(q) == BodyAxis2(q).z
  {}

  /** The argument of the arc sine that gives the pitch is in range for a unit quaternion. */
  lemma PitchDefined(q: Quat)
    requires Norm2(q) == 1.0
    ensures -1.0 <= R23(q) <= 1.0
  {
    PitchBounds(q);
    hide Norm2;
  }

  lemma PitchBounds(q: Quat)
    requires Norm2(q) == 1.0
    ensures -1.0 <= 2.0 * q.a * q.d + 2.0 * q.b * q.c <= 1.0
  {
    var s, t, u, v := q.a + q.d, q.b + q.c, q.a - q.d, q.b - q.c;
    SquareSign(s);
    SquareSign(t);
    SquareSign(u);
    SquareSign(v);
    assert Square(s) + Square(t) == Norm2(q) + (2.0 * q.a * q.d + 2.0 * q.b * q.c);
    assert Square(u) + Square(v) == Norm2(q) - (2.0 * q.a * q.d + 2.0 * q.b * q.c);
  }
}
