/** Which way a step of the attitude filter turns the predicted measurement. */
module AttitudeTurns {
  import opened Linear
  import opened KalmanMath
  import opened KalmanOrder
  import opened Quaternions

  function Gap(c: real, v: Vec): real { c * c - Dot(v, v) }

  /** A vector turned by scalar part `c` and vector part `v` of a quaternion. */
  function Turned(b: Vec, c: real, v: Vec): Vec {
    Plus(Scale(Gap(c, v), b), Minus(Scale(2.0 * Dot(v, b), v), Scale(2.0 * c, Cross(v, b))))
  }

  // The same with everything multiplied out.

  function TurnedX(b: Vec, c: real, v: Vec): real {
    (c * c - (v.x * v.x + v.y * v.y + v.z * v.z)) * b.x + (2.0 * (v.x * b.x + v.y * b.y + v.z * b.z) * v.x - 2.0 * c * (v.y * b.z - v.z * b.y))
  }

  function TurnedY(b: Vec, c: real, v: Vec): real {
    (c * c - (v.x * v.x + v.y * v.y + v.z * v.z)) * b.y + (2.0 * (v.x * b.x + v.y * b.y + v.z * b.z) * v.y - 2.0 * c * (v.z * b.x - v.x * b.z))
  }

  function TurnedZ(b: Vec, c: real, v: Vec): real {
    (c * c - (v.x * v.x + v.y * v.y + v.z * v.z)) * b.z + (2.0 * (v.x * b.x + v.y * b.y + v.z * b.z) * v.z - 2.0 * c * (v.x * b.y - v.y * b.x))
  }

  lemma GapIs(c: real, v: Vec)
    ensures Gap(c, v) == c * c - (v.x * v.x + v.y * v.y + v.z * v.z)
  {
  }

  lemma GapTimes(c: real, v: Vec, s: real)
    ensures Gap(c, v) * s == (c * c - (v.x * v.x + v.y * v.y + v.z * v.z)) * s
  {
    hide *;
    GapIs(c, v);
    SameProduct(Gap(c, v), c * c - (v.x * v.x + v.y * v.y + v.z * v.z), s, s);
  }

  lemma DotIs(v: Vec, b: Vec)
    ensures Dot(v, b) == v.x * b.x + v.y * b.y + v.z * b.z
  {
  }

  lemma DotTimes(v: Vec, b: Vec, s: real)
    ensures Dot(v, b) * s == (v.x * b.x + v.y * b.y + v.z * b.z) * s
  {
    hide *;
    DotIs(v, b);
    SameProduct(Dot(v, b), v.x * b.x + v.y * b.y + v.z * b.z, s, s);
  }

  lemma CrossXIs(v: Vec, b: Vec)
    ensures Cross(v, b).x == v.y * b.z - v.z * b.y
  {
  }

  lemma CrossXTimes(v: Vec, b: Vec, s: real)
    ensures s * Cross(v, b).x == s * (v.y * b.z - v.z * b.y)
  {
    hide *;
    CrossXIs(v, b);
    SameProduct(s, s, Cross(v, b).x, v.y * b.z - v.z * b.y);
  }

  lemma MultipliedOutX(b: Vec, c: real, v: Vec)
    ensures TurnedX(b, c, v) == Gap(c, v) * b.x + (2.0 * Dot(v, b) * v.x - 2.0 * c * Cross(v, b).x)
  {
    hide Gap, Dot, Cross;
    GapTimes(c, v, b.x);
    DotTimes(v, b, v.x);
    CrossXTimes(v, b, c);
  }

  lemma CrossYIs(v: Vec, b: Vec)
    ensures Cross(v, b).y == v.z * b.x - v.x * b.z
  {
  }

  lemma CrossYTimes(v: Vec, b: Vec, s: real)
    ensures s * Cross(v, b).y == s * (v.z * b.x - v.x * b.z)
  {
    hide *;
    CrossYIs(v, b);
    SameProduct(s, s, Cross(v, b).y, v.z * b.x - v.x * b.z);
  }

  lemma MultipliedOutY(b: Vec, c: real, v: Vec)
    ensures TurnedY(b, c, v) == Gap(c, v) * b.y + (2.0 * Dot(v, b) * v.y - 2.0 * c * Cross(v, b).y)
  {
    hide Gap, Dot, Cross;
    GapTimes(c, v, b.y);
    DotTimes(v, b, v.y);
    CrossYTimes(v, b, c);
  }

  lemma CrossZIs(v: Vec, b: Vec)
    ensures Cross(v, b).z == v.x * b.y - v.y * b.x
  {
  }

  lemma CrossZTimes(v: Vec, b: Vec, s: real)
    ensures s * Cross(v, b).z == s * (v.x * b.y - v.y * b.x)
  {
    hide *;
    CrossZIs(v, b);
    SameProduct(s, s, Cross(v, b).z, v.x * b.y - v.y * b.x);
  }

  lemma MultipliedOutZ(b: Vec, c: real, v: Vec)
    ensures TurnedZ(b, c, v) == Gap(c, v) * b.z + (2.0 * Dot(v, b) * v.z - 2.0 * c * Cross(v, b).z)
  {
    hide Gap, Dot, Cross;
    GapTimes(c, v, b.z);
    DotTimes(v, b, v.z);
    CrossZTimes(v, b, c);
  }

  lemma TurnedIs(b: Vec, c: real, v: Vec)
    ensures Turned(b, c, v) == Vec(TurnedX(b, c, v), TurnedY(b, c, v), TurnedZ(b, c, v))
  {
    hide Gap, Dot, Cross, TurnedX, TurnedY, TurnedZ;
    MultipliedOutX(b, c, v);
    MultipliedOutY(b, c, v);
    MultipliedOutZ(b, c, v);
  }

  // ---- What a turn of the attitude does to the axes ----

  predicate IsTurn(q: Quat, t: Quat, c: real, x: real, y: real, z: real) {
    && t.a == c * q.a + z * q.b - y * q.c + x * q.d && t.b == c * q.b - z * q.a + x * q.c + y * q.d
    && t.c == c * q.c + y * q.a - x * q.b + z * q.d && t.d == c * q.d - x * q.a - y * q.b - z * q.c
  }

  predicate Image0(q: Quat, i: real, j: real, k: real) {
    && i == q.a * q.a - q.b * q.b - q.c * q.c + q.d * q.d && j == 2.0 * q.a * q.b - 2.0 * q.c * q.d
    && k == 2.0 * q.a * q.c + 2.0 * q.b * q.d
  }

  lemma Axis0X(q: Quat, t: Quat, c: real, x: real, y: real, z: real, i: real, j: real, k: real)
    requires IsTurn(q, t, c, x, y, z) && Image0(q, i, j, k)
    ensures t.a * t.a - t.b * t.b - t.c * t.c + t.d * t.d == (c * c - (x * x + y * y + z * z)) * i + (2.0 * (x * i + y * j + z * k) * x - 2.0 * c * (y * k - z * j))
  {
  }

  lemma Entry0X(q: Quat, t: Quat, c: real, v: Vec, b: Vec)
    requires IsTurn(q, t, c, v.x, v.y, v.z) && Image0(q, b.x, b.y, b.z)
    ensures BodyAxis0(t).x == TurnedX(b, c, v)
  {
    hide IsTurn, Image0;
    Axis0X(q, t, c, v.x, v.y, v.z, b.x, b.y, b.z);
  }

  lemma Axis0Y(q: Quat, t: Quat, c: real, x: real, y: real, z: real, i: real, j: real, k: real)
    requires IsTurn(q, t, c, x, y, z) && Image0(q, i, j, k)
    ensures 2.0 * t.a * t.b - 2.0 * t.c * t.d == (c * c - (x * x + y * y + z * z)) * j + (2.0 * (x * i + y * j + z * k) * y - 2.0 * c * (z * i - x * k))
  {
  }

  lemma Entry0Y(q: Quat, t: Quat, c: real, v: Vec, b: Vec)
    requires IsTurn(q, t, c, v.x, v.y, v.z) && Image0(q, b.x, b.y, b.z)
    ensures BodyAxis0(t).y == TurnedY(b, c, v)
  {
    hide IsTurn, Image0;
    Axis0Y(q, t, c, v.x, v.y, v.z, b.x, b.y, b.z);
  }

  lemma Axis0Z(q: Quat, t: Quat, c: real, x: real, y: real, z: real, i: real, j: real, k: real)
    requires IsTurn(q, t, c, x, y, z) && Image0(q, i, j, k)
    ensures 2.0 * t.a * t.c + 2.0 * t.b * t.d == (c * c - (x * x + y * y + z * z)) * k + (2.0 * (x * i + y * j + z * k) * z - 2.0 * c * (x * j - y * i))
  {
  }

  lemma Entry0Z(q: Quat, t: Quat, c: real, v: Vec, b: Vec)
    requires IsTurn(q, t, c, v.x, v.y, v.z) && Image0(q, b.x, b.y, b.z)
    ensures BodyAxis0(t).z == TurnedZ(b, c, v)
  {
    hide IsTurn, Image0;
    Axis0Z(q, t, c, v.x, v.y, v.z, b.x, b.y, b.z);
  }

  lemma TurnAxis0(q: Quat, t: Quat, c: real, v: Vec)
    requires IsTurn(q, t, c, v.x, v.y, v.z)
    ensures BodyAxis0(t) == Turned(BodyAxis0(q), c, v)
  {
    hide IsTurn, Turned, TurnedX, TurnedY, TurnedZ;
    var b := BodyAxis0(q);
    assert Image0(q, b.x, b.y, b.z);
    hide BodyAxis0, Image0;
    Entry0X(q, t, c, v, b);
    Entry0Y(q, t, c, v, b);
    Entry0Z(q, t, c, v, b);
    TurnedIs(b, c, v);
  }

  predicate Image1(q: Quat, i: real, j: real, k: real) {
    && i == 2.0 * q.a * q.b + 2.0 * q.c * q.d && j == -(q.a * q.a - q.b * q.b + q.c * q.c - q.d * q.d)
    && k == -(2.0 * q.a * q.d - 2.0 * q.b * q.c)
  }

  lemma Axis1X(q: Quat, t: Quat, c: real, x: real, y: real, z: real, i: real, j: real, k: real)
    requires IsTurn(q, t, c, x, y, z) && Image1(q, i, j, k)
    ensures 2.0 * t.a * t.b + 2.0 * t.c * t.d == (c * c - (x * x + y * y + z * z)) * i + (2.0 * (x * i + y * j + z * k) * x - 2.0 * c * (y * k - z * j))
  {
  }

  lemma Entry1X(q: Quat, t: Quat, c: real, v: Vec, b: Vec)
    requires IsTurn(q, t, c, v.x, v.y, v.z) && Image1(q, b.x, b.y, b.z)
    ensures BodyAxis1(t).x == TurnedX(b, c, v)
  {
    hide IsTurn, Image1;
    Axis1X(q, t, c, v.x, v.y, v.z, b.x, b.y, b.z);
  }

  lemma Axis1Y(q: Quat, t: Quat, c: real, x: real, y: real, z: real, i: real, j: real, k: real)
    requires IsTurn(q, t, c, x, y, z) && Image1(q, i, j, k)
    ensures -(t.a * t.a - t.b * t.b + t.c * t.c - t.d * t.d) == (c * c - (x * x + y * y + z * z)) * j + (2.0 * (x * i + y * j + z * k) * y - 2.0 * c * (z * i - x * k))
  {
  }

  lemma Entry1Y(q: Quat, t: Quat, c: real, v: Vec, b: Vec)
    requires IsTurn(q, t, c, v.x, v.y, v.z) && Image1(q, b.x, b.y, b.z)
    ensures BodyAxis1(t).y == TurnedY(b, c, v)
  {
    hide IsTurn, Image1;
    Axis1Y(q, t, c, v.x, v.y, v.z, b.x, b.y, b.z);
  }

  lemma Axis1Z(q: Quat, t: Quat, c: real, x: real, y: real, z: real, i: real, j: real, k: real)
    requires IsTurn(q, t, c, x, y, z) && Image1(q, i, j, k)
    ensures -(2.0 * t.a * t.d - 2.0 * t.b * t.c) == (c * c - (x * x + y * y + z * z)) * k + (2.0 * (x * i + y * j + z * k) * z - 2.0 * c * (x * j - y * i))
  {
  }

  lemma Entry1Z(q: Quat, t: Quat, c: real, v: Vec, b: Vec)
    requires IsTurn(q, t, c, v.x, v.y, v.z) && Image1(q, b.x, b.y, b.z)
    ensures BodyAxis1(t).z == TurnedZ(b, c, v)
  {
    hide IsTurn, Image1;
    Axis1Z(q, t, c, v.x, v.y, v.z, b.x, b.y, b.z);
  }

  lemma TurnAxis1(q: Quat, t: Quat, c: real, v: Vec)
    requires IsTurn(q, t, c, v.x, v.y, v.z)
    ensures BodyAxis1(t) == Turned(BodyAxis1(q), c, v)
  {
    hide IsTurn, Turned, TurnedX, TurnedY, TurnedZ;
    var b := BodyAxis1(q);
    assert Image1(q, b.x, b.y, b.z);
    hide BodyAxis1, Image1;
    Entry1X(q, t, c, v, b);
    Entry1Y(q, t, c, v, b);
    Entry1Z(q, t, c, v, b);
    TurnedIs(b, c, v);
  }

  predicate Image2(q: Quat, i: real, j: real, k: real) {
    && i == 2.0 * q.a * q.c - 2.0 * q.b * q.d && j == 2.0 * q.a * q.d + 2.0 * q.b * q.c
    && k == -(q.a * q.a + q.b * q.b - q.c * q.c - q.d * q.d)
  }

  lemma Axis2X(q: Quat, t: Quat, c: real, x: real, y: real, z: real, i: real, j: real, k: real)
    requires IsTurn(q, t, c, x, y, z) && Image2(q, i, j, k)
    ensures 2.0 * t.a * t.c - 2.0 * t.b * t.d == (c * c - (x * x + y * y + z * z)) * i + (2.0 * (x * i + y * j + z * k) * x - 2.0 * c * (y * k - z * j))
  {
  }

  lemma Entry2X(q: Quat, t: Quat, c: real, v: Vec, b: Vec)
    requires IsTurn(q, t, c, v.x, v.y, v.z) && Image2(q, b.x, b.y, b.z)
    ensures BodyAxis2(t).x == TurnedX(b, c, v)
  {
    hide IsTurn, Image2;
    Axis2X(q, t, c, v.x, v.y, v.z, b.x, b.y, b.z);
  }

  lemma Axis2Y(q: Quat, t: Quat, c: real, x: real, y: real, z: real, i: real, j: real, k: real)
    requires IsTurn(q, t, c, x, y, z) && Image2(q, i, j, k)
    ensures 2.0 * t.a * t.d + 2.0 * t.b * t.c == (c * c - (x * x + y * y + z * z)) * j + (2.0 * (x * i + y * j + z * k) * y - 2.0 * c * (z * i - x * k))
  {
  }

  lemma Entry2Y(q: Quat, t: Quat, c: real, v: Vec, b: Vec)
    requires IsTurn(q, t, c, v.x, v.y, v.z) && Image2(q, b.x, b.y, b.z)
    ensures BodyAxis2(t).y == TurnedY(b, c, v)
  {
    hide IsTurn, Image2;
    Axis2Y(q, t, c, v.x, v.y, v.z, b.x, b.y, b.z);
  }

  lemma Axis2Z(q: Quat, t: Quat, c: real, x: real, y: real, z: real, i: real, j: real, k: real)
    requires IsTurn(q, t, c, x, y, z) && Image2(q, i, j, k)
    ensures -(t.a * t.a + t.b * t.b - t.c * t.c - t.d * t.d) == (c * c - (x * x + y * y + z * z)) * k + (2.0 * (x * i + y * j + z * k) * z - 2.0 * c * (x * j - y * i))
  {
  }

  lemma Entry2Z(q: Quat, t: Quat, c: real, v: Vec, b: Vec)
    requires IsTurn(q, t, c, v.x, v.y, v.z) && Image2(q, b.x, b.y, b.z)
    ensures BodyAxis2(t).z == TurnedZ(b, c, v)
  {
    hide IsTurn, Image2;
    Axis2Z(q, t, c, v.x, v.y, v.z, b.x, b.y, b.z);
  }

  lemma TurnAxis2(q: Quat, t: Quat, c: real, v: Vec)
    requires IsTurn(q, t, c, v.x, v.y, v.z)
    ensures BodyAxis2(t) == Turned(BodyAxis2(q), c, v)
  {
    hide IsTurn, Turned, TurnedX, TurnedY, TurnedZ;
    var b := BodyAxis2(q);
    assert Image2(q, b.x, b.y, b.z);
    hide BodyAxis2, Image2;
    Entry2X(q, t, c, v, b);
    Entry2Y(q, t, c, v, b);
    Entry2Z(q, t, c, v, b);
    TurnedIs(b, c, v);
  }

  lemma TurnAxes(q: Quat, c: real, v: Vec)
    ensures var t := Turn(q, c, v);
            BodyAxis0(t) == Turned(BodyAxis0(q), c, v) && BodyAxis1(t) == Turned(BodyAxis1(q), c, v) &&
            BodyAxis2(t) == Turned(BodyAxis2(q), c, v)
  {
    hide Turned, BodyAxis0, BodyAxis1, BodyAxis2;
    var t := Turn(q, c, v);
    assert IsTurn(q, t, c, v.x, v.y, v.z);
    hide Turn, IsTurn;
    TurnAxis0(q, t, c, v);
    TurnAxis1(q, t, c, v);
    TurnAxis2(q, t, c, v);
  }

  // ---- ... and to combinations of them ----

  function RowX(c: real, v: Vec): Vec {
    Vec(c * c - (v.x * v.x + v.y * v.y + v.z * v.z) + 2.0 * v.x * v.x, 2.0 * v.x * v.y + 2.0 * c * v.z, 2.0 * v.x * v.z - 2.0 * c * v.y)
  }

  lemma DotX(b: Vec, c: real, v: Vec)
    ensures TurnedX(b, c, v) == Dot(b, RowX(c, v))
  {
  }

  function RowY(c: real, v: Vec): Vec {
    Vec(2.0 * v.x * v.y - 2.0 * c * v.z, c * c - (v.x * v.x + v.y * v.y + v.z * v.z) + 2.0 * v.y * v.y, 2.0 * v.y * v.z + 2.0 * c * v.x)
  }

  lemma DotY(b: Vec, c: real, v: Vec)
    ensures TurnedY(b, c, v) == Dot(b, RowY(c, v))
  {
  }

  function RowZ(c: real, v: Vec): Vec {
    Vec(2.0 * v.x * v.z + 2.0 * c * v.y, 2.0 * v.y * v.z - 2.0 * c * v.x, c * c - (v.x * v.x + v.y * v.y + v.z * v.z) + 2.0 * v.z * v.z)
  }

  lemma DotZ(b: Vec, c: real, v: Vec)
    ensures TurnedZ(b, c, v) == Dot(b, RowZ(c, v))
  {
  }

  lemma TurnedDots(b: Vec, c: real, v: Vec)
    ensures Turned(b, c, v) == Vec(Dot(b, RowX(c, v)), Dot(b, RowY(c, v)), Dot(b, RowZ(c, v)))
  {
    hide *;
    DotX(b, c, v);
    DotY(b, c, v);
    DotZ(b, c, v);
    TurnedIs(b, c, v);
  }

  lemma TurnedRow(y: Vec, m: Mat, c: real, v: Vec)
    ensures Turned(RowTimes(y, m), c, v) == RowTimes(y, Mat(Turned(m.r0, c, v), Turned(m.r1, c, v), Turned(m.r2, c, v)))
  {
    TurnedDots(RowTimes(y, m), c, v);
    TurnedDots(m.r0, c, v);
    TurnedDots(m.r1, c, v);
    TurnedDots(m.r2, c, v);
    DotRowTimes(y, m, RowX(c, v));
    DotRowTimes(y, m, RowY(c, v));
    DotRowTimes(y, m, RowZ(c, v));
    hide Turned, Dot, RowX, RowY, RowZ;
  }

  /** Turning the attitude turns what is predicted for every reference vector. */
  lemma TurnTurns(q: Quat, c: real, v: Vec, y: Vec)
    ensures RotateToBody(Turn(q, c, v), y) == Turned(RotateToBody(q, y), c, v)
  {
    hide Turn, Turned, BodyAxis0, BodyAxis1, BodyAxis2, RowTimes;
    TurnAxes(q, c, v);
    TurnedRow(y, Mat(BodyAxis0(q), BodyAxis1(q), BodyAxis2(q)), c, v);
  }

  /** The attitude a filter starts with predicts the reference vector itself, and every quaternion is a turn of it: so
      this is what `RotateToBody` is. */
  lemma RotationFormula(q: Quat, y: Vec)
    ensures RotateToBody(Quat(0.0, 0.0, 0.0, 1.0), y) == y
    ensures RotateToBody(q, y) == Turned(y, q.d, Vec(q.a, q.b, q.c))
  {
    UnitPredicts(y);
    TurnTurns(Quat(0.0, 0.0, 0.0, 1.0), q.d, Vec(q.a, q.b, q.c), y);
    assert Turn(Quat(0.0, 0.0, 0.0, 1.0), q.d, Vec(q.a, q.b, q.c)) == q;
    hide Turn, RotateToBody, Turned;
  }

  lemma UnitAxes()
    ensures var q := Quat(0.0, 0.0, 0.0, 1.0);
            BodyAxis0(q) == IDENTITY.r0 && BodyAxis1(q) == IDENTITY.r1 && BodyAxis2(q) == IDENTITY.r2
  {
  }

  lemma UnitPredicts(y: Vec)
    ensures RotateToBody(Quat(0.0, 0.0, 0.0, 1.0), y) == y
  {
    hide BodyAxis0, BodyAxis1, BodyAxis2, RowTimes;
    UnitAxes();
    RowTimesIdentity(y);
  }

  // ---- Normalising ----

  const NO_TURN: Vec := Vec(0.0, 0.0, 0.0)

  lemma StretchedBack(q: Quat, k: real)
    requires k != 0.0
    ensures Turn(Divided(q, k), k, NO_TURN) == q
  {
  }

  lemma TurnedByNone(b: Vec, k: real)
    ensures Turned(b, k, NO_TURN) == Scale(k * k, b)
  {
  }

  /** Dividing the quaternion divides what is predicted by the square. */
  lemma DividedTurns(q: Quat, k: real, y: Vec)
    requires k != 0.0
    ensures Scale(k * k, RotateToBody(Divided(q, k), y)) == RotateToBody(q, y)
  {
    StretchedBack(q, k);
    hide RotateToBody, Turn, Turned, Scale, Divided;
    TurnTurns(Divided(q, k), k, NO_TURN, y);
    TurnedByNone(RotateToBody(Divided(q, k), y), k);
  }

  // ---- What a gain does with a residual ----

  /** A matrix times a vector. */
  function MatApply(m: Mat, v: Vec): Vec { Vec(Dot(m.r0, v), Dot(m.r1, v), Dot(m.r2, v)) }

  lemma GainEntry(p: Sym, r: Vec, noise: real, res: Vec, e: Vec)
    requires Det(InnovationCov(p, r, noise)) != 0.0
    ensures var x := Apply(Inverse(InnovationCov(p, r, noise)), res);
            Dot(GainOf(p, r, noise, e), res) == Form(p, Cross(x, r), e)
  {
    var inv := Inverse(InnovationCov(p, r, noise));
    var a, x := Cross(r, Apply(p, e)), Apply(inv, res);
    FormSym(inv, a, res);
    FormIs(inv, a, res);
    FormIs(inv, res, a);
    DotSym(GainOf(p, r, noise, e), res);
    DotSym(x, a);
    FormCross(p, x, r, e);
    hide InnovationCov, Det, Cross, Apply, Dot, Inverse, Form;
  }

  /** The gain times a residual is P times a cross product with the predicted vector. */
  lemma GainApplied(p: Sym, r: Vec, noise: real, res: Vec)
    requires Det(InnovationCov(p, r, noise)) != 0.0
    ensures var x := Apply(Inverse(InnovationCov(p, r, noise)), res);
            MatApply(KalmanGain(p, r, noise), res) == Apply(p, Cross(x, r))
  {
    hide InnovationCov, Det, Cross, Apply, Dot, Inverse, Form, KalmanGain, GainOf;
    var x, b := Apply(Inverse(InnovationCov(p, r, noise)), res), IDENTITY;
    GainAndCorrection(p, r, noise);
    GainEntry(p, r, noise, res, b.r0);
    GainEntry(p, r, noise, res, b.r1);
    GainEntry(p, r, noise, res, b.r2);
    ApplyOnBasis(p, Cross(x, r));
  }

  /** The first-order change of the prediction, by what is left of the residual. */
  lemma ChangeTimesResidual(p: Sym, r: Vec, noise: real, res: Vec, u: Vec)
    requires Det(InnovationCov(p, r, noise)) != 0.0
    ensures var (x, g) := (Apply(Inverse(InnovationCov(p, r, noise)), res), MatApply(KalmanGain(p, r, noise), res));
            Dot(u, res) == Dot(u, Cross(r, g)) + noise * Dot(u, x)
  {
    hide *;
    var s := InnovationCov(p, r, noise);
    var x, g := Apply(Inverse(s), res), MatApply(KalmanGain(p, r, noise), res);
    GainApplied(p, r, noise, res);
    InverseInverts(s, res);
    FormIs(s, u, x);
    FormIs(p, Cross(u, r), Cross(x, r));
    CrossTranspose(u, r, g);
    MeasurementForm(p, r, noise, u, x);
  }

  /** The first-order change of the prediction goes towards the measurement, and no further. */
  lemma TowardsMeasurement(p: Sym, r: Vec, noise: real, res: Vec)
    requires PositiveDefinite(p) && noise > 0.0
    ensures Det(InnovationCov(p, r, noise)) > 0.0
    ensures var y := Cross(r, MatApply(KalmanGain(p, r, noise), res));
            Dot(y, res) >= Dot(y, y) && (NonZero(Cross(r, res)) ==> Dot(y, res) > 0.0)
  {
    hide *;
    DefiniteIsPsd(p);
    DetPositive(p, r, noise);
    var x := Apply(Inverse(InnovationCov(p, r, noise)), res);
    var g, z := MatApply(KalmanGain(p, r, noise), res), Cross(x, r);
    var y := Cross(r, g);
    ChangeTimesResidual(p, r, noise, res, y);
    GainApplied(p, r, noise, res);
    SidewaysForm(p, r, x, g);
    DefiniteAt(p, z);
    FactorSign(noise, Form(p, z, z));
    SquarePositive(y);
    assert noise * Dot(y, x) == noise * Form(p, z, z);
    if NonZero(Cross(r, res)) { SidewaysNeeded(p, r, noise, res); }
  }

  lemma SidewaysForm(p: Sym, r: Vec, x: Vec, g: Vec)
    requires g == Apply(p, Cross(x, r))
    ensures Dot(Cross(r, g), x) == Form(p, Cross(x, r), Cross(x, r))
  {
    DotSym(Cross(r, g), x);
    CrossTranspose(x, r, g);
    FormIs(p, Cross(x, r), Cross(x, r));
    hide Cross, Dot, Form, Apply;
  }

  lemma FactorSign(k: real, f: real)
    requires k > 0.0 && f >= 0.0
    ensures k * f >= 0.0 && (f > 0.0 ==> k * f > 0.0)
  {
    if f > 0.0 { var e := PositiveProduct(k, f); }
  }

  /** A residual that is not along the predicted vector leaves something to turn. */
  lemma SidewaysNeeded(p: Sym, r: Vec, noise: real, res: Vec)
    requires Det(InnovationCov(p, r, noise)) != 0.0
    ensures NonZero(Cross(r, res)) ==> NonZero(Cross(Apply(Inverse(InnovationCov(p, r, noise)), res), r))
  {
    hide InnovationCov, Det, Inverse, KalmanGain, Apply, Dot, Cross, MatApply, GainOf;
    var x := Apply(Inverse(InnovationCov(p, r, noise)), res);
    if !NonZero(Cross(x, r)) {
      var b := IDENTITY;
      GainApplied(p, r, noise, res);
      NothingApplied(p, Cross(x, r), r);
      ChangeTimesResidual(p, r, noise, res, b.r0);
      ChangeTimesResidual(p, r, noise, res, b.r1);
      ChangeTimesResidual(p, r, noise, res, b.r2);
      Components(res, x, noise);
      AlongIsZero(r, x, noise);
    }
  }

  lemma NothingApplied(p: Sym, z: Vec, r: Vec)
    requires !NonZero(z)
    ensures var y := Cross(r, Apply(p, z)); y == NO_TURN && forall u :: Dot(u, y) == 0.0
  {
    assert z == NO_TURN;
    assert Apply(p, z) == NO_TURN;
  }

  lemma Components(res: Vec, x: Vec, noise: real)
    requires Dot(IDENTITY.r0, res) == noise * Dot(IDENTITY.r0, x) && Dot(IDENTITY.r1, res) == noise * Dot(IDENTITY.r1, x)
    requires Dot(IDENTITY.r2, res) == noise * Dot(IDENTITY.r2, x)
    ensures res == Scale(noise, x)
  {
  }

  lemma AlongIsZero(r: Vec, x: Vec, noise: real)
    requires !NonZero(Cross(x, r))
    ensures !NonZero(Cross(r, Scale(noise, x)))
  {
    var z := Cross(x, r);
    assert Cross(r, Scale(noise, x)) == Scale(-noise, z);
  }

  // ---- What an update does to the prediction ----

  /** From the prediction `b` to the prediction `b'` by a small rotation `g`: to first order by the cross product of the
      two, the divisor and the rest being of second order. */
  predicate MovedBy(b: Vec, b': Vec, g: Vec) {
    Scale(1.0 + 0.25 * Dot(g, g), b')
    == Plus(Plus(b, Cross(b, g)), Minus(Scale(0.5 * Dot(g, b), g), Scale(0.25 * Dot(g, g), b)))
  }

  lemma HalfTurn(b: Vec, g: Vec)
    ensures Turned(b, 1.0, Scale(0.5, g))
         == Plus(Plus(b, Cross(b, g)), Minus(Scale(0.5 * Dot(g, b), g), Scale(0.25 * Dot(g, g), b)))
  {
    var v := Scale(0.5, g);
    HalfParts(b, g);
    hide Dot, Cross;
  }

  lemma HalfParts(b: Vec, g: Vec)
    ensures var v := Scale(0.5, g);
            Dot(v, v) == 0.25 * Dot(g, g) && Dot(v, b) == 0.5 * Dot(g, b) && Cross(v, b) == Scale(-0.5, Cross(b, g))
  {
  }

  /** A turn by half of `g`, normalised, moves every prediction by `g`. */
  lemma HalfTurnMoves(q: Quat, g: Vec, k: real, y: Vec)
    requires k > 0.0 && k * k == 1.0 + 0.25 * Dot(g, g)
    ensures MovedBy(RotateToBody(q, y), RotateToBody(Divided(Turn(q, 1.0, Scale(0.5, g)), k), y), g)
  {
    hide RotateToBody, Turn, Turned, Divided, Dot, Cross, Plus, Minus, Scale;
    TurnTurns(q, 1.0, Scale(0.5, g), y);
    HalfTurn(RotateToBody(q, y), g);
    DividedTurns(Turn(q, 1.0, Scale(0.5, g)), k, y);
  }

  // ---- What a propagation does to the prediction ----

  /** `b` rotated about the unit vector `u`, by the cosine and sine of half the angle: the frame turns along `u`, so what
      is seen from it turns the other way. */
  function Rotated(b: Vec, u: Vec, c: real, s: real): Vec {
    Plus(Scale(c * c - s * s, b), Minus(Scale(2.0 * s * s * Dot(u, b), u), Scale(2.0 * c * s, Cross(u, b))))
  }

  lemma TurnedByUnit(b: Vec, u: Vec, c: real, s: real)
    requires Dot(u, u) == 1.0
    ensures Turned(b, c, Scale(s, u)) == Rotated(b, u, c, s)
  {
    DotScaled(s, u, b);
    DotScaledTwice(s, u);
    CrossScaled(s, u, b);
    hide Dot, Cross;
  }

  lemma DotScaled(s: real, u: Vec, b: Vec)
    ensures Dot(Scale(s, u), b) == s * Dot(u, b)
  {
  }

  lemma DotScaledTwice(s: real, u: Vec)
    requires Dot(u, u) == 1.0
    ensures Dot(Scale(s, u), Scale(s, u)) == s * s
  {
    DotScaled(s, u, Scale(s, u));
    DotScaled(s, u, u);
    DotSym(u, Scale(s, u));
    hide Dot;
  }

  lemma CrossScaled(s: real, u: Vec, b: Vec)
    ensures Cross(Scale(s, u), b) == Scale(s, Cross(u, b))
  {
    CrossDots(Scale(s, u), b);
    CrossDots(u, b);
    DotScaled(s, u, Vec(0.0, b.z, -b.y));
    DotScaled(s, u, Vec(-b.z, 0.0, b.x));
    DotScaled(s, u, Vec(b.y, -b.x, 0.0));
    hide Cross, Dot;
  }

  /** The transition of the covariance turns the same way: to first order by DT times the same cross product. */
  lemma TransitionTurns(w: Vec, b: Vec)
    ensures MatApply(Transition(w), b) == Minus(b, Scale(DT, Cross(w, b)))
  {
    TransitionRows(w);
  }
}
