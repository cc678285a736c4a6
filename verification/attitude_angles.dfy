/** The Euler angles of the attitude filter: the rotation they stand for is the attitude. */
module AttitudeAngles {
  import opened Linear
  import opened Quaternions

  // ---- Turns about the axes ----

  function TurnZ(c: real, s: real, v: Vec): Vec { Vec(c * v.x + s * v.y, c * v.y - s * v.x, v.z) }

  function TurnX(c: real, s: real, v: Vec): Vec { Vec(v.x, c * v.y + s * v.z, c * v.z - s * v.y) }

  function TurnY(c: real, s: real, v: Vec): Vec { Vec(c * v.x - s * v.z, v.y, c * v.z + s * v.x) }

  // ---- What the entries of the rotation have in common ----

  lemma RowPolynomial(a: real, b: real, c: real, d: real)
    ensures (2.0 * a * b - 2.0 * c * d) * (2.0 * a * b - 2.0 * c * d) + (-(a * a - b * b + c * c - d * d)) * (-(a * a - b * b + c * c - d * d))
          + (2.0 * a * d + 2.0 * b * c) * (2.0 * a * d + 2.0 * b * c) == (a * a + b * b + c * c + d * d) * (a * a + b * b + c * c + d * d)
  {
  }

  lemma Minor0X(a: real, b: real, c: real, d: real)
    ensures (-(a * a - b * b + c * c - d * d)) * (-(a * a + b * b - c * c - d * d))
          - (2.0 * a * d + 2.0 * b * c) * (-(2.0 * a * d - 2.0 * b * c))
         == (a * a + b * b + c * c + d * d) * (a * a - b * b - c * c + d * d)
  {
  }

  lemma Minor0Y(a: real, b: real, c: real, d: real)
    ensures (2.0 * a * d + 2.0 * b * c) * (2.0 * a * c + 2.0 * b * d)
          - (2.0 * a * b - 2.0 * c * d) * (-(a * a + b * b - c * c - d * d))
         == (a * a + b * b + c * c + d * d) * (2.0 * a * b + 2.0 * c * d)
  {
  }

  lemma Minor2X(a: real, b: real, c: real, d: real)
    ensures (2.0 * a * b + 2.0 * c * d) * (2.0 * a * d + 2.0 * b * c)
          - (2.0 * a * c - 2.0 * b * d) * (-(a * a - b * b + c * c - d * d))
         == (a * a + b * b + c * c + d * d) * (2.0 * a * c + 2.0 * b * d)
  {
  }

  lemma Minor2Y(a: real, b: real, c: real, d: real)
    ensures (2.0 * a * c - 2.0 * b * d) * (2.0 * a * b - 2.0 * c * d)
          - (a * a - b * b - c * c + d * d) * (2.0 * a * d + 2.0 * b * c)
         == (a * a + b * b + c * c + d * d) * (-(2.0 * a * d - 2.0 * b * c))
  {
  }

  lemma Product0Y0Y(q: Quat)
    ensures BodyAxis0(q).y * BodyAxis0(q).y
         == (2.0 * q.a * q.b - 2.0 * q.c * q.d) * (2.0 * q.a * q.b - 2.0 * q.c * q.d)
  {
    SameProduct(BodyAxis0(q).y, 2.0 * q.a * q.b - 2.0 * q.c * q.d, BodyAxis0(q).y, 2.0 * q.a * q.b - 2.0 * q.c * q.d);
  }

  lemma Product1Y1Y(q: Quat)
    ensures BodyAxis1(q).y * BodyAxis1(q).y
         == (-(q.a * q.a - q.b * q.b + q.c * q.c - q.d * q.d)) * (-(q.a * q.a - q.b * q.b + q.c * q.c - q.d * q.d))
  {
    SameProduct(BodyAxis1(q).y, -(q.a * q.a - q.b * q.b + q.c * q.c - q.d * q.d), BodyAxis1(q).y, -(q.a * q.a - q.b * q.b + q.c * q.c - q.d * q.d));
  }

  lemma Product2Y2Y(q: Quat)
    ensures BodyAxis2(q).y * BodyAxis2(q).y
         == (2.0 * q.a * q.d + 2.0 * q.b * q.c) * (2.0 * q.a * q.d + 2.0 * q.b * q.c)
  {
    SameProduct(BodyAxis2(q).y, 2.0 * q.a * q.d + 2.0 * q.b * q.c, BodyAxis2(q).y, 2.0 * q.a * q.d + 2.0 * q.b * q.c);
  }

  lemma UnitSquare(q: Quat)
    requires Norm2(q) == 1.0
    ensures (q.a * q.a + q.b * q.b + q.c * q.c + q.d * q.d) * (q.a * q.a + q.b * q.b + q.c * q.c + q.d * q.d) == 1.0
  {
    SameProduct(q.a * q.a + q.b * q.b + q.c * q.c + q.d * q.d, 1.0, q.a * q.a + q.b * q.b + q.c * q.c + q.d * q.d, 1.0);
  }

  lemma RowLength(q: Quat)
    requires Norm2(q) == 1.0
    ensures var x, y, z := BodyAxis0(q).y, BodyAxis1(q).y, BodyAxis2(q).y; x * x + y * y + z * z == 1.0
  {
    hide BodyAxis0, BodyAxis1, BodyAxis2, Norm2;
    RowPolynomial(q.a, q.b, q.c, q.d);
    UnitSquare(q);
    Product0Y0Y(q);
    Product1Y1Y(q);
    Product2Y2Y(q);
  }

  lemma Product1Y2Z(q: Quat)
    ensures BodyAxis1(q).y * BodyAxis2(q).z
         == (-(q.a * q.a - q.b * q.b + q.c * q.c - q.d * q.d)) * (-(q.a * q.a + q.b * q.b - q.c * q.c - q.d * q.d))
  {
    SameProduct(BodyAxis1(q).y, -(q.a * q.a - q.b * q.b + q.c * q.c - q.d * q.d), BodyAxis2(q).z, -(q.a * q.a + q.b * q.b - q.c * q.c - q.d * q.d));
  }

  lemma Product2Y1Z(q: Quat)
    ensures BodyAxis2(q).y * BodyAxis1(q).z
         == (2.0 * q.a * q.d + 2.0 * q.b * q.c) * (-(2.0 * q.a * q.d - 2.0 * q.b * q.c))
  {
    SameProduct(BodyAxis2(q).y, 2.0 * q.a * q.d + 2.0 * q.b * q.c, BodyAxis1(q).z, -(2.0 * q.a * q.d - 2.0 * q.b * q.c));
  }

  lemma Unit0X(q: Quat)
    requires Norm2(q) == 1.0
    ensures (q.a * q.a + q.b * q.b + q.c * q.c + q.d * q.d) * (q.a * q.a - q.b * q.b - q.c * q.c + q.d * q.d) == BodyAxis0(q).x
  {
    SameProduct(q.a * q.a + q.b * q.b + q.c * q.c + q.d * q.d, 1.0, q.a * q.a - q.b * q.b - q.c * q.c + q.d * q.d, BodyAxis0(q).x);
  }

  lemma Row0X(q: Quat)
    requires Norm2(q) == 1.0
    ensures BodyAxis1(q).y * BodyAxis2(q).z - BodyAxis2(q).y * BodyAxis1(q).z == BodyAxis0(q).x
  {
    hide BodyAxis0, BodyAxis1, BodyAxis2, Norm2;
    Minor0X(q.a, q.b, q.c, q.d);
    Product1Y2Z(q);
    Product2Y1Z(q);
    Unit0X(q);
  }

  lemma Product2Y0Z(q: Quat)
    ensures BodyAxis2(q).y * BodyAxis0(q).z
         == (2.0 * q.a * q.d + 2.0 * q.b * q.c) * (2.0 * q.a * q.c + 2.0 * q.b * q.d)
  {
    SameProduct(BodyAxis2(q).y, 2.0 * q.a * q.d + 2.0 * q.b * q.c, BodyAxis0(q).z, 2.0 * q.a * q.c + 2.0 * q.b * q.d);
  }

  lemma Product0Y2Z(q: Quat)
    ensures BodyAxis0(q).y * BodyAxis2(q).z
         == (2.0 * q.a * q.b - 2.0 * q.c * q.d) * (-(q.a * q.a + q.b * q.b - q.c * q.c - q.d * q.d))
  {
    SameProduct(BodyAxis0(q).y, 2.0 * q.a * q.b - 2.0 * q.c * q.d, BodyAxis2(q).z, -(q.a * q.a + q.b * q.b - q.c * q.c - q.d * q.d));
  }

  lemma Unit1X(q: Quat)
    requires Norm2(q) == 1.0
    ensures (q.a * q.a + q.b * q.b + q.c * q.c + q.d * q.d) * (2.0 * q.a * q.b + 2.0 * q.c * q.d) == BodyAxis1(q).x
  {
    SameProduct(q.a * q.a + q.b * q.b + q.c * q.c + q.d * q.d, 1.0, 2.0 * q.a * q.b + 2.0 * q.c * q.d, BodyAxis1(q).x);
  }

  lemma Row0Y(q: Quat)
    requires Norm2(q) == 1.0
    ensures BodyAxis2(q).y * BodyAxis0(q).z - BodyAxis0(q).y * BodyAxis2(q).z == BodyAxis1(q).x
  {
    hide BodyAxis0, BodyAxis1, BodyAxis2, Norm2;
    Minor0Y(q.a, q.b, q.c, q.d);
    Product2Y0Z(q);
    Product0Y2Z(q);
    Unit1X(q);
  }

  lemma Product1X2Y(q: Quat)
    ensures BodyAxis1(q).x * BodyAxis2(q).y
         == (2.0 * q.a * q.b + 2.0 * q.c * q.d) * (2.0 * q.a * q.d + 2.0 * q.b * q.c)
  {
    SameProduct(BodyAxis1(q).x, 2.0 * q.a * q.b + 2.0 * q.c * q.d, BodyAxis2(q).y, 2.0 * q.a * q.d + 2.0 * q.b * q.c);
  }

  lemma Product2X1Y(q: Quat)
    ensures BodyAxis2(q).x * BodyAxis1(q).y
         == (2.0 * q.a * q.c - 2.0 * q.b * q.d) * (-(q.a * q.a - q.b * q.b + q.c * q.c - q.d * q.d))
  {
    SameProduct(BodyAxis2(q).x, 2.0 * q.a * q.c - 2.0 * q.b * q.d, BodyAxis1(q).y, -(q.a * q.a - q.b * q.b + q.c * q.c - q.d * q.d));
  }

  lemma Unit0Z(q: Quat)
    requires Norm2(q) == 1.0
    ensures (q.a * q.a + q.b * q.b + q.c * q.c + q.d * q.d) * (2.0 * q.a * q.c + 2.0 * q.b * q.d) == BodyAxis0(q).z
  {
    SameProduct(q.a * q.a + q.b * q.b + q.c * q.c + q.d * q.d, 1.0, 2.0 * q.a * q.c + 2.0 * q.b * q.d, BodyAxis0(q).z);
  }

  lemma Row2X(q: Quat)
    requires Norm2(q) == 1.0
    ensures BodyAxis1(q).x * BodyAxis2(q).y - BodyAxis2(q).x * BodyAxis1(q).y == BodyAxis0(q).z
  {
    hide BodyAxis0, BodyAxis1, BodyAxis2, Norm2;
    Minor2X(q.a, q.b, q.c, q.d);
    Product1X2Y(q);
    Product2X1Y(q);
    Unit0Z(q);
  }

  lemma Product2X0Y(q: Quat)
    ensures BodyAxis2(q).x * BodyAxis0(q).y
         == (2.0 * q.a * q.c - 2.0 * q.b * q.d) * (2.0 * q.a * q.b - 2.0 * q.c * q.d)
  {
    SameProduct(BodyAxis2(q).x, 2.0 * q.a * q.c - 2.0 * q.b * q.d, BodyAxis0(q).y, 2.0 * q.a * q.b - 2.0 * q.c * q.d);
  }

  lemma Product0X2Y(q: Quat)
    ensures BodyAxis0(q).x * BodyAxis2(q).y
         == (q.a * q.a - q.b * q.b - q.c * q.c + q.d * q.d) * (2.0 * q.a * q.d + 2.0 * q.b * q.c)
  {
    SameProduct(BodyAxis0(q).x, q.a * q.a - q.b * q.b - q.c * q.c + q.d * q.d, BodyAxis2(q).y, 2.0 * q.a * q.d + 2.0 * q.b * q.c);
  }

  lemma Unit1Z(q: Quat)
    requires Norm2(q) == 1.0
    ensures (q.a * q.a + q.b * q.b + q.c * q.c + q.d * q.d) * (-(2.0 * q.a * q.d - 2.0 * q.b * q.c)) == BodyAxis1(q).z
  {
    SameProduct(q.a * q.a + q.b * q.b + q.c * q.c + q.d * q.d, 1.0, -(2.0 * q.a * q.d - 2.0 * q.b * q.c), BodyAxis1(q).z);
  }

  lemma Row2Y(q: Quat)
    requires Norm2(q) == 1.0
    ensures BodyAxis2(q).x * BodyAxis0(q).y - BodyAxis0(q).x * BodyAxis2(q).y == BodyAxis1(q).z
  {
    hide BodyAxis0, BodyAxis1, BodyAxis2, Norm2;
    Minor2Y(q.a, q.b, q.c, q.d);
    Product2X0Y(q);
    Product0X2Y(q);
    Unit1Z(q);
  }

  // ---- The rotation from its angles ----

  /** Cosines and sines of yaw, pitch and roll. */
  datatype Angles = Angles(cz: real, sz: real, cx: real, sx: real, cy: real, sy: real)

  /** The turn about Z, then the one about X, then the one about Y. */
  function TurnAll(g: Angles, v: Vec): Vec { TurnY(g.cy, g.sy, TurnX(g.cx, g.sx, TurnZ(g.cz, g.sz, v))) }

  /** The five entries the angles are taken from. */
  predicate TakenFrom(g: Angles, q: Quat) {
    && g.cx > 0.0 && g.cx * g.cx + g.sx * g.sx == 1.0
    && BodyAxis0(q).y == -(g.cx * g.sz) && BodyAxis1(q).y == g.cx * g.cz && BodyAxis2(q).y == g.sx
    && BodyAxis2(q).x == -(g.cx * g.sy) && BodyAxis2(q).z == g.cx * g.cy
  }

  lemma Reduced(k: real, n: real, a: real, b: real, p: real, r: real)
    requires k > 0.0 && k + n * n == 1.0
    requires p == k * a - n * r && r == k * b - p * n
    ensures p == a - n * b && r == b - a * n
  {
    SubstitutedP(k, n, a, b, p, r);
    CancelFactor(p, a - n * b, k);
    SubstitutedR(k, n, a, b);
  }

  lemma SubstitutedP(k: real, n: real, a: real, b: real, p: real, r: real)
    requires k == 1.0 - n * n
    requires p == k * a - n * r && r == k * b - p * n
    ensures p * k == (a - n * b) * k
  {
    SameProduct(n, n, r, k * b - p * n);
    assert p == k * a - n * (k * b - p * n);
    SameProduct(p, p, k, 1.0 - n * n);
    assert p * (1.0 - n * n) == p - p * (n * n);
  }

  lemma SubstitutedR(k: real, n: real, a: real, b: real)
    requires k == 1.0 - n * n
    ensures k * b - (a - n * b) * n == b - a * n
  {
    SameProduct(k, 1.0 - n * n, b, b);
  }

  lemma Factors(k: real, x: real, y: real, s: real, c: real) returns (m: real)
    requires x == k * s && y == k * c
    ensures m == s * c && x * y == k * k * m && (-x) * y == k * k * -m && (-x) * (-y) == k * k * m
  {
    m := s * c;
  }

  /** The other entries of the first two columns. */
  lemma OtherEntries(g: Angles, q: Quat)
    requires Norm2(q) == 1.0 && TakenFrom(g, q)
    ensures BodyAxis0(q).x == g.cz * g.cy - g.sx * (g.sz * g.sy) && BodyAxis1(q).z == g.sz * g.sy - g.cz * g.cy * g.sx
    ensures BodyAxis1(q).x == g.sz * g.cy - g.sx * -(g.cz * g.sy) && -BodyAxis0(q).z == -(g.cz * g.sy) - g.sz * g.cy * g.sx
  {
    hide BodyAxis0, BodyAxis1, BodyAxis2, Norm2;
    Row0X(q);
    Row0Y(q);
    Row2X(q);
    Row2Y(q);
    var b0, b1, b2 := BodyAxis0(q), BodyAxis1(q), BodyAxis2(q);
    var k := PositiveProduct(g.cx, g.cx);
    FirstPair(g, b0, b1, b2, k);
    SecondPair(g, b0, b1, b2, k);
  }

  lemma FirstPair(g: Angles, b0: Vec, b1: Vec, b2: Vec, k: real)
    requires k == g.cx * g.cx && k > 0.0 && k + g.sx * g.sx == 1.0
    requires b0.y == -(g.cx * g.sz) && b1.y == g.cx * g.cz && b2.y == g.sx && b2.x == -(g.cx * g.sy) && b2.z == g.cx * g.cy
    requires b1.y * b2.z - b2.y * b1.z == b0.x && b2.x * b0.y - b0.x * b2.y == b1.z
    ensures b0.x == g.cz * g.cy - g.sx * (g.sz * g.sy) && b1.z == g.sz * g.sy - g.cz * g.cy * g.sx
  {
    var a := Factors(g.cx, b1.y, b2.z, g.cz, g.cy);
    var b := Factors(g.cx, -b0.y, -b2.x, g.sz, g.sy);
    Reduced(k, g.sx, a, b, b0.x, b1.z);
  }

  lemma SecondPair(g: Angles, b0: Vec, b1: Vec, b2: Vec, k: real)
    requires k == g.cx * g.cx && k > 0.0 && k + g.sx * g.sx == 1.0
    requires b0.y == -(g.cx * g.sz) && b1.y == g.cx * g.cz && b2.y == g.sx && b2.x == -(g.cx * g.sy) && b2.z == g.cx * g.cy
    requires b2.y * b0.z - b0.y * b2.z == b1.x && b1.x * b2.y - b2.x * b1.y == b0.z
    ensures b1.x == g.sz * g.cy - g.sx * -(g.cz * g.sy) && -b0.z == -(g.cz * g.sy) - g.sz * g.cy * g.sx
  {
    var a := Factors(g.cx, -b0.y, b2.z, g.sz, g.cy);
    var b := Factors(g.cx, b1.y, -b2.x, g.cz, g.sy);
    Reduced(k, g.sx, a, -b, b1.x, -b0.z);
  }

  // ---- Putting the turns together ----

  lemma AllX(cz: real, sz: real, cx: real, sx: real, cy: real, sy: real, x: real, y: real, z: real)
    ensures x * (cz * cy - sx * (sz * sy)) + (y * (sz * cy - sx * -(cz * sy)) + z * -(cx * sy))
         == cy * (cz * x + sz * y) - sy * (cx * z - sx * (cz * y - sz * x))
  {
  }

  lemma AllY(cz: real, sz: real, cx: real, sx: real, x: real, y: real, z: real)
    ensures x * -(cx * sz) + (y * (cx * cz) + z * sx) == cx * (cz * y - sz * x) + sx * z
  {
  }

  lemma AllZ(cz: real, sz: real, cx: real, sx: real, cy: real, sy: real, x: real, y: real, z: real)
    ensures x * (cz * sy + sz * cy * sx) + (y * (sz * sy - cz * cy * sx) + z * (cx * cy))
         == cy * (cx * z - sx * (cz * y - sz * x)) + sy * (cz * x + sz * y)
  {
  }

  function Columns(g: Angles): Mat {
    Mat(Vec(g.cz * g.cy - g.sx * (g.sz * g.sy), -(g.cx * g.sz), g.cz * g.sy + g.sz * g.cy * g.sx),
        Vec(g.sz * g.cy - g.sx * -(g.cz * g.sy), g.cx * g.cz, g.sz * g.sy - g.cz * g.cy * g.sx),
        Vec(-(g.cx * g.sy), g.sx, g.cx * g.cy))
  }

  lemma TurnAllX(g: Angles, v: Vec)
    ensures TurnAll(g, v).x == g.cy * (g.cz * v.x + g.sz * v.y) - g.sy * (g.cx * v.z - g.sx * (g.cz * v.y - g.sz * v.x))
  {
    var u := TurnZ(g.cz, g.sz, v);
    var w := TurnX(g.cx, g.sx, u);
    SameProduct(g.sx, g.sx, u.y, g.cz * v.y - g.sz * v.x);
    SameProduct(g.cy, g.cy, w.x, g.cz * v.x + g.sz * v.y);
    SameProduct(g.sy, g.sy, w.z, g.cx * v.z - g.sx * (g.cz * v.y - g.sz * v.x));
  }

  lemma ColumnsRowX(g: Angles, v: Vec)
    ensures RowTimes(v, Columns(g)).x ==
            v.x * (g.cz * g.cy - g.sx * (g.sz * g.sy)) + (v.y * (g.sz * g.cy - g.sx * -(g.cz * g.sy)) + v.z * (-(g.cx * g.sy)))
  {
    var m := Columns(g);
    SameProduct(v.x, v.x, m.r0.x, g.cz * g.cy - g.sx * (g.sz * g.sy));
    SameProduct(v.y, v.y, m.r1.x, g.sz * g.cy - g.sx * -(g.cz * g.sy));
    SameProduct(v.z, v.z, m.r2.x, -(g.cx * g.sy));
  }

  lemma ColumnsX(g: Angles, v: Vec)
    ensures RowTimes(v, Columns(g)).x == TurnAll(g, v).x
  {
    hide *;
    TurnAllX(g, v);
    ColumnsRowX(g, v);
    AllX(g.cz, g.sz, g.cx, g.sx, g.cy, g.sy, v.x, v.y, v.z);
  }

  lemma TurnAllY(g: Angles, v: Vec)
    ensures TurnAll(g, v).y == g.cx * (g.cz * v.y - g.sz * v.x) + g.sx * v.z
  {
    var u := TurnZ(g.cz, g.sz, v);
    var w := TurnX(g.cx, g.sx, u);
    SameProduct(g.cx, g.cx, u.y, g.cz * v.y - g.sz * v.x);
  }

  lemma ColumnsRowY(g: Angles, v: Vec)
    ensures RowTimes(v, Columns(g)).y ==
            v.x * (-(g.cx * g.sz)) + (v.y * (g.cx * g.cz) + v.z * (g.sx))
  {
    var m := Columns(g);
    SameProduct(v.x, v.x, m.r0.y, -(g.cx * g.sz));
    SameProduct(v.y, v.y, m.r1.y, g.cx * g.cz);
    SameProduct(v.z, v.z, m.r2.y, g.sx);
  }

  lemma ColumnsY(g: Angles, v: Vec)
    ensures RowTimes(v, Columns(g)).y == TurnAll(g, v).y
  {
    hide *;
    TurnAllY(g, v);
    ColumnsRowY(g, v);
    AllY(g.cz, g.sz, g.cx, g.sx, v.x, v.y, v.z);
  }

  lemma TurnAllZ(g: Angles, v: Vec)
    ensures TurnAll(g, v).z == g.cy * (g.cx * v.z - g.sx * (g.cz * v.y - g.sz * v.x)) + g.sy * (g.cz * v.x + g.sz * v.y)
  {
    var u := TurnZ(g.cz, g.sz, v);
    var w := TurnX(g.cx, g.sx, u);
    SameProduct(g.sx, g.sx, u.y, g.cz * v.y - g.sz * v.x);
    SameProduct(g.cy, g.cy, w.z, g.cx * v.z - g.sx * (g.cz * v.y - g.sz * v.x));
    SameProduct(g.sy, g.sy, w.x, g.cz * v.x + g.sz * v.y);
  }

  lemma ColumnsRowZ(g: Angles, v: Vec)
    ensures RowTimes(v, Columns(g)).z ==
            v.x * (g.cz * g.sy + g.sz * g.cy * g.sx) + (v.y * (g.sz * g.sy - g.cz * g.cy * g.sx) + v.z * (g.cx * g.cy))
  {
    var m := Columns(g);
    SameProduct(v.x, v.x, m.r0.z, g.cz * g.sy + g.sz * g.cy * g.sx);
    SameProduct(v.y, v.y, m.r1.z, g.sz * g.sy - g.cz * g.cy * g.sx);
    SameProduct(v.z, v.z, m.r2.z, g.cx * g.cy);
  }

  lemma ColumnsZ(g: Angles, v: Vec)
    ensures RowTimes(v, Columns(g)).z == TurnAll(g, v).z
  {
    hide *;
    TurnAllZ(g, v);
    ColumnsRowZ(g, v);
    AllZ(g.cz, g.sz, g.cx, g.sx, g.cy, g.sy, v.x, v.y, v.z);
  }

  lemma ColumnsTurn(g: Angles, v: Vec)
    ensures RowTimes(v, Columns(g)) == TurnAll(g, v)
  {
    hide *;
    ColumnsX(g, v);
    ColumnsY(g, v);
    ColumnsZ(g, v);
  }

  /** The rotation of a unit quaternion is the turn through yaw about Z, then pitch about X, then roll about Y, for the
      angles taken from it, unless the pitch is a right angle. */
  lemma AnglesRotate(g: Angles, q: Quat, v: Vec)
    requires Norm2(q) == 1.0 && TakenFrom(g, q)
    ensures RotateToBody(q, v) == TurnAll(g, v)
  {
    hide BodyAxis0, BodyAxis1, BodyAxis2, Norm2, TurnAll, RowTimes;
    OtherEntries(g, q);
    assert Mat(BodyAxis0(q), BodyAxis1(q), BodyAxis2(q)) == Columns(g);
    ColumnsTurn(g, v);
  }
}