/** The state and the two steps of the attitude filter of SubAttitudeResolver.cpp. */
module AttitudeFilters {
  import opened Linear
  import opened KalmanMath
  import opened KalmanOrder
  import opened AttitudeAngles
  import opened AttitudeTurns
  import opened Quaternions

  // ---- The mathematical library ----

  /** The library functions the filter calls; all that is used of them is `Sound`. */
  datatype MathLib = MathLib(sqrt: real -> real, sin: real -> real, cos: real -> real, asin: real -> real,
                             atan2: (real, real) -> real)

  ghost predicate Sound(m: MathLib) {
    && (forall x :: x >= 0.0 ==> m.sqrt(x) >= 0.0 && m.sqrt(x) * m.sqrt(x) == x)
    && (forall x :: m.cos(x) * m.cos(x) + m.sin(x) * m.sin(x) == 1.0)
    && (forall x :: 0.0 < x <= 1.0 ==> 0.0 < m.sin(x) <= x && 0.0 < m.cos(x))
    && (forall x :: -1.0 <= x <= 1.0 ==> m.sin(m.asin(x)) == x && m.cos(m.asin(x)) >= 0.0)
    && (forall y, x :: y != 0.0 || x != 0.0 ==>
          m.sqrt(y * y + x * x) * m.sin(m.atan2(y, x)) == y && m.sqrt(y * y + x * x) * m.cos(m.atan2(y, x)) == x)
  }

  lemma ZeroTimes(x: real, y: real) returns (z: real)
    requires x == 0.0
    ensures z == x * y && z == 0.0
  {
    z := x * y;
  }

  lemma TimesMonotone(k: real, x: real, y: real)
    requires k >= 0.0 && x <= y
    ensures k * x <= k * y
  {
  }

  lemma RootPositive(m: MathLib, x: real)
    requires Sound(m) && x > 0.0
    ensures m.sqrt(x) > 0.0 && m.sqrt(x) * m.sqrt(x) == x
  {
    var r := m.sqrt(x);
    if r <= 0.0 { var z := ZeroTimes(r, r); }
  }

  lemma RootOfOne(m: MathLib)
    requires Sound(m)
    ensures m.sqrt(1.0) == 1.0
  {
    var r := m.sqrt(1.0);
    if r < 1.0 { TimesMonotone(r, r, 1.0); } else if r > 1.0 { TimesMonotone(r, 1.0, r); }
  }

  // ---- Normalising ----

  function Unit(m: MathLib, v: Vec): Vec
    requires m.sqrt(Dot(v, v)) != 0.0
  {
    var k := m.sqrt(Dot(v, v));
    Vec(v.x / k, v.y / k, v.z / k)
  }

  lemma Quotient(x: real, k: real) returns (d: real)
    requires k != 0.0
    ensures d == x / k && x == d * k
  {
    d := x / k;
  }

  lemma UnitLength(m: MathLib, v: Vec)
    requires Sound(m) && NonZero(v)
    ensures m.sqrt(Dot(v, v)) > 0.0 && Dot(Unit(m, v), Unit(m, v)) == 1.0 && v == Scale(m.sqrt(Dot(v, v)), Unit(m, v))
  {
    SquarePositive(v);
    RootPositive(m, Dot(v, v));
    var k := m.sqrt(Dot(v, v));
    var x := Quotient(v.x, k);
    var y := Quotient(v.y, k);
    var z := Quotient(v.z, k);
    ScaledLength(k, x, y, z, Dot(v, v));
  }

  /** The divisor of the normalisation is zero exactly for the zero vector. */
  lemma MagnitudeZero(m: MathLib, v: Vec)
    requires Sound(m)
    ensures m.sqrt(Dot(v, v)) == 0.0 <==> !NonZero(v)
  {
    if NonZero(v) {
      UnitLength(m, v);
    } else {
      var d := ZeroTimes(v.x, v.x);
      var e := ZeroTimes(v.y, v.y);
      var f := ZeroTimes(v.z, v.z);
      var r := m.sqrt(0.0);
      assert r >= 0.0 && r * r == 0.0;
      if r > 0.0 { var g := PositiveProduct(r, r); }
    }
  }

  lemma ScaledLength(k: real, x: real, y: real, z: real, n: real)
    requires k > 0.0 && n > 0.0 && k * k == n
    requires n == (x * k) * (x * k) + (y * k) * (y * k) + (z * k) * (z * k)
    ensures x * x + y * y + z * z == 1.0
  {
    var u := x * x + y * y + z * z;
    assert (x * k) * (x * k) + (y * k) * (y * k) + (z * k) * (z * k) == u * (k * k);
    CancelFactor(u, 1.0, n);
  }

  lemma DividedNorm(q: Quat, k: real)
    requires k > 0.0 && Norm2(q) > 0.0 && k * k == Norm2(q)
    ensures Norm2(Divided(q, k)) == 1.0
  {
    var a := Quotient(q.a, k);
    var b := Quotient(q.b, k);
    var c := Quotient(q.c, k);
    var d := Quotient(q.d, k);
    var u, n := a * a + b * b + c * c + d * d, Norm2(q);
    assert n == (a * k) * (a * k) + (b * k) * (b * k) + (c * k) * (c * k) + (d * k) * (d * k);
    assert (a * k) * (a * k) + (b * k) * (b * k) + (c * k) * (c * k) + (d * k) * (d * k) == u * (k * k);
    CancelFactor(u, 1.0, n);
  }

  lemma DividedByOne(q: Quat)
    ensures Divided(q, 1.0) == q
  {
  }

  // ---- One step ----

  const MIN_RATE: real := 0.0001745329251994330

  /** The vector part of the rotation during one time step. */
  function Psi(m: MathLib, w: Vec, wMag: real): Vec
    requires wMag != 0.0
  {
    var s := m.sin(wMag * DT * 0.5);
    Vec(s * w.x / wMag, s * w.y / wMag, s * w.z / wMag)
  }

  lemma PsiLength(m: MathLib, w: Vec, wMag: real)
    requires wMag > 0.0 && wMag * wMag == Dot(w, w)
    ensures var s := m.sin(wMag * DT * 0.5); Dot(Psi(m, w, wMag), Psi(m, w, wMag)) == s * s
  {
    var s := m.sin(wMag * DT * 0.5);
    var x := Quotient(s * w.x, wMag);
    var y := Quotient(s * w.y, wMag);
    var z := Quotient(s * w.z, wMag);
    PsiParts(s, w.x, w.y, w.z, wMag, x, y, z);
  }

  lemma PsiParts(s: real, a: real, b: real, c: real, k: real, x: real, y: real, z: real)
    requires k > 0.0 && k * k == a * a + b * b + c * c
    requires s * a == x * k && s * b == y * k && s * c == z * k
    ensures x * x + y * y + z * z == s * s
  {
    var u := x * x + y * y + z * z;
    var kk := PositiveProduct(k, k);
    assert u * kk == (x * k) * (x * k) + (y * k) * (y * k) + (z * k) * (z * k);
    assert (s * a) * (s * a) + (s * b) * (s * b) + (s * c) * (s * c) == (s * s) * (a * a + b * b + c * c);
    CancelFactor(u, s * s, kk);
  }

  /** The quaternion after a propagation, before it is normalised. */
  function Propagated(m: MathLib, q: Quat, w: Vec, wMag: real): Quat
    requires wMag != 0.0
  {
    Turn(q, m.cos(wMag * DT * 0.5), Psi(m, w, wMag))
  }

  /** Propagation preserves the norm on its own. */
  lemma PropagatedNorm(m: MathLib, q: Quat, w: Vec, wMag: real)
    requires Sound(m) && wMag > 0.0 && wMag * wMag == Dot(w, w)
    ensures Norm2(Propagated(m, q, w, wMag)) == Norm2(q)
  {
    hide Dot, Norm2, Psi, Turn;
    var th := wMag * DT * 0.5;
    PsiLength(m, w, wMag);
    TurnNorm(q, m.cos(th), Psi(m, w, wMag));
    assert m.cos(th) * m.cos(th) + m.sin(th) * m.sin(th) == 1.0;
  }

  /** The rates at length one. */
  function Over(w: Vec, wMag: real): Vec
    requires wMag != 0.0
  {
    Vec(w.x / wMag, w.y / wMag, w.z / wMag)
  }

  lemma OverLength(w: Vec, wMag: real)
    requires wMag > 0.0 && wMag * wMag == Dot(w, w)
    ensures Dot(Over(w, wMag), Over(w, wMag)) == 1.0 && w == Scale(wMag, Over(w, wMag))
  {
    var x := Quotient(w.x, wMag);
    var y := Quotient(w.y, wMag);
    var z := Quotient(w.z, wMag);
    SquarePositive(w);
    var kk := PositiveProduct(wMag, wMag);
    ScaledLength(wMag, x, y, z, Dot(w, w));
  }

  lemma PsiIsScaled(m: MathLib, w: Vec, wMag: real)
    requires wMag > 0.0
    ensures Psi(m, w, wMag) == Scale(m.sin(wMag * DT * 0.5), Over(w, wMag))
  {
    var s := m.sin(wMag * DT * 0.5);
    ProductOver(s, w.x, wMag);
    ProductOver(s, w.y, wMag);
    ProductOver(s, w.z, wMag);
  }

  lemma ProductOver(s: real, x: real, k: real)
    requires k != 0.0
    ensures s * x / k == s * (x / k)
  {
    var q := Quotient(x, k);
    assert s * x == (s * q) * k;
  }

  /** What a propagation makes of the prediction `b` from the attitude before: it is seen from a frame turned by the
      rates, through `wMag` times the time step. */
  function Swept(m: MathLib, w: Vec, wMag: real, b: Vec): Vec
    requires wMag != 0.0
  {
    Rotated(b, Over(w, wMag), m.cos(wMag * DT * 0.5), m.sin(wMag * DT * 0.5))
  }

  lemma PropagationTurns(m: MathLib, q: Quat, w: Vec, wMag: real, y: Vec)
    requires wMag > 0.0 && wMag * wMag == Dot(w, w)
    ensures RotateToBody(Propagated(m, q, w, wMag), y) == Swept(m, w, wMag, RotateToBody(q, y))
  {
    OverLength(w, wMag);
    PsiIsScaled(m, w, wMag);
    hide RotateToBody, Turn, Turned, Psi, Over, Dot, Rotated;
    var c, s := m.cos(wMag * DT * 0.5), m.sin(wMag * DT * 0.5);
    TurnTurns(q, c, Psi(m, w, wMag), y);
    TurnedByUnit(RotateToBody(q, y), Over(w, wMag), c, s);
  }

  lemma AtMostOne(c: real, s: real)
    requires c * c + s * s == 1.0
    ensures c <= 1.0
  {
    SquareSign(s);
    if c > 1.0 { TimesMonotone(c, 1.0, c); }
  }

  lemma HalfSines(c: real, s: real, h: real) returns (a: real)
    requires 0.0 < c <= 1.0 && 0.0 < s <= h
    ensures a == 2.0 * c * s && 0.0 < a <= 2.0 * h
  {
    var p := PositiveProduct(c, s);
    TimesMonotone(s, c, 1.0);
    a := 2.0 * p;
  }

  lemma QuotientBounds(a: real, k: real, d: real) returns (q: real)
    requires k > 0.0 && 0.0 < a <= d * k
    ensures a == q * k && 0.0 < q <= d
  {
    q := Quotient(a, k);
    if q <= 0.0 { TimesMonotone(k, q, 0.0); }
    if q > d { TimesMonotone(k, d, q); CancelFactor(q, d, k); }
  }

  lemma ScaleTwice(k: real, n: real, v: Vec)
    ensures Scale(k, Scale(n, v)) == Scale(k * n, v)
  {
  }

  lemma SweptAmount(m: MathLib, wMag: real) returns (k: real)
    requires Sound(m) && 0.0 < wMag <= 200.0
    ensures 0.0 < k <= DT && 2.0 * m.cos(wMag * DT * 0.5) * m.sin(wMag * DT * 0.5) == k * wMag
  {
    var h := wMag * DT * 0.5;
    AtMostOne(m.cos(h), m.sin(h));
    var a := HalfSines(m.cos(h), m.sin(h), h);
    k := QuotientBounds(a, wMag, DT);
  }

  lemma SweptCross(w: Vec, u: Vec, wMag: real, b: Vec, a: real, k: real)
    requires w == Scale(wMag, u) && a == k * wMag
    ensures Scale(a, Cross(u, b)) == Scale(k, Cross(w, b))
  {
    CrossScaled(wMag, u, b);
    ScaleTwice(k, wMag, Cross(u, b));
    hide Cross, Scale;
  }

  /** The cross product that makes up the first order of a propagation: a positive multiple of that of the rates, at most
      the time step, the multiple in the transition of the covariance. */
  lemma SweptFirstOrder(m: MathLib, w: Vec, wMag: real, b: Vec) returns (k: real)
    requires Sound(m) && 0.0 < wMag <= 200.0 && wMag * wMag == Dot(w, w)
    ensures var c, s := m.cos(wMag * DT * 0.5), m.sin(wMag * DT * 0.5);
            0.0 < k <= DT && Scale(2.0 * c * s, Cross(Over(w, wMag), b)) == Scale(k, Cross(w, b))
    ensures MatApply(Transition(w), b) == Minus(b, Scale(DT, Cross(w, b)))
  {
    k := SweptAmount(m, wMag);
    hide Cross, Scale, Over, Transition, MatApply, Dot, Sound;
    OverLength(w, wMag);
    TransitionTurns(w, b);
    SweptCross(w, Over(w, wMag), wMag, b, 2.0 * m.cos(wMag * DT * 0.5) * m.sin(wMag * DT * 0.5), k);
  }

  /** The quaternion after an update, before it is normalised. */
  function Corrected(q: Quat, k: Mat, residual: Vec): Quat {
    Turn(q, 1.0, Scale(0.5, Vec(Dot(k.r0, residual), Dot(k.r1, residual), Dot(k.r2, residual))))
  }

  /** An update can only lengthen the quaternion, so normalising never divides by zero. */
  lemma CorrectedNorm(q: Quat, k: Mat, residual: Vec)
    requires Norm2(q) == 1.0
    ensures var dq := Scale(0.5, Vec(Dot(k.r0, residual), Dot(k.r1, residual), Dot(k.r2, residual)));
            Norm2(Corrected(q, k, residual)) == 1.0 + Dot(dq, dq) >= 1.0
  {
    hide Dot, Norm2, Turn, Scale;
    var dq := Scale(0.5, Vec(Dot(k.r0, residual), Dot(k.r1, residual), Dot(k.r2, residual)));
    TurnNorm(q, 1.0, dq);
    SquarePositive(dq);
  }

  // ---- The filter ----

  /** The vector and the symmetric matrix an array holds. */
  function VecOf(a: array<real>): Vec
    requires a.Length == 3
    reads a
  {
    Vec(a[0], a[1], a[2])
  }

  function SymOf(a: array<real>): Sym
    requires a.Length == 6
    reads a
  {
    Sym(a[0], a[1], a[2], a[3], a[4], a[5])
  }

  method StoreVec(a: array<real>, v: Vec)
    requires a.Length == 3
    modifies a
    ensures VecOf(a) == v
  {
    a[0], a[1], a[2] := v.x, v.y, v.z;
  }

  method StoreSym(a: array<real>, s: Sym)
    requires a.Length == 6
    modifies a
    ensures SymOf(a) == s
  {
    a[0], a[1], a[2], a[3], a[4], a[5] := s.a, s.b, s.c, s.d, s.e, s.f;
  }

  /** Yaw, pitch and roll in terms of the rotation `KalmanUpdate` predicts the measurements with. */
  ghost predicate AnglesOf(m: MathLib, t: Quat, yaw: real, pitch: real, roll: real) {
    var (x, y, z) := (BodyAxis0(t), BodyAxis1(t), BodyAxis2(t));
    yaw == m.atan2(-x.y, y.y) && pitch == m.asin(z.y) && roll == m.atan2(-z.x, z.z)
  }

  lemma SquaresApart(x: real, y: real)
    ensures (y - x) * (y + x) == y * y - x * x
  {
  }

  lemma SameSquare(r: real, c: real)
    requires r >= 0.0 && c > 0.0 && r * r == c * c
    ensures r == c
  {
    SquaresApart(r, c);
    SquaresApart(c, r);
    if r < c {
      var p := PositiveProduct(c - r, c + r);
    } else if r > c {
      var p := PositiveProduct(r - c, r + c);
    }
  }

  /** The arc tangent of two legs is their angle. */
  lemma ArcTangent(m: MathLib, y: real, x: real, c: real)
    requires Sound(m) && c > 0.0 && y * y + x * x == c * c
    ensures c * m.sin(m.atan2(y, x)) == y && c * m.cos(m.atan2(y, x)) == x
  {
    var r := m.sqrt(y * y + x * x);
    var e := PositiveProduct(c, c);
    assert r * r == y * y + x * x;
    SameSquare(r, c);
    assert y != 0.0 || x != 0.0;
  }

  lemma CosinePositive(c: real, s: real)
    requires c >= 0.0 && c * c + s * s == 1.0 && -1.0 < s < 1.0
    ensures c > 0.0
  {
    SquaresApart(s, 1.0);
    var p := PositiveProduct(1.0 - s, 1.0 + s);
    assert c * c == p;
    if c <= 0.0 { var z := ZeroTimes(c, c); }
  }

  lemma ArcSine(m: MathLib, s: real)
    requires Sound(m) && -1.0 < s < 1.0
    ensures var a := m.asin(s); m.sin(a) == s && m.cos(a) > 0.0 && m.cos(a) * m.cos(a) + s * s == 1.0
  {
    var a := m.asin(s);
    assert m.cos(a) * m.cos(a) + m.sin(a) * m.sin(a) == 1.0;
    CosinePositive(m.cos(a), s);
  }

  /** The legs of the angles in the second row and the third column. */
  lemma Legs(q: Quat, c: real)
    requires Norm2(q) == 1.0 && c * c + BodyAxis2(q).y * BodyAxis2(q).y == 1.0
    ensures var (x, y, z) := (BodyAxis0(q), BodyAxis1(q), BodyAxis2(q));
            (-x.y) * (-x.y) + y.y * y.y == c * c && (-z.x) * (-z.x) + z.z * z.z == c * c
  {
    RowLength(q);
    Axes22(q);
    var e := UnitTimes(Norm2(q));
    hide BodyAxis0, BodyAxis1, BodyAxis2, Norm2;
  }

  lemma UnitTimes(n: real) returns (e: real)
    requires n == 1.0
    ensures e == n * n == 1.0
  {
    e := n * n;
  }

  /** Yaw, pitch and roll say what the attitude is: what it predicts is the reference vector turned through yaw about Z,
      then pitch about X, then roll about Y, unless the pitch is a right angle. */
  lemma AnglesAreAttitude(m: MathLib, t: Quat, yaw: real, pitch: real, roll: real, v: Vec)
    requires Sound(m) && Norm2(t) == 1.0 && AnglesOf(m, t, yaw, pitch, roll) && -1.0 < R23(t) < 1.0
    ensures RotateToBody(t, v) ==
            TurnY(m.cos(roll), m.sin(roll), TurnX(m.cos(pitch), m.sin(pitch), TurnZ(m.cos(yaw), m.sin(yaw), v)))
  {
    hide BodyAxis0, BodyAxis1, BodyAxis2, Norm2, R13, R21, R22, R23, R33, RotateToBody, TurnX, TurnY, TurnZ, Sound;
    AngleEntries(t);
    AnglesTaken(m, t, yaw, pitch, roll);
    AnglesRotate(Angles(m.cos(yaw), m.sin(yaw), m.cos(pitch), m.sin(pitch), m.cos(roll), m.sin(roll)), t, v);
  }

  lemma AnglesTaken(m: MathLib, t: Quat, yaw: real, pitch: real, roll: real)
    requires Sound(m) && Norm2(t) == 1.0 && AnglesOf(m, t, yaw, pitch, roll) && -1.0 < BodyAxis2(t).y < 1.0
    ensures TakenFrom(Angles(m.cos(yaw), m.sin(yaw), m.cos(pitch), m.sin(pitch), m.cos(roll), m.sin(roll)), t)
  {
    hide BodyAxis0, BodyAxis1, BodyAxis2, Norm2, Sound;
    var c, x, y, z := m.cos(pitch), BodyAxis0(t), BodyAxis1(t), BodyAxis2(t);
    ArcSine(m, z.y);
    Legs(t, c);
    ArcTangent(m, -x.y, y.y, c);
    ArcTangent(m, -z.x, z.z, c);
  }

  /** Every reference vector is seen after a propagation as from a frame turned by the rates, above the minimal rate. */
  ghost predicate SweptBy(m: MathLib, w: Vec, t: Quat, t': Quat) {
    var wMag := m.sqrt(Dot(w, w));
    forall y :: RotateToBody(t', y) ==
                if wMag > MIN_RATE then Swept(m, w, wMag, RotateToBody(t, y)) else RotateToBody(t, y)
  }

  lemma SweptIsSwept(m: MathLib, w: Vec, t: Quat)
    requires Sound(m)
    ensures var wMag := m.sqrt(Dot(w, w));
            SweptBy(m, w, t, if wMag > MIN_RATE then Propagated(m, t, w, wMag) else t)
  {
    var wMag := m.sqrt(Dot(w, w));
    RootSquares(m, w);
    hide RotateToBody, Propagated, Swept, Dot, Sound;
    if wMag > MIN_RATE {
      forall y ensures RotateToBody(Propagated(m, t, w, wMag), y) == Swept(m, w, wMag, RotateToBody(t, y)) {
        PropagationTurns(m, t, w, wMag, y);
      }
    }
  }

  lemma RootSquares(m: MathLib, w: Vec)
    requires Sound(m)
    ensures var wMag := m.sqrt(Dot(w, w)); wMag >= 0.0 && wMag * wMag == Dot(w, w)
  {
    hide Dot;
    SquarePositive(w);
  }

  /** All predictions move by the rotation `g`, and that of the reference vector, `ry`, to first order towards the
      measurement, no further than the residual, and not at all only if the residual is along the prediction. */
  ghost predicate TurnedTowards(t: Quat, t': Quat, ry: Vec, g: Vec, residual: Vec) {
    && (forall y :: MovedBy(RotateToBody(t, y), RotateToBody(t', y), g))
    && var change := Cross(ry, g);
    && Dot(change, residual) >= Dot(change, change)
    && (NonZero(Cross(ry, residual)) ==> Dot(change, residual) > 0.0)
  }

  lemma CorrectedMoves(m: MathLib, t: Quat, s: Sym, ry: Vec, noise: real, residual: Vec)
    requires Sound(m) && Norm2(t) == 1.0 && PositiveDefinite(s) && noise > 0.0
    ensures Det(InnovationCov(s, ry, noise)) > 0.0
    ensures var k := KalmanGain(s, ry, noise);
            var q := Corrected(t, k, residual);
            m.sqrt(Norm2(q)) > 0.0 &&
            TurnedTowards(t, Divided(q, m.sqrt(Norm2(q))), ry, MatApply(k, residual), residual)
  {
    TowardsMeasurement(s, ry, noise, residual);
    var k := KalmanGain(s, ry, noise);
    var g, q := MatApply(k, residual), Corrected(t, k, residual);
    assert q == Turn(t, 1.0, Scale(0.5, g));
    hide Norm2, PositiveDefinite, Dot, Det, InnovationCov, KalmanGain, Turn, Scale, Cross, RotateToBody, MovedBy, NonZero;
    CorrectedNorm(t, k, residual);
    HalfParts(ry, g);
    hide MatApply, Corrected;
    RootPositive(m, Norm2(q));
    forall y ensures MovedBy(RotateToBody(t, y), RotateToBody(Divided(q, m.sqrt(Norm2(q))), y), g) {
      HalfTurnMoves(t, g, m.sqrt(Norm2(q)), y);
    }
  }

  class AttitudeFilter {
    const q: array<real>
    const p: array<real>
    const w: array<real>
    var yaw: real
    var pitch: real
    var roll: real

    ghost predicate Shape() {
      q.Length == 4 && p.Length == 6 && w.Length == 3 && q != p && q != w && p != w
    }

    function Attitude(): Quat
      requires Shape()
      reads q
    {
      Quat(q[0], q[1], q[2], q[3])
    }

    function Covariance(): Sym
      requires Shape()
      reads p
    {
      SymOf(p)
    }

    function Rates(): Vec
      requires Shape()
      reads w
    {
      VecOf(w)
    }

    /** The attitude is a unit quaternion and the covariance is positive definite. */
    ghost predicate Valid()
      reads q, p
    {
      Shape() && Norm2(Attitude()) == 1.0 && PositiveDefinite(Covariance())
    }

    constructor ()
      ensures Valid() && fresh(q) && fresh(p) && fresh(w)
      ensures Attitude() == Quat(0.0, 0.0, 0.0, 1.0) && Covariance() == Diagonal(0.0003046174197867086)
    {
      q := new real[4](i => if i == 3 then 1.0 else 0.0);
      p := new real[6](i => if i == 0 || i == 3 || i == 5 then 0.0003046174197867086 else 0.0);
      w := new real[3](_ => 0.0);
      yaw, pitch, roll := 0.0, 0.0, 0.0;
      new;
      DiagonalDefinite(0.0003046174197867086);
      assert Covariance() == Diagonal(0.0003046174197867086);
    }

    method SetAttitude(t: Quat)
      requires Shape()
      modifies q
      ensures Attitude() == t
    {
      q[0], q[1], q[2], q[3] := t.a, t.b, t.c, t.d;
    }

    /** Takes the Euler angles (Z, X, Y) from the attitude. */
    method ExtractAngles(m: MathLib)
      requires Shape()
      modifies `yaw, `pitch, `roll
      ensures AnglesOf(m, Attitude(), yaw, pitch, roll)
    {
      var t := Attitude();
      AngleEntries(t);
      hide R13, R21, R22, R23, R33, BodyAxis0, BodyAxis1, BodyAxis2;
      yaw := m.atan2(-1.0 * R21(t), R22(t));
      pitch := m.asin(R23(t));
      roll := m.atan2(-1.0 * R13(t), R33(t));
    }

    method PropagateState(m: MathLib)
      requires Valid() && Sound(m)
      modifies q, p
      ensures Valid()
      ensures Covariance() == PropagateCov(old(Covariance()), Rates())
      ensures var wMag := m.sqrt(Dot(Rates(), Rates()));
              Attitude() == if wMag > MIN_RATE then Propagated(m, old(Attitude()), Rates(), wMag) else old(Attitude())
      ensures SweptBy(m, Rates(), old(Attitude()), Attitude())
    {
      hide Norm2, Psd, PositiveDefinite, PropagateCov, Dot, Propagated, Psi, SweptBy, Divided;
      var rates := Rates();
      SweptIsSwept(m, rates, Attitude());
      var wMag := m.sqrt(Dot(rates, rates));
      SquarePositive(rates);
      if wMag > MIN_RATE {
        var qNew := Propagated(m, Attitude(), rates, wMag);
        PropagatedNorm(m, Attitude(), rates, wMag);
        RootOfOne(m);
        var qMag := m.sqrt(Norm2(qNew));
        DividedByOne(qNew);
        SetAttitude(Divided(qNew, qMag));
      }
      DefiniteIsPsd(Covariance());
      PropagateMakesDefinite(Covariance(), rates);
      StoreSym(p, PropagateCov(Covariance(), rates));
    }

    /** The arc sine is taken in its range. */
    method KalmanPropagate(m: MathLib)
      requires Valid() && Sound(m)
      modifies `yaw, `pitch, `roll, q, p
      ensures Valid()
      ensures AnglesOf(m, old(Attitude()), yaw, pitch, roll) && -1.0 <= R23(old(Attitude())) <= 1.0
      ensures Covariance() == PropagateCov(old(Covariance()), Rates())
      ensures var wMag := m.sqrt(Dot(Rates(), Rates()));
              Attitude() == if wMag > MIN_RATE then Propagated(m, old(Attitude()), Rates(), wMag) else old(Attitude())
      ensures SweptBy(m, Rates(), old(Attitude()), Attitude())
    {
      PitchDefined(Attitude());
      hide R23, AnglesOf, SweptBy, Norm2, PositiveDefinite, PropagateCov, Dot, Propagated, Psi;
      ExtractAngles(m);
      PropagateState(m);
    }

    /** `yI` and `yB` are normalised in place; `pr` and `residual` are outputs for tuning. */
    method KalmanUpdate(m: MathLib, yI: array<real>, yB: array<real>, noise: real, pr: array<real>, residual: array<real>)
      requires Valid() && Sound(m) && noise > 0.0
      requires yI.Length == yB.Length == residual.Length == 3 && pr.Length == 6
      requires yI !in {yB, residual, pr, q, p} && yB !in {residual, pr, q, p} && residual !in {pr, q, p} && pr !in {q, p}
      requires NonZero(VecOf(yI)) && NonZero(VecOf(yB))
      modifies q, p, yI, yB, pr, residual
      ensures Valid() && Narrower(Covariance(), old(Covariance()))
      ensures var (i, b, t, s) := (old(VecOf(yI)), old(VecOf(yB)), old(Attitude()), old(Covariance()));
              UpdateDone(m, i, b, t, s, noise, VecOf(yI), VecOf(yB), SymOf(pr), VecOf(residual), Attitude(), Covariance())
    {
      var i, b, t, s := VecOf(yI), VecOf(yB), Attitude(), Covariance();
      UpdateDefined(m, i, b, t, s, noise);
      hide Norm2, PositiveDefinite, Narrower, Dot, Det, InnovationCov, Unit, RotateToBody, UpdateCov, KalmanGain, Corrected, Minus;
      var iUnit, bUnit := Unit(m, i), Unit(m, b);
      var ry := RotateToBody(t, iUnit);
      var innovation := InnovationCov(s, ry, noise);
      var res := Minus(bUnit, ry);
      var qNew := Corrected(t, KalmanGain(s, ry, noise), res);
      var qMag := m.sqrt(Norm2(qNew));
      hide UpdateDone;
      StoreVec(yI, iUnit);
      StoreVec(yB, bUnit);
      StoreSym(pr, innovation);
      StoreVec(residual, res);
      StoreSym(p, UpdateCov(s, ry, noise));
      SetAttitude(Divided(qNew, qMag));
    }
  }

  /** What an update leaves behind, from the reference vector `i`, the measured vector `b`, the attitude
      `t` and the covariance `s` before it. */
  ghost predicate UpdateDone(m: MathLib, i: Vec, b: Vec, t: Quat, s: Sym, noise: real,
                             i': Vec, b': Vec, pr: Sym, residual: Vec, t': Quat, s': Sym)
  {
    && m.sqrt(Dot(i, i)) > 0.0 && i' == Unit(m, i) && Dot(i', i') == 1.0 && i == Scale(m.sqrt(Dot(i, i)), i')
    && m.sqrt(Dot(b, b)) > 0.0 && b' == Unit(m, b) && Dot(b', b') == 1.0 && b == Scale(m.sqrt(Dot(b, b)), b')
    && var ry := RotateToBody(t, i');
    && Dot(ry, ry) == 1.0
    && residual == Minus(b', ry)
    && pr == InnovationCov(s, ry, noise) && Det(pr) > 0.0
    && s' == UpdateCov(s, ry, noise)
    && var q := Corrected(t, KalmanGain(s, ry, noise), residual);
    && m.sqrt(Norm2(q)) > 0.0 && t' == Divided(q, m.sqrt(Norm2(q))) && Norm2(t') == 1.0
    && TurnedTowards(t, t', ry, MatApply(KalmanGain(s, ry, noise), residual), residual)
  }

  lemma UpdateDefined(m: MathLib, i: Vec, b: Vec, t: Quat, s: Sym, noise: real)
    requires Sound(m) && Norm2(t) == 1.0 && PositiveDefinite(s) && noise > 0.0 && NonZero(i) && NonZero(b)
    ensures m.sqrt(Dot(i, i)) > 0.0 && m.sqrt(Dot(b, b)) > 0.0
    ensures var ry := RotateToBody(t, Unit(m, i));
            Det(InnovationCov(s, ry, noise)) > 0.0 &&
            var q := Corrected(t, KalmanGain(s, ry, noise), Minus(Unit(m, b), ry));
            m.sqrt(Norm2(q)) > 0.0 && Norm2(Divided(q, m.sqrt(Norm2(q)))) == 1.0 &&
            PositiveDefinite(UpdateCov(s, ry, noise)) && Narrower(UpdateCov(s, ry, noise), s) &&
            UpdateDone(m, i, b, t, s, noise, Unit(m, i), Unit(m, b), InnovationCov(s, ry, noise),
                       Minus(Unit(m, b), ry), Divided(q, m.sqrt(Norm2(q))), UpdateCov(s, ry, noise))
  {
    hide Norm2, Psd, PositiveDefinite, Narrower, Dot, Det, InnovationCov, Unit, RotateToBody, UpdateCov, KalmanGain, Corrected,
      Minus, Scale, MatApply, TurnedTowards;
    UnitLength(m, i);
    UnitLength(m, b);
    var ry := RotateToBody(t, Unit(m, i));
    RotationKeepsLength(t, Unit(m, i));
    DefiniteIsPsd(s);
    UpdateNarrows(s, ry, noise);
    UpdateKeepsDefinite(s, ry, noise);
    var res, k := Minus(Unit(m, b), ry), KalmanGain(s, ry, noise);
    CorrectedNorm(t, k, res);
    var q := Corrected(t, k, res);
    RootPositive(m, Norm2(q));
    DividedNorm(q, m.sqrt(Norm2(q)));
    CorrectedMoves(m, t, s, ry, noise, res);
  }

  // ---- Every run ----

  datatype Event = Propagate(rates: Vec) | Update(predicted: Vec, noise: real)

  ghost predicate NoisePositive(events: seq<Event>) {
    forall k :: 0 <= k < |events| && events[k].Update? ==> events[k].noise > 0.0
  }

  /** The covariance after a run of propagations and updates. That this function is defined at all is the
      claim: at every update the determinant the code divides by is positive. */
  ghost function Run(start: Sym, events: seq<Event>): (p: Sym)
    requires Psd(start) && NoisePositive(events)
    ensures Psd(p)
    decreases |events|
  {
    hide Psd, InnovationCov, Det, UpdateCov, PropagateCov;
    if events == [] then start
    else
      var e := events[|events| - 1];
      var before := Run(start, events[..|events| - 1]);
      match e
      case Propagate(w) => PropagateKeepsPsd(before, w); PropagateCov(before, w)
      case Update(r, noise) => UpdateKeepsPsd(before, r, noise); UpdateCov(before, r, noise)
  }

  /** The covariance is definite after exactly the runs that start definite or propagate at all, and an
      update at the end of a run makes no direction more uncertain. */
  lemma {:induction false} RunNarrows(start: Sym, events: seq<Event>)
    requires Psd(start) && NoisePositive(events)
    ensures PositiveDefinite(Run(start, events))
            <==> PositiveDefinite(start) || exists k :: 0 <= k < |events| && events[k].Propagate?
    ensures events != [] && events[|events| - 1].Update? ==> Narrower(Run(start, events), Run(start, events[..|events| - 1]))
    decreases |events|
  {
    hide Psd, PositiveDefinite, Narrower, InnovationCov, Det, UpdateCov, PropagateCov;
    if events != [] {
      var e, most := events[|events| - 1], events[..|events| - 1];
      var before := Run(start, most);
      RunNarrows(start, most);
      match e
      case Propagate(w) =>
        assert events[|events| - 1].Propagate?;
        PropagateMakesDefinite(before, w);
      case Update(r, noise) =>
        UpdateNarrows(before, r, noise);
        assert forall k :: 0 <= k < |most| ==> most[k] == events[k];
        if PositiveDefinite(before) { UpdateKeepsDefinite(before, r, noise); }
        if PositiveDefinite(Run(start, events)) { NarrowerDefinite(Run(start, events), before); }
    }
  }

  /** At every update of every run: the determinant is positive, the inverse is an inverse, and the new
      covariance is both (I-KH)P and the Joseph form. */
  lemma EveryUpdateIsDefined(start: Sym, events: seq<Event>, r: Vec, noise: real)
    requires Psd(start) && NoisePositive(events) && noise > 0.0
    ensures var p := Run(start, events);
            var s := InnovationCov(p, r, noise);
            Det(s) > 0.0 && Times(Full(Inverse(s)), Full(s)) == IDENTITY &&
            var k := KalmanGain(p, r, noise);
            Full(UpdateCov(p, r, noise)) == Times(Correction(k, r), Full(p)) &&
            UpdateCov(p, r, noise) == SymPlus(Congruent(Correction(k, r), p), Congruent(k, Diagonal(noise)))
  {
    hide Psd, InnovationCov, Det, UpdateCov, KalmanGain, Inverse, Times, Correction, Congruent, SymPlus, Diagonal, Full;
    var p := Run(start, events);
    DetPositive(p, r, noise);
    InverseIsInverse(InnovationCov(p, r, noise));
    UpdateMeaning(p, r, noise);
    JosephForm(p, r, noise);
  }
}
