/** The formulas of the attitude filter, as functions, and what they mean. Floating-point numbers are
    modelled by real numbers. */
module KalmanMath {
  import opened Linear

  const DT: real := 0.01
  const SIGMA_W2: real := 0.000001

  // ---- Covariance propagation ----

  /** The six expanded formulas of `kalmanPropagate` for a time step `dt` and rate variance `s2`. */
  function PropagateBy(p: Sym, w0: real, w1: real, w2: real, dt: real, s2: real): Sym {
    var dt2 := dt * dt;
    var w0w0, w1w1, w2w2 := w0 * w0, w1 * w1, w2 * w2;
    var w1w2, w0w1, w0w2 := w1 * w2, w0 * w1, w0 * w2;
    Sym(
      p.a + p.f * dt2 * w1w1 - 2.0 * dt2 * p.e * w1w2 + p.d * dt2 * w2w2 - 2.0 * dt * p.c * w1 + 2.0 * dt * p.b * w2 + dt * s2,
      p.b - p.b * dt2 * w2w2 - p.a * dt * w2 + p.c * dt * w0 + p.d * dt * w2 - p.e * dt * w1 + p.c * dt2 * w1w2 + p.e * dt2 * w0w2 - p.f * dt2 * w0w1,
      p.c - p.c * dt2 * w1w1 + p.a * dt * w1 - p.b * dt * w0 + p.e * dt * w2 - p.f * dt * w1 + p.b * dt2 * w1w2 - p.d * dt2 * w0w2 + p.e * dt2 * w0w1,
      p.d + p.f * dt2 * w0w0 - 2.0 * dt2 * p.c * w0w2 + p.a * dt2 * w2w2 + 2.0 * dt * p.e * w0 - 2.0 * dt * p.b * w2 + dt * s2,
      p.e - p.e * dt2 * w0w0 + p.b * dt * w1 - p.d * dt * w0 - p.c * dt * w2 + p.f * dt * w0 - p.a * dt2 * w1w2 + p.b * dt2 * w0w2 + p.c * dt2 * w0w1,
      p.f + p.d * dt2 * w0w0 - 2.0 * dt2 * p.b * w0w1 + p.a * dt2 * w1w1 - 2.0 * dt * p.e * w0 + 2.0 * dt * p.c * w1 + dt * s2)
  }

  function PropagateCov(p: Sym, w: Vec): Sym { PropagateBy(p, w.x, w.y, w.z, DT, SIGMA_W2) }

  /** The transition matrix of one time step: the identity less DT times the cross product with `w`. */
  function Transition(w: Vec): Mat { MatMinus(IDENTITY, MatScale(DT, CrossMat(w))) }

  /** The same with the time step multiplied into the rates. */
  function Expanded(p: Sym, x: real, y: real, z: real, n: real): Sym {
    Sym(
      p.a + p.f * (y * y) - 2.0 * p.e * (y * z) + p.d * (z * z) - 2.0 * p.c * y + 2.0 * p.b * z + n,
      p.b - p.b * (z * z) - p.a * z + p.c * x + p.d * z - p.e * y + p.c * (y * z) + p.e * (x * z) - p.f * (x * y),
      p.c - p.c * (y * y) + p.a * y - p.b * x + p.e * z - p.f * y + p.b * (y * z) - p.d * (x * z) + p.e * (x * y),
      p.d + p.f * (x * x) - 2.0 * p.c * (x * z) + p.a * (z * z) + 2.0 * p.e * x - 2.0 * p.b * z + n,
      p.e - p.e * (x * x) + p.b * y - p.d * x - p.c * z + p.f * x - p.a * (y * z) + p.b * (x * z) + p.c * (x * y),
      p.f + p.d * (x * x) - 2.0 * p.b * (x * y) + p.a * (y * y) - 2.0 * p.e * x + 2.0 * p.c * y + n)
  }

  lemma StepScalesDiagonal(p: Sym, w0: real, w1: real, w2: real, dt: real, s2: real)
    ensures var l, r := PropagateBy(p, w0, w1, w2, dt, s2), Expanded(p, dt * w0, dt * w1, dt * w2, dt * s2);
            l.a == r.a && l.d == r.d && l.f == r.f
  {
  }

  lemma StepScalesUpper(p: Sym, w0: real, w1: real, w2: real, dt: real, s2: real)
    ensures var l, r := PropagateBy(p, w0, w1, w2, dt, s2), Expanded(p, dt * w0, dt * w1, dt * w2, dt * s2);
            l.b == r.b
  {
  }

  lemma StepScalesCorner(p: Sym, w0: real, w1: real, w2: real, dt: real, s2: real)
    ensures var l, r := PropagateBy(p, w0, w1, w2, dt, s2), Expanded(p, dt * w0, dt * w1, dt * w2, dt * s2);
            l.c == r.c
  {
  }

  lemma StepScalesLower(p: Sym, w0: real, w1: real, w2: real, dt: real, s2: real)
    ensures var l, r := PropagateBy(p, w0, w1, w2, dt, s2), Expanded(p, dt * w0, dt * w1, dt * w2, dt * s2);
            l.e == r.e
  {
  }

  lemma StepScales(p: Sym, w0: real, w1: real, w2: real, dt: real, s2: real)
    ensures PropagateBy(p, w0, w1, w2, dt, s2) == Expanded(p, dt * w0, dt * w1, dt * w2, dt * s2)
  {
    hide PropagateBy, Expanded;
    StepScalesDiagonal(p, w0, w1, w2, dt, s2);
    StepScalesUpper(p, w0, w1, w2, dt, s2);
    StepScalesCorner(p, w0, w1, w2, dt, s2);
    StepScalesLower(p, w0, w1, w2, dt, s2);
  }

  lemma ExpandedFirst(p: Sym, x: real, y: real, z: real, n: real)
    ensures Expanded(p, x, y, z, n).a == Bilinear(p, 1.0, z, -y, 1.0, z, -y) + n
  {
  }

  lemma UpperTerms(a: real, b: real, c: real, d: real, e: real, f: real, x: real, y: real, z: real)
    ensures b - b * (z * z) - a * z + c * x + d * z - e * y + c * (y * z) + e * (x * z) - f * (x * y)
         == 1.0 * (a * (-z) + b * 1.0 + c * x) + z * (b * (-z) + d * 1.0 + e * x) + (-y) * (c * (-z) + e * 1.0 + f * x)
  {
  }

  lemma ExpandedUpper(p: Sym, x: real, y: real, z: real, n: real)
    ensures Expanded(p, x, y, z, n).b == Bilinear(p, 1.0, z, -y, -z, 1.0, x)
  {
    UpperTerms(p.a, p.b, p.c, p.d, p.e, p.f, x, y, z);
  }

  lemma CornerTerms(a: real, b: real, c: real, d: real, e: real, f: real, x: real, y: real, z: real)
    ensures c - c * (y * y) + a * y - b * x + e * z - f * y + b * (y * z) - d * (x * z) + e * (x * y)
         == 1.0 * (a * y + b * (-x) + c * 1.0) + z * (b * y + d * (-x) + e * 1.0) + (-y) * (c * y + e * (-x) + f * 1.0)
  {
  }

  lemma ExpandedCorner(p: Sym, x: real, y: real, z: real, n: real)
    ensures Expanded(p, x, y, z, n).c == Bilinear(p, 1.0, z, -y, y, -x, 1.0)
  {
    CornerTerms(p.a, p.b, p.c, p.d, p.e, p.f, x, y, z);
  }

  lemma ExpandedMiddle(p: Sym, x: real, y: real, z: real, n: real)
    ensures Expanded(p, x, y, z, n).d == Bilinear(p, -z, 1.0, x, -z, 1.0, x) + n
  {
  }

  lemma ExpandedLower(p: Sym, x: real, y: real, z: real, n: real)
    ensures Expanded(p, x, y, z, n).e == Bilinear(p, -z, 1.0, x, y, -x, 1.0)
  {
  }

  lemma ExpandedLast(p: Sym, x: real, y: real, z: real, n: real)
    ensures Expanded(p, x, y, z, n).f == Bilinear(p, y, -x, 1.0, y, -x, 1.0) + n
  {
  }

  lemma ExpandedEntries(p: Sym, x: real, y: real, z: real, n: real)
    ensures var e := Expanded(p, x, y, z, n);
            e.a == Bilinear(p, 1.0, z, -y, 1.0, z, -y) + n && e.b == Bilinear(p, 1.0, z, -y, -z, 1.0, x) &&
            e.c == Bilinear(p, 1.0, z, -y, y, -x, 1.0) && e.d == Bilinear(p, -z, 1.0, x, -z, 1.0, x) + n &&
            e.e == Bilinear(p, -z, 1.0, x, y, -x, 1.0) && e.f == Bilinear(p, y, -x, 1.0, y, -x, 1.0) + n
  {
    hide *;
    ExpandedFirst(p, x, y, z, n);
    ExpandedUpper(p, x, y, z, n);
    ExpandedCorner(p, x, y, z, n);
    ExpandedMiddle(p, x, y, z, n);
    ExpandedLower(p, x, y, z, n);
    ExpandedLast(p, x, y, z, n);
  }

  lemma TransitionRows(w: Vec)
    ensures var x, y, z := DT * w.x, DT * w.y, DT * w.z;
            Transition(w) == Mat(Vec(1.0, z, -y), Vec(-z, 1.0, x), Vec(y, -x, 1.0))
  {
  }

  /** The formulas are F P F^T + DT * sigma^2 * I. */
  lemma PropagateMeaning(p: Sym, w: Vec)
    ensures PropagateCov(p, w) == SymPlus(Congruent(Transition(w), p), Diagonal(DT * SIGMA_W2))
    ensures Full(Congruent(Transition(w), p)) == Times(Times(Transition(w), Full(p)), Transpose(Transition(w)))
  {
    hide Full, Transition, PropagateBy, Expanded, Times, Transpose, Bilinear, Form;
    var m, x, y, z := Transition(w), DT * w.x, DT * w.y, DT * w.z;
    CongruentIsProduct(m, p);
    StepScales(p, w.x, w.y, w.z, DT, SIGMA_W2);
    TransitionRows(w);
    ExpandedEntries(p, x, y, z, DT * SIGMA_W2);
    FormBilinear(p, m.r0, m.r0);
    FormBilinear(p, m.r0, m.r1);
    FormBilinear(p, m.r0, m.r2);
    FormBilinear(p, m.r1, m.r1);
    FormBilinear(p, m.r1, m.r2);
    FormBilinear(p, m.r2, m.r2);
  }

  lemma PropagateKeepsPsd(p: Sym, w: Vec)
    requires Psd(p)
    ensures Psd(PropagateCov(p, w))
  {
    hide Psd, PropagateCov, Congruent, SymPlus, Diagonal;
    PropagateMeaning(p, w);
    CongruentPsd(Transition(w), p);
    DiagonalPsd(DT * SIGMA_W2);
    SumPsd(Congruent(Transition(w), p), Diagonal(DT * SIGMA_W2));
  }

  // ---- Measurement update ----

  /** One row of P*H^T as the code expands it, from the same row of P. */
  function CrossRow(u: Vec, r: Vec): Vec {
    Vec(u.z * r.y - u.y * r.z, u.x * r.z - u.z * r.x, u.y * r.x - u.x * r.y)
  }

  /** P*H^T; H is the cross product with the predicted vector `r`. */
  function CrossCov(p: Sym, r: Vec): Mat {
    Mat(CrossRow(Row0(p), r), CrossRow(Row1(p), r), CrossRow(Row2(p), r))
  }

  /** The measurement covariance from P*H^T. */
  function MeasurementCov(pht: Mat, r: Vec, noise: real): Sym {
    Sym(noise - pht.r1.x * r.z + pht.r2.x * r.y, pht.r2.y * r.y - pht.r1.y * r.z, pht.r2.z * r.y - pht.r1.z * r.z,
        noise + pht.r0.y * r.z - pht.r2.y * r.x, pht.r0.z * r.z - pht.r2.z * r.x,
        noise - pht.r0.z * r.y + pht.r1.z * r.x)
  }

  function GainRow(v: Vec, inv: Sym): Vec {
    Vec(v.x * inv.a + v.y * inv.b + v.z * inv.c, v.x * inv.b + v.y * inv.d + v.z * inv.e, v.x * inv.c + v.y * inv.e + v.z * inv.f)
  }

  /** The Kalman gain from P*H^T and the inverse of the measurement covariance. */
  function Gain(pht: Mat, inv: Sym): Mat {
    Mat(GainRow(pht.r0, inv), GainRow(pht.r1, inv), GainRow(pht.r2, inv))
  }

  /** The expanded formulas of the covariance update: an entry in the first, second or third row of the
      result, from that row `k` of the gain and the entries x, y, z of its column of P. */
  function UpdateEntry0(k: Vec, r: Vec, x: real, y: real, z: real): real {
    x * (k.z * r.y - k.y * r.z + 1.0) + y * (k.x * r.z - k.z * r.x) - z * (k.x * r.y - k.y * r.x)
  }

  function UpdateEntry1(k: Vec, r: Vec, x: real, y: real, z: real): real {
    y * (k.x * r.z - k.z * r.x + 1.0) - z * (k.x * r.y - k.y * r.x) - x * (k.y * r.z - k.z * r.y)
  }

  function UpdateEntry2(k: Vec, r: Vec, x: real, y: real, z: real): real {
    z * (k.y * r.x - k.x * r.y + 1.0) - x * (k.y * r.z - k.z * r.y) + y * (k.x * r.z - k.z * r.x)
  }

  function UpdateBy(p: Sym, k: Mat, r: Vec): Sym {
    Sym(UpdateEntry0(k.r0, r, p.a, p.b, p.c), UpdateEntry0(k.r0, r, p.b, p.d, p.e), UpdateEntry0(k.r0, r, p.c, p.e, p.f),
        UpdateEntry1(k.r1, r, p.b, p.d, p.e), UpdateEntry1(k.r1, r, p.c, p.e, p.f),
        UpdateEntry2(k.r2, r, p.c, p.e, p.f))
  }

  function InnovationCov(p: Sym, r: Vec, noise: real): Sym { MeasurementCov(CrossCov(p, r), r, noise) }

  function KalmanGain(p: Sym, r: Vec, noise: real): Mat
    requires Det(InnovationCov(p, r, noise)) != 0.0
  {
    Gain(CrossCov(p, r), Inverse(InnovationCov(p, r, noise)))
  }

  function UpdateCov(p: Sym, r: Vec, noise: real): Sym
    requires Det(InnovationCov(p, r, noise)) != 0.0
  {
    UpdateBy(p, KalmanGain(p, r, noise), r)
  }

  /** I - K*H. */
  function Correction(k: Mat, r: Vec): Mat { MatMinus(IDENTITY, Times(k, CrossMat(r))) }

  // What the expanded formulas are.

  lemma RowCross(u: Vec, r: Vec)
    ensures RowTimes(u, CrossMat(r)) == Cross(u, r)
  {
  }

  lemma RowCrossTranspose(u: Vec, r: Vec)
    ensures RowTimes(u, Transpose(CrossMat(r))) == Cross(r, u)
  {
  }

  lemma CrossRowMeaning(u: Vec, r: Vec)
    ensures CrossRow(u, r) == Cross(r, u)
    ensures CrossRow(u, r) == RowTimes(u, Transpose(CrossMat(r)))
  {
    RowCrossTranspose(u, r);
    hide RowTimes, CrossMat, Transpose;
  }

  lemma CrossCovMeaning(p: Sym, r: Vec)
    ensures CrossCov(p, r) == Times(Full(p), Transpose(CrossMat(r)))
    ensures CrossCov(p, r) == Mat(Cross(r, Row0(p)), Cross(r, Row1(p)), Cross(r, Row2(p)))
  {
    hide CrossRow, RowTimes, Cross, CrossMat, Transpose, Row0, Row1, Row2;
    CrossRowMeaning(Row0(p), r);
    CrossRowMeaning(Row1(p), r);
    CrossRowMeaning(Row2(p), r);
  }

  lemma CrossRowDots(u: Vec, r: Vec)
    ensures var h := CrossMat(r); CrossRow(u, r) == Vec(Dot(u, h.r0), Dot(u, h.r1), Dot(u, h.r2))
  {
    CrossRowMeaning(u, r);
    RowTimesTranspose(u, CrossMat(r));
    hide CrossRow, Cross, CrossMat, Dot, RowTimes;
  }

  lemma CrossCovColumns(p: Sym, r: Vec)
    ensures var a, h := CrossCov(p, r), CrossMat(r);
            Apply(p, h.r0) == Vec(a.r0.x, a.r1.x, a.r2.x) && Apply(p, h.r1) == Vec(a.r0.y, a.r1.y, a.r2.y) &&
            Apply(p, h.r2) == Vec(a.r0.z, a.r1.z, a.r2.z)
  {
    hide CrossRow, CrossMat, Dot, Row0, Row1, Row2;
    CrossRowDots(Row0(p), r);
    CrossRowDots(Row1(p), r);
    CrossRowDots(Row2(p), r);
  }

  lemma MeasurementEntries(a: Mat, r: Vec, noise: real)
    ensures var h, u0, u1, u2 := CrossMat(r), Vec(a.r0.x, a.r1.x, a.r2.x), Vec(a.r0.y, a.r1.y, a.r2.y), Vec(a.r0.z, a.r1.z, a.r2.z);
            MeasurementCov(a, r, noise) == Sym(Dot(h.r0, u0) + noise, Dot(h.r0, u1), Dot(h.r0, u2),
                                               Dot(h.r1, u1) + noise, Dot(h.r1, u2), Dot(h.r2, u2) + noise)
  {
  }

  /** The measurement covariance is H P H^T + R I. */
  lemma MeasurementMeaning(p: Sym, r: Vec, noise: real)
    ensures InnovationCov(p, r, noise) == SymPlus(Congruent(CrossMat(r), p), Diagonal(noise))
  {
    hide CrossCov, Apply, CrossMat, Dot, MeasurementCov;
    CrossCovColumns(p, r);
    MeasurementEntries(CrossCov(p, r), r, noise);
  }

  lemma MeasurementForm(p: Sym, r: Vec, noise: real, u: Vec, v: Vec)
    ensures Form(InnovationCov(p, r, noise), u, v) == Form(p, Cross(u, r), Cross(v, r)) + noise * Dot(u, v)
  {
    hide InnovationCov, Form, Dot, Cross, CrossMat, Congruent, SymPlus, Diagonal, RowTimes;
    MeasurementMeaning(p, r, noise);
    CongruentForm(CrossMat(r), p, u, v);
    FormSymPlus(Congruent(CrossMat(r), p), Diagonal(noise), u, v);
    FormDiagonal(noise, u, v);
    RowCross(u, r);
    RowCross(v, r);
  }

  /** With a semidefinite covariance and positive noise the determinant is positive, so the division by
      it is defined. */
  lemma DetPositive(p: Sym, r: Vec, noise: real)
    requires Psd(p) && noise > 0.0
    ensures Det(InnovationCov(p, r, noise)) > 0.0
  {
    hide InnovationCov, Form, Dot, Cross, Det;
    var s := InnovationCov(p, r, noise);
    forall v: Vec | NonZero(v) ensures Form(s, v, v) > 0.0 {
      MeasurementForm(p, r, noise, v, v);
      SquarePositive(v);
      var d := PositiveProduct(noise, Dot(v, v));
    }
    PositiveDet(s);
  }

  lemma NoInformation(r: Vec, noise: real)
    ensures var z := Diagonal(0.0); Psd(z) && InnovationCov(z, r, noise) == Diagonal(noise)
    ensures Det(Diagonal(noise)) == noise * noise * noise
  {
    DiagonalPsd(0.0);
  }

  lemma CubeSign(x: real)
    ensures x * x * x > 0.0 ==> x > 0.0
  {
    if x < 0.0 {
      var s := PositiveProduct(-x, -x);
      var c := PositiveProduct(s, -x);
      assert x * x * x == -c;
    }
  }

  /** The determinant is positive for every semidefinite covariance and every prediction exactly when the
      noise is. */
  lemma NoiseExact(noise: real)
    ensures (forall p, r :: Psd(p) ==> Det(InnovationCov(p, r, noise)) > 0.0) <==> noise > 0.0
  {
    hide InnovationCov, Det, Psd, Diagonal;
    if noise > 0.0 {
      forall p, r | Psd(p) ensures Det(InnovationCov(p, r, noise)) > 0.0 { DetPositive(p, r, noise); }
    } else {
      var r := IDENTITY.r0;
      NoInformation(r, noise);
      CubeSign(noise);
      assert Psd(Diagonal(0.0)) && !(Det(InnovationCov(Diagonal(0.0), r, noise)) > 0.0);
    }
  }

  lemma GainRowApply(v: Vec, inv: Sym)
    ensures GainRow(v, inv) == Apply(inv, v) == RowTimes(v, Full(inv))
  {
  }

  lemma GainRows(pht: Mat, inv: Sym)
    ensures Gain(pht, inv) == Mat(Apply(inv, pht.r0), Apply(inv, pht.r1), Apply(inv, pht.r2))
    ensures Gain(pht, inv) == Times(pht, Full(inv))
  {
    hide GainRow, Apply, RowTimes, Full;
    GainRowApply(pht.r0, inv);
    GainRowApply(pht.r1, inv);
    GainRowApply(pht.r2, inv);
  }

  lemma TripleProduct(k: Vec, r: Vec, x: real, y: real, z: real)
    ensures Dot(k, Cross(r, Vec(x, y, z)))
         == k.x * (r.y * z - r.z * y) + k.y * (r.z * x - r.x * z) + k.z * (r.x * y - r.y * x)
  {
  }

  lemma UpdateEntries(k: Vec, r: Vec, x: real, y: real, z: real)
    ensures UpdateEntry0(k, r, x, y, z) == x - Dot(k, Cross(r, Vec(x, y, z)))
    ensures UpdateEntry1(k, r, x, y, z) == y - Dot(k, Cross(r, Vec(x, y, z)))
    ensures UpdateEntry2(k, r, x, y, z) == z - Dot(k, Cross(r, Vec(x, y, z)))
  {
    hide Dot, Cross;
    TripleProduct(k, r, x, y, z);
  }

  lemma UpdateByDots(p: Sym, k: Mat, r: Vec)
    ensures var a := Mat(Cross(r, Row0(p)), Cross(r, Row1(p)), Cross(r, Row2(p)));
            UpdateBy(p, k, r) == Sym(p.a - Dot(k.r0, a.r0), p.b - Dot(k.r0, a.r1), p.c - Dot(k.r0, a.r2),
                                     p.d - Dot(k.r1, a.r1), p.e - Dot(k.r1, a.r2), p.f - Dot(k.r2, a.r2))
  {
    hide Dot, Cross, UpdateEntry0, UpdateEntry1, UpdateEntry2;
    UpdateEntries(k.r0, r, p.a, p.b, p.c);
    UpdateEntries(k.r0, r, p.b, p.d, p.e);
    UpdateEntries(k.r0, r, p.c, p.e, p.f);
    UpdateEntries(k.r1, r, p.b, p.d, p.e);
    UpdateEntries(k.r1, r, p.c, p.e, p.f);
    UpdateEntries(k.r2, r, p.c, p.e, p.f);
  }

  // The update as a whole.

  lemma BasisRows(p: Sym)
    ensures Apply(p, IDENTITY.r0) == Row0(p) && Apply(p, IDENTITY.r1) == Row1(p) && Apply(p, IDENTITY.r2) == Row2(p)
  {
  }

  lemma BasisForms(p: Sym)
    ensures p == Congruent(IDENTITY, p)
  {
    BasisRows(p);
    hide Apply;
  }

  /** The inverse the code computes is the inverse. */
  lemma InverseIsInverse(s: Sym)
    requires Det(s) != 0.0
    ensures Times(Full(Inverse(s)), Full(s)) == IDENTITY
  {
    hide Apply, RowTimes, Det, Inverse, Row0, Row1, Row2;
    var inv := Inverse(s);
    BasisRows(inv);
    RowTimesFull(Row0(inv), s);
    RowTimesFull(Row1(inv), s);
    RowTimesFull(Row2(inv), s);
    InverseInverts(s, IDENTITY.r0);
    InverseInverts(s, IDENTITY.r1);
    InverseInverts(s, IDENTITY.r2);
  }

  /** The gain applied to the part of the covariance a vector sees. */
  function GainOf(p: Sym, r: Vec, noise: real, e: Vec): Vec
    requires Det(InnovationCov(p, r, noise)) != 0.0
  {
    Apply(Inverse(InnovationCov(p, r, noise)), Cross(r, Apply(p, e)))
  }

  lemma GainSymmetric(p: Sym, r: Vec, noise: real, e: Vec, e': Vec)
    requires Det(InnovationCov(p, r, noise)) != 0.0
    ensures Dot(GainOf(p, r, noise, e), Cross(r, Apply(p, e'))) == Dot(GainOf(p, r, noise, e'), Cross(r, Apply(p, e)))
  {
    hide InnovationCov, Det, Cross, Apply, Dot, Inverse;
    var inv, a, a' := Inverse(InnovationCov(p, r, noise)), Cross(r, Apply(p, e)), Cross(r, Apply(p, e'));
    FormSym(inv, a, a');
    DotSym(Apply(inv, a), a');
    DotSym(Apply(inv, a'), a);
  }

  /** Crossing into the covariance form. */
  lemma FormCross(p: Sym, k: Vec, r: Vec, e: Vec)
    ensures Form(p, Cross(k, r), e) == Form(p, e, Cross(k, r)) == Dot(k, Cross(r, Apply(p, e)))
  {
    hide Cross, Apply, Dot;
    FormSym(p, Cross(k, r), e);
    CrossTranspose(k, r, Apply(p, e));
  }

  /** The identity behind the Joseph form, on any two vectors. */
  lemma JosephEntry(p: Sym, r: Vec, noise: real, e: Vec, e': Vec)
    requires Det(InnovationCov(p, r, noise)) != 0.0
    ensures var k, k' := GainOf(p, r, noise, e), GainOf(p, r, noise, e');
            Form(p, Minus(e, Cross(k, r)), Minus(e', Cross(k', r))) + noise * Dot(k, k')
            == Form(p, e, e') - Dot(k, Cross(r, Apply(p, e')))
  {
    hide InnovationCov, Det, Cross, Apply, Dot, Minus, Inverse;
    var s, k, k' := InnovationCov(p, r, noise), GainOf(p, r, noise, e), GainOf(p, r, noise, e');
    FormMinus(p, e, Cross(k, r), e', Cross(k', r));
    FormCross(p, k', r, e);
    FormCross(p, k, r, e');
    MeasurementForm(p, r, noise, k, k');
    InverseInverts(s, Cross(r, Apply(p, e')));
    GainSymmetric(p, r, noise, e, e');
  }

  /** The rows of the gain and of I - K*H. */
  lemma GainAndCorrection(p: Sym, r: Vec, noise: real)
    requires Det(InnovationCov(p, r, noise)) != 0.0
    ensures var k, b := KalmanGain(p, r, noise), IDENTITY;
            k == Mat(GainOf(p, r, noise, b.r0), GainOf(p, r, noise, b.r1), GainOf(p, r, noise, b.r2)) &&
            Correction(k, r) == Mat(Minus(b.r0, Cross(k.r0, r)), Minus(b.r1, Cross(k.r1, r)), Minus(b.r2, Cross(k.r2, r)))
  {
    hide InnovationCov, Det, Cross, Apply, Dot, Minus, Inverse, CrossCov, RowTimes, Gain, CrossMat, Row0, Row1, Row2;
    CrossCovMeaning(p, r);
    BasisRows(p);
    var k := KalmanGain(p, r, noise);
    GainRows(CrossCov(p, r), Inverse(InnovationCov(p, r, noise)));
    RowCross(k.r0, r);
    RowCross(k.r1, r);
    RowCross(k.r2, r);
  }

  /** The six formulas are P less what the measurement explains. */
  lemma UpdateReduces(p: Sym, r: Vec, noise: real)
    requires Det(InnovationCov(p, r, noise)) != 0.0
    ensures var b := IDENTITY;
            var k, a := KalmanGain(p, r, noise), Mat(Cross(r, Apply(p, b.r0)), Cross(r, Apply(p, b.r1)), Cross(r, Apply(p, b.r2)));
            UpdateCov(p, r, noise) == Sym(p.a - Dot(k.r0, a.r0), p.b - Dot(k.r0, a.r1), p.c - Dot(k.r0, a.r2),
                                          p.d - Dot(k.r1, a.r1), p.e - Dot(k.r1, a.r2), p.f - Dot(k.r2, a.r2))
  {
    hide InnovationCov, Det, Cross, Apply, Dot, KalmanGain, UpdateBy, Row0, Row1, Row2;
    BasisRows(p);
    UpdateByDots(p, KalmanGain(p, r, noise), r);
  }

  lemma JosephSum(p: Sym, r: Vec, noise: real, e: Vec, e': Vec)
    requires Det(InnovationCov(p, r, noise)) != 0.0
    ensures var k, k' := GainOf(p, r, noise, e), GainOf(p, r, noise, e');
            Form(p, Minus(e, Cross(k, r)), Minus(e', Cross(k', r))) + Form(Diagonal(noise), k, k')
            == Form(p, e, e') - Dot(k, Cross(r, Apply(p, e')))
  {
    hide *;
    JosephEntry(p, r, noise, e, e');
    FormDiagonal(noise, GainOf(p, r, noise, e), GainOf(p, r, noise, e'));
  }

  /** The update equals the Joseph form (I-KH) P (I-KH)^T + R K K^T. */
  lemma JosephForm(p: Sym, r: Vec, noise: real)
    requires Det(InnovationCov(p, r, noise)) != 0.0
    ensures var k := KalmanGain(p, r, noise);
            UpdateCov(p, r, noise) == SymPlus(Congruent(Correction(k, r), p), Congruent(k, Diagonal(noise)))
  {
    hide InnovationCov, Det, Cross, Apply, Dot, KalmanGain, UpdateCov, GainOf, Form, Minus, Correction, Diagonal;
    var b := IDENTITY;
    UpdateReduces(p, r, noise);
    GainAndCorrection(p, r, noise);
    BasisForms(p);
    JosephSum(p, r, noise, b.r0, b.r0);
    JosephSum(p, r, noise, b.r0, b.r1);
    JosephSum(p, r, noise, b.r0, b.r2);
    JosephSum(p, r, noise, b.r1, b.r1);
    JosephSum(p, r, noise, b.r1, b.r2);
    JosephSum(p, r, noise, b.r2, b.r2);
  }

  lemma UpdateKeepsPsd(p: Sym, r: Vec, noise: real)
    requires Psd(p) && noise > 0.0
    ensures Det(InnovationCov(p, r, noise)) > 0.0 && Psd(UpdateCov(p, r, noise))
  {
    hide InnovationCov, Det, KalmanGain, UpdateCov, Psd, Congruent, SymPlus, Correction, Diagonal;
    DetPositive(p, r, noise);
    var k := KalmanGain(p, r, noise);
    JosephForm(p, r, noise);
    CongruentPsd(Correction(k, r), p);
    DiagonalPsd(noise);
    CongruentPsd(k, Diagonal(noise));
    SumPsd(Congruent(Correction(k, r), p), Congruent(k, Diagonal(noise)));
  }

  /** One row of (I-KH) P. */
  lemma CorrectedRow(p: Sym, r: Vec, e: Vec, k: Vec)
    ensures var b := IDENTITY;
            RowTimes(Minus(e, Cross(k, r)), Full(p))
            == Vec(Form(p, e, b.r0) - Dot(k, Cross(r, Apply(p, b.r0))), Form(p, e, b.r1) - Dot(k, Cross(r, Apply(p, b.r1))),
                   Form(p, e, b.r2) - Dot(k, Cross(r, Apply(p, b.r2))))
  {
    var b := IDENTITY;
    var row := Minus(e, Cross(k, r));
    RowTimesFull(row, p);
    FormCross(p, k, r, b.r0);
    FormCross(p, k, r, b.r1);
    FormCross(p, k, r, b.r2);
    ApplyOnBasis(p, row);
    FormFirst(p, e, Cross(k, r), b.r0);
    FormFirst(p, e, Cross(k, r), b.r1);
    FormFirst(p, e, Cross(k, r), b.r2);
    hide Form, Apply, Dot, Cross, Minus, RowTimes, Full;
  }

  lemma ApplyOnBasis(p: Sym, v: Vec)
    ensures var b := IDENTITY; Apply(p, v) == Vec(Form(p, v, b.r0), Form(p, v, b.r1), Form(p, v, b.r2))
  {
  }

  lemma FormFirst(p: Sym, u: Vec, u': Vec, v: Vec)
    ensures Form(p, Minus(u, u'), v) == Form(p, u, v) - Form(p, u', v)
  {
  }

  /** The full product (I-KH) P is symmetric and the six formulas are its upper triangle, so six entries
      lose nothing. */
  lemma UpdateMeaning(p: Sym, r: Vec, noise: real)
    requires Det(InnovationCov(p, r, noise)) != 0.0
    ensures Full(UpdateCov(p, r, noise)) == Times(Correction(KalmanGain(p, r, noise), r), Full(p))
  {
    hide InnovationCov, Det, Cross, Apply, Dot, KalmanGain, UpdateCov, GainOf, Form, Minus, Correction, RowTimes;
    var k, b := KalmanGain(p, r, noise), IDENTITY;
    UpdateReduces(p, r, noise);
    GainAndCorrection(p, r, noise);
    BasisForms(p);
    CorrectedRow(p, r, b.r0, k.r0);
    CorrectedRow(p, r, b.r1, k.r1);
    CorrectedRow(p, r, b.r2, k.r2);
    FormSym(p, b.r0, b.r1);
    FormSym(p, b.r0, b.r2);
    FormSym(p, b.r1, b.r2);
    GainSymmetric(p, r, noise, b.r0, b.r1);
    GainSymmetric(p, r, noise, b.r0, b.r2);
    GainSymmetric(p, r, noise, b.r1, b.r2);
  }
}
