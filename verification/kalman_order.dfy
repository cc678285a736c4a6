/** What an update and a propagation of the attitude filter do to the uncertainty in every direction. */
module KalmanOrder {
  import opened Linear
  import opened KalmanMath

  function SymMinus(s: Sym, t: Sym): Sym { Sym(s.a - t.a, s.b - t.b, s.c - t.c, s.d - t.d, s.e - t.e, s.f - t.f) }

  lemma FormSymMinus(s: Sym, t: Sym, u: Vec, v: Vec)
    ensures Form(SymMinus(s, t), u, v) == Form(s, u, v) - Form(t, u, v)
  {
  }

  /** The rows H P e for the three unit vectors e. */
  function CrossRows(p: Sym, r: Vec): Mat {
    Mat(Cross(r, Apply(p, IDENTITY.r0)), Cross(r, Apply(p, IDENTITY.r1)), Cross(r, Apply(p, IDENTITY.r2)))
  }

  /** What an update takes off the covariance: K H P, by its upper triangle. */
  function Reduction(p: Sym, r: Vec, noise: real): Sym
    requires Det(InnovationCov(p, r, noise)) != 0.0
  {
    var k, a := KalmanGain(p, r, noise), CrossRows(p, r);
    Sym(Dot(k.r0, a.r0), Dot(k.r0, a.r1), Dot(k.r0, a.r2), Dot(k.r1, a.r1), Dot(k.r1, a.r2), Dot(k.r2, a.r2))
  }

  lemma UpdateIsReduction(p: Sym, r: Vec, noise: real)
    requires Det(InnovationCov(p, r, noise)) != 0.0
    ensures UpdateCov(p, r, noise) == SymMinus(p, Reduction(p, r, noise))
  {
    hide InnovationCov, Det, Cross, Apply, Dot, KalmanGain, UpdateCov;
    UpdateReduces(p, r, noise);
  }

  lemma SymmetricForm(m: Sym, k: Mat, a: Mat, v: Vec)
    requires m == Sym(Dot(k.r0, a.r0), Dot(k.r0, a.r1), Dot(k.r0, a.r2), Dot(k.r1, a.r1), Dot(k.r1, a.r2), Dot(k.r2, a.r2))
    requires Dot(k.r1, a.r0) == m.b && Dot(k.r2, a.r0) == m.c && Dot(k.r2, a.r1) == m.e
    ensures Form(m, v, v) == Dot(RowTimes(v, k), RowTimes(v, a))
  {
    hide RowTimes;
    DotCombination(v, k, v, a);
    FormBilinear(m, v, v);
    hide Dot, Form;
  }

  lemma ReductionForm(p: Sym, r: Vec, noise: real, v: Vec)
    requires Det(InnovationCov(p, r, noise)) != 0.0
    ensures var w := RowTimes(v, CrossRows(p, r));
            Form(Reduction(p, r, noise), v, v) == Dot(Apply(Inverse(InnovationCov(p, r, noise)), w), w)
  {
    hide InnovationCov, Det, Cross, Apply, Dot, KalmanGain, Inverse, RowTimes, Form, Correction;
    var k, a, b, inv := KalmanGain(p, r, noise), CrossRows(p, r), IDENTITY, Inverse(InnovationCov(p, r, noise));
    GainAndCorrection(p, r, noise);
    GainSymmetric(p, r, noise, b.r0, b.r1);
    GainSymmetric(p, r, noise, b.r0, b.r2);
    GainSymmetric(p, r, noise, b.r1, b.r2);
    SymmetricForm(Reduction(p, r, noise), k, a, v);
    ApplyRowTimes(inv, v, a);
  }

  lemma InnovationPsd(p: Sym, r: Vec, noise: real)
    requires Psd(p) && noise >= 0.0
    ensures Psd(InnovationCov(p, r, noise))
  {
    hide InnovationCov, Psd, Congruent, SymPlus, Diagonal, CrossMat;
    MeasurementMeaning(p, r, noise);
    CongruentPsd(CrossMat(r), p);
    DiagonalPsd(noise);
    SumPsd(Congruent(CrossMat(r), p), Diagonal(noise));
  }

  lemma InverseFormPositive(s: Sym, w: Vec)
    requires Psd(s) && Det(s) != 0.0
    ensures Dot(Apply(Inverse(s), w), w) >= 0.0
  {
    hide Det, Dot, Inverse, Psd, Form, Apply;
    var x := Apply(Inverse(s), w);
    PsdAt(s, x);
    InverseInverts(s, w);
    FormIs(s, x, x);
  }

  lemma PsdAt(p: Sym, v: Vec)
    requires Psd(p)
    ensures Form(p, v, v) >= 0.0
  {
  }

  lemma FormIs(s: Sym, u: Vec, v: Vec)
    ensures Form(s, u, v) == Dot(u, Apply(s, v))
  {
  }

  /** An update never makes the uncertainty greater in any direction. */
  lemma UpdateNeverRaises(p: Sym, r: Vec, noise: real, v: Vec)
    requires Psd(p) && noise > 0.0
    ensures Det(InnovationCov(p, r, noise)) > 0.0
    ensures Form(UpdateCov(p, r, noise), v, v) <= Form(p, v, v)
  {
    hide *;
    DetPositive(p, r, noise);
    UpdateIsReduction(p, r, noise);
    FormSymMinus(p, Reduction(p, r, noise), v, v);
    ReductionForm(p, r, noise, v);
    InnovationPsd(p, r, noise);
    InverseFormPositive(InnovationCov(p, r, noise), RowTimes(v, CrossRows(p, r)));
  }

  /** In every direction `s` is at most as uncertain as `t`. */
  ghost predicate Narrower(s: Sym, t: Sym) {
    forall v: Vec :: Form(s, v, v) <= Form(t, v, v)
  }

  lemma UpdateNarrows(p: Sym, r: Vec, noise: real)
    requires Psd(p) && noise > 0.0
    ensures Det(InnovationCov(p, r, noise)) > 0.0 && Narrower(UpdateCov(p, r, noise), p)
  {
    DetPositive(p, r, noise);
    hide Psd, Det, InnovationCov, UpdateCov, Form;
    forall v: Vec ensures Form(UpdateCov(p, r, noise), v, v) <= Form(p, v, v) { UpdateNeverRaises(p, r, noise, v); }
  }

  // ---- Positive definiteness ----

  lemma NarrowerDefinite(s: Sym, t: Sym)
    requires Narrower(s, t) && PositiveDefinite(s)
    ensures PositiveDefinite(t)
  {
    hide Form;
  }

  lemma DiagonalDefinite(k: real)
    requires k > 0.0
    ensures PositiveDefinite(Diagonal(k))
  {
    hide Form, Dot, Diagonal, NonZero;
    forall v: Vec | NonZero(v) ensures Form(Diagonal(k), v, v) > 0.0 {
      FormDiagonal(k, v, v);
      SquarePositive(v);
      var e := PositiveProduct(k, Dot(v, v));
    }
  }

  lemma DefiniteIsPsd(p: Sym)
    requires PositiveDefinite(p)
    ensures Psd(p)
  {
    forall v: Vec ensures Form(p, v, v) >= 0.0 {
      if !NonZero(v) {
        assert v == Vec(0.0, 0.0, 0.0);
      }
    }
  }

  /** Propagation makes every semidefinite covariance definite. */
  lemma PropagateMakesDefinite(p: Sym, w: Vec)
    requires Psd(p)
    ensures PositiveDefinite(PropagateCov(p, w))
  {
    hide PropagateCov, Congruent, SymPlus, Diagonal, Form, Transition;
    PropagateMeaning(p, w);
    CongruentPsd(Transition(w), p);
    var c, d := Congruent(Transition(w), p), DT * SIGMA_W2;
    forall v: Vec | NonZero(v) ensures Form(PropagateCov(p, w), v, v) > 0.0 {
      FormSymPlus(c, Diagonal(d), v, v);
      FormDiagonal(d, v, v);
      SquarePositive(v);
      var e := PositiveProduct(d, Dot(v, v));
    }
  }

  /** A cross product by its dot products with the columns of the cross matrix. */
  lemma CrossDots(u: Vec, r: Vec)
    ensures Cross(u, r) == Vec(Dot(u, Vec(0.0, r.z, -r.y)), Dot(u, Vec(-r.z, 0.0, r.x)), Dot(u, Vec(r.y, -r.x, 0.0)))
  {
  }

  lemma CrossLinear(v: Vec, k: Mat, r: Vec)
    ensures Cross(RowTimes(v, k), r) == RowTimes(v, Mat(Cross(k.r0, r), Cross(k.r1, r), Cross(k.r2, r)))
  {
    CrossDots(RowTimes(v, k), r);
    CrossDots(k.r0, r);
    CrossDots(k.r1, r);
    CrossDots(k.r2, r);
    DotRowTimes(v, k, Vec(0.0, r.z, -r.y));
    DotRowTimes(v, k, Vec(-r.z, 0.0, r.x));
    DotRowTimes(v, k, Vec(r.y, -r.x, 0.0));
    hide Cross, Dot;
  }

  lemma ScaleMinus(k: real, u: Vec, v: Vec)
    ensures Scale(k, Minus(u, v)) == Minus(Scale(k, u), Scale(k, v))
  {
  }

  lemma PlusMinus(t: Vec, u: Vec, v: Vec, w: Vec)
    ensures Plus(Minus(t, u), Minus(v, w)) == Minus(Plus(t, v), Plus(u, w))
  {
  }

  lemma RowTimesMinus(v: Vec, m: Mat, n: Mat)
    ensures RowTimes(v, MatMinus(m, n)) == Minus(RowTimes(v, m), RowTimes(v, n))
  {
    hide Plus, Scale, Minus;
    ScaleMinus(v.x, m.r0, n.r0);
    ScaleMinus(v.y, m.r1, n.r1);
    ScaleMinus(v.z, m.r2, n.r2);
    PlusMinus(Scale(v.y, m.r1), Scale(v.y, n.r1), Scale(v.z, m.r2), Scale(v.z, n.r2));
    PlusMinus(Scale(v.x, m.r0), Scale(v.x, n.r0),
              Plus(Scale(v.y, m.r1), Scale(v.z, m.r2)), Plus(Scale(v.y, n.r1), Scale(v.z, n.r2)));
  }

  lemma RowTimesIdentity(v: Vec)
    ensures RowTimes(v, IDENTITY) == v
  {
  }

  lemma MinusRows(v: Vec, k: Mat, r: Vec)
    ensures RowTimes(v, Mat(Minus(IDENTITY.r0, Cross(k.r0, r)), Minus(IDENTITY.r1, Cross(k.r1, r)),
                            Minus(IDENTITY.r2, Cross(k.r2, r))))
         == Minus(v, Cross(RowTimes(v, k), r))
  {
    hide Cross, Minus, RowTimes;
    RowTimesMinus(v, IDENTITY, Mat(Cross(k.r0, r), Cross(k.r1, r), Cross(k.r2, r)));
    RowTimesIdentity(v);
    CrossLinear(v, k, r);
  }

  /** An update keeps a definite covariance definite. */
  lemma UpdateKeepsDefinite(p: Sym, r: Vec, noise: real)
    requires PositiveDefinite(p) && noise > 0.0
    ensures Det(InnovationCov(p, r, noise)) > 0.0 && PositiveDefinite(UpdateCov(p, r, noise))
  {
    DefiniteIsPsd(p);
    DetPositive(p, r, noise);
    forall v: Vec | NonZero(v) ensures Form(UpdateCov(p, r, noise), v, v) > 0.0 {
      UpdateDefiniteAt(p, r, noise, v);
    }
  }

  /** The Joseph form in one direction. */
  lemma UpdatedForm(p: Sym, r: Vec, noise: real, v: Vec)
    requires Det(InnovationCov(p, r, noise)) != 0.0
    ensures var u := RowTimes(v, KalmanGain(p, r, noise));
            var w := Minus(v, Cross(u, r));
            Form(UpdateCov(p, r, noise), v, v) == Form(p, w, w) + noise * Dot(u, u)
  {
    hide InnovationCov, Det, KalmanGain, UpdateCov, Correction, Congruent, Diagonal, SymPlus, Form, Dot, Minus, Cross, RowTimes;
    var k := KalmanGain(p, r, noise);
    JosephForm(p, r, noise);
    GainAndCorrection(p, r, noise);
    MinusRows(v, k, r);
    FormSymPlus(Congruent(Correction(k, r), p), Congruent(k, Diagonal(noise)), v, v);
    CongruentForm(Correction(k, r), p, v, v);
    CongruentForm(k, Diagonal(noise), v, v);
    FormDiagonal(noise, RowTimes(v, k), RowTimes(v, k));
  }

  lemma ZeroCorrection(v: Vec, u: Vec, r: Vec)
    ensures NonZero(u) || Minus(v, Cross(u, r)) == v
  {
  }

  lemma DefiniteAt(p: Sym, w: Vec)
    requires PositiveDefinite(p)
    ensures Form(p, w, w) >= 0.0 && (NonZero(w) ==> Form(p, w, w) > 0.0)
  {
    DefiniteIsPsd(p);
    hide Form;
  }

  lemma UpdateDefiniteAt(p: Sym, r: Vec, noise: real, v: Vec)
    requires PositiveDefinite(p) && noise > 0.0 && NonZero(v)
    requires Det(InnovationCov(p, r, noise)) > 0.0
    ensures Form(UpdateCov(p, r, noise), v, v) > 0.0
  {
    hide *;
    var u := RowTimes(v, KalmanGain(p, r, noise));
    var w := Minus(v, Cross(u, r));
    DefiniteAt(p, w);
    ZeroCorrection(v, u, r);
    UpdatedForm(p, r, noise, v);
    ScaledSquare(noise, u);
  }

  lemma ScaledSquare(k: real, u: Vec)
    requires k > 0.0
    ensures k * Dot(u, u) >= 0.0 && (NonZero(u) ==> k * Dot(u, u) > 0.0)
  {
    hide Dot;
    SquarePositive(u);
    if Dot(u, u) > 0.0 { var e := PositiveProduct(k, Dot(u, u)); }
  }
}
