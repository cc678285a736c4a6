/** Vectors, symmetric matrices and matrices of size three over the reals: just enough to say what the
    hand-expanded formulas of the attitude filter mean. */
module Linear {
  datatype Vec = Vec(x: real, y: real, z: real)

  /** A symmetric matrix by its upper triangle, row by row: entries 00, 01, 02, 11, 12, 22. */
  datatype Sym = Sym(a: real, b: real, c: real, d: real, e: real, f: real)

  /** A matrix by its rows. */
  datatype Mat = Mat(r0: Vec, r1: Vec, r2: Vec)

  function Dot(u: Vec, v: Vec): real { u.x * v.x + u.y * v.y + u.z * v.z }

  function Cross(u: Vec, v: Vec): Vec {
    Vec(u.y * v.z - u.z * v.y, u.z * v.x - u.x * v.z, u.x * v.y - u.y * v.x)
  }

  function Plus(u: Vec, v: Vec): Vec { Vec(u.x + v.x, u.y + v.y, u.z + v.z) }

  function Minus(u: Vec, v: Vec): Vec { Vec(u.x - v.x, u.y - v.y, u.z - v.z) }

  function Scale(k: real, v: Vec): Vec { Vec(k * v.x, k * v.y, k * v.z) }

  predicate NonZero(v: Vec) { v.x != 0.0 || v.y != 0.0 || v.z != 0.0 }

  function Row0(s: Sym): Vec { Vec(s.a, s.b, s.c) }

  function Row1(s: Sym): Vec { Vec(s.b, s.d, s.e) }

  function Row2(s: Sym): Vec { Vec(s.c, s.e, s.f) }

  function Apply(s: Sym, v: Vec): Vec { Vec(Dot(Row0(s), v), Dot(Row1(s), v), Dot(Row2(s), v)) }

  /** The bilinear form of a symmetric matrix. */
  function Form(s: Sym, u: Vec, v: Vec): real { Dot(u, Apply(s, v)) }

  /** Positive semidefinite. */
  ghost predicate Psd(s: Sym) {
    forall v: Vec :: Form(s, v, v) >= 0.0
  }

  // ---- Matrices ----

  const IDENTITY: Mat := Mat(Vec(1.0, 0.0, 0.0), Vec(0.0, 1.0, 0.0), Vec(0.0, 0.0, 1.0))

  function Full(s: Sym): Mat { Mat(Row0(s), Row1(s), Row2(s)) }

  function Transpose(m: Mat): Mat {
    Mat(Vec(m.r0.x, m.r1.x, m.r2.x), Vec(m.r0.y, m.r1.y, m.r2.y), Vec(m.r0.z, m.r1.z, m.r2.z))
  }

  /** A row times a matrix. */
  function RowTimes(v: Vec, m: Mat): Vec {
    Plus(Scale(v.x, m.r0), Plus(Scale(v.y, m.r1), Scale(v.z, m.r2)))
  }

  function Times(m: Mat, n: Mat): Mat {
    Mat(RowTimes(m.r0, n), RowTimes(m.r1, n), RowTimes(m.r2, n))
  }

  function MatMinus(m: Mat, n: Mat): Mat { Mat(Minus(m.r0, n.r0), Minus(m.r1, n.r1), Minus(m.r2, n.r2)) }

  function MatScale(k: real, m: Mat): Mat { Mat(Scale(k, m.r0), Scale(k, m.r1), Scale(k, m.r2)) }

  /** The matrix of u -> r x u. */
  function CrossMat(r: Vec): Mat {
    Mat(Vec(0.0, -r.z, r.y), Vec(r.z, 0.0, -r.x), Vec(-r.y, r.x, 0.0))
  }

  // ---- Algebra of forms ----

  lemma DotSym(u: Vec, v: Vec)
    ensures Dot(u, v) == Dot(v, u)
  {
  }

  lemma FormSym(s: Sym, u: Vec, v: Vec)
    ensures Form(s, u, v) == Form(s, v, u)
  {
  }

  /** The bilinear form written out. */
  function Bilinear(s: Sym, x: real, y: real, z: real, x': real, y': real, z': real): real {
    x * (s.a * x' + s.b * y' + s.c * z') + y * (s.b * x' + s.d * y' + s.e * z') + z * (s.c * x' + s.e * y' + s.f * z')
  }

  lemma FormBilinear(s: Sym, u: Vec, v: Vec)
    ensures Form(s, u, v) == Bilinear(s, u.x, u.y, u.z, v.x, v.y, v.z)
  {
  }

  lemma FormMinus(s: Sym, u: Vec, u': Vec, v: Vec, v': Vec)
    ensures Form(s, Minus(u, u'), Minus(v, v')) == Form(s, u, v) - Form(s, u, v') - Form(s, u', v) + Form(s, u', v')
  {
  }

  /** Moving a cross product to the other side of a dot product. */
  lemma CrossTranspose(u: Vec, r: Vec, w: Vec)
    ensures Dot(Cross(u, r), w) == Dot(u, Cross(r, w))
  {
  }

  function Square(x: real): real { x * x }

  lemma PositiveProduct(x: real, y: real) returns (p: real)
    requires x > 0.0 && y > 0.0
    ensures p == x * y && p > 0.0
  {
    p := x * y;
  }

  lemma CancelFactor(x: real, y: real, k: real)
    requires k > 0.0 && x * k == y * k
    ensures x == y
  {
  }

  lemma SameProduct(p: real, p': real, q: real, q': real)
    requires p == p' && q == q'
    ensures p * q == p' * q'
  {
  }

  lemma SquareSign(x: real)
    ensures Square(x) >= 0.0
    ensures x != 0.0 ==> Square(x) > 0.0
  {
    if x > 0.0 {
      var p := PositiveProduct(x, x);
    } else if x < 0.0 {
      var p := PositiveProduct(-x, -x);
    }
  }

  lemma DotSquares(v: Vec)
    ensures Dot(v, v) == Square(v.x) + Square(v.y) + Square(v.z)
  {
  }

  lemma SquarePositive(v: Vec)
    ensures Dot(v, v) >= 0.0
    ensures NonZero(v) ==> Dot(v, v) > 0.0
  {
    hide Dot, Square;
    DotSquares(v);
    SquareSign(v.x);
    SquareSign(v.y);
    SquareSign(v.z);
  }

  // ---- Determinant and inverse ----

  function Det(s: Sym): real {
    -s.f * s.b * s.b + 2.0 * s.b * s.c * s.e - s.d * s.c * s.c - s.a * s.e * s.e + s.a * s.d * s.f
  }

  function Adjugate(s: Sym): Sym {
    Sym(s.d * s.f - s.e * s.e, s.c * s.e - s.b * s.f, s.b * s.e - s.c * s.d,
        s.a * s.f - s.c * s.c, s.b * s.c - s.a * s.e, s.a * s.d - s.b * s.b)
  }

  function Inverse(s: Sym): Sym
    requires Det(s) != 0.0
  {
    var n, d := Adjugate(s), Det(s);
    Sym(n.a / d, n.b / d, n.c / d, n.d / d, n.e / d, n.f / d)
  }

  lemma RowApply(r: Vec, t: Sym, v: Vec)
    ensures Dot(r, Apply(t, v)) == Dot(Vec(Dot(r, Row0(t)), Dot(r, Row1(t)), Dot(r, Row2(t))), v)
  {
  }

  lemma AdjugateDiagonal(s: Sym)
    ensures var t := Adjugate(s);
            Dot(Row0(s), Row0(t)) == Dot(Row1(s), Row1(t)) == Dot(Row2(s), Row2(t)) == Det(s)
  {
  }

  lemma AdjugateOffDiagonal(s: Sym)
    ensures var t := Adjugate(s);
            Dot(Row0(s), Row1(t)) == Dot(Row0(s), Row2(t)) == Dot(Row1(s), Row0(t)) == 0.0 &&
            Dot(Row1(s), Row2(t)) == Dot(Row2(s), Row0(t)) == Dot(Row2(s), Row1(t)) == 0.0
  {
  }

  lemma AdjugateTimes(s: Sym, v: Vec)
    ensures Apply(s, Apply(Adjugate(s), v)) == Scale(Det(s), v)
  {
    hide Adjugate, Det;
    var t := Adjugate(s);
    AdjugateDiagonal(s);
    AdjugateOffDiagonal(s);
    RowApply(Row0(s), t, v);
    RowApply(Row1(s), t, v);
    RowApply(Row2(s), t, v);
    hide Row0, Row1, Row2;
  }

  lemma ScaleInverse(d: real, a: real, b: real, c: real, v: Vec)
    requires d != 0.0
    ensures d * Dot(Vec(a / d, b / d, c / d), v) == Dot(Vec(a, b, c), v)
  {
    var u := Vec(a / d, b / d, c / d);
    assert d * u.x == a && d * u.y == b && d * u.z == c;
    assert d * (u.x * v.x + u.y * v.y + u.z * v.z) == (d * u.x) * v.x + (d * u.y) * v.y + (d * u.z) * v.z;
  }

  lemma InverseScales(s: Sym, v: Vec)
    requires Det(s) != 0.0
    ensures Scale(Det(s), Apply(Inverse(s), v)) == Apply(Adjugate(s), v)
  {
    hide Adjugate, Det, Dot;
    var n, d := Adjugate(s), Det(s);
    ScaleInverse(d, n.a, n.b, n.c, v);
    ScaleInverse(d, n.b, n.d, n.e, v);
    ScaleInverse(d, n.c, n.e, n.f, v);
  }

  lemma ApplyScale(s: Sym, k: real, v: Vec)
    ensures Apply(s, Scale(k, v)) == Scale(k, Apply(s, v))
  {
  }

  lemma ScaleCancels(d: real, u: Vec, v: Vec)
    requires d != 0.0 && Scale(d, u) == Scale(d, v)
    ensures u == v
  {
    assert d * u.x == d * v.x && d * u.y == d * v.y && d * u.z == d * v.z;
  }

  /** `Inverse` is a true inverse. */
  lemma InverseInverts(s: Sym, v: Vec)
    requires Det(s) != 0.0
    ensures Apply(s, Apply(Inverse(s), v)) == v
  {
    hide Adjugate, Det, Apply, Scale, Inverse;
    var u := Apply(Inverse(s), v);
    AdjugateTimes(s, v);
    InverseScales(s, v);
    ApplyScale(s, Det(s), u);
    ScaleCancels(Det(s), Apply(s, u), v);
  }

  ghost predicate PositiveDefinite(s: Sym) {
    forall v: Vec :: NonZero(v) ==> Form(s, v, v) > 0.0
  }

  lemma PositiveFactor(x: real, y: real)
    requires x > 0.0 && x * y > 0.0
    ensures y > 0.0
  {
  }

  lemma FormPositive(s: Sym, v: Vec)
    requires PositiveDefinite(s) && NonZero(v)
    ensures Form(s, v, v) > 0.0
  {
    hide Form;
  }

  /** A positive definite matrix has a positive determinant: the corner entry, the minor it belongs to
      and the determinant are positive one after the other. */
  lemma PositiveDet(s: Sym)
    requires PositiveDefinite(s)
    ensures Det(s) > 0.0
  {
    hide Form, Det, PositiveDefinite;
    FormPositive(s, Vec(0.0, 0.0, 1.0));
    CornerForm(s);
    FormPositive(s, Vec(0.0, s.f, -s.e));
    MinorPositive(s);
    FormPositive(s, Row0(Adjugate(s)));
    DetFactorPositive(s);
  }

  lemma CornerForm(s: Sym)
    ensures var v := Vec(0.0, 0.0, 1.0); Form(s, v, v) == s.f
  {
  }

  lemma MinorForm(s: Sym)
    ensures var w := Vec(0.0, s.f, -s.e); Form(s, w, w) == s.f * (s.d * s.f - s.e * s.e)
  {
  }

  lemma MinorPositive(s: Sym)
    requires var w := Vec(0.0, s.f, -s.e); s.f > 0.0 && Form(s, w, w) > 0.0
    ensures s.d * s.f - s.e * s.e > 0.0
  {
    hide *;
    MinorForm(s);
    PositiveFactor(s.f, s.d * s.f - s.e * s.e);
  }

  /** The first row of the adjugate turns the form into minor times determinant. */
  lemma RowForm(s: Sym)
    ensures var v := Row0(Adjugate(s)); Form(s, v, v) == (s.d * s.f - s.e * s.e) * Det(s)
  {
    var e0 := Vec(1.0, 0.0, 0.0);
    assert Apply(Adjugate(s), e0) == Row0(Adjugate(s));
    AdjugateTimes(s, e0);
    hide Det;
    assert Scale(Det(s), e0) == Vec(Det(s), 0.0, 0.0);
  }

  lemma DetFactorPositive(s: Sym)
    requires var v := Row0(Adjugate(s)); s.d * s.f - s.e * s.e > 0.0 && Form(s, v, v) > 0.0
    ensures Det(s) > 0.0
  {
    hide *;
    RowForm(s);
    PositiveFactor(s.d * s.f - s.e * s.e, Det(s));
  }

  // ---- Congruence: m p m^T ----

  /** The symmetric matrix whose entries are the form of `p` on the rows of `m`. */
  function Congruent(m: Mat, p: Sym): Sym {
    Sym(Form(p, m.r0, m.r0), Form(p, m.r0, m.r1), Form(p, m.r0, m.r2),
        Form(p, m.r1, m.r1), Form(p, m.r1, m.r2), Form(p, m.r2, m.r2))
  }

  lemma RowTimesFull(v: Vec, p: Sym)
    ensures RowTimes(v, Full(p)) == Apply(p, v)
  {
  }

  lemma RowTimesTranspose(v: Vec, m: Mat)
    ensures RowTimes(v, Transpose(m)) == Vec(Dot(v, m.r0), Dot(v, m.r1), Dot(v, m.r2))
  {
  }

  lemma RowCongruence(v: Vec, p: Sym, m: Mat)
    ensures RowTimes(RowTimes(v, Full(p)), Transpose(m)) == Vec(Form(p, v, m.r0), Form(p, v, m.r1), Form(p, v, m.r2))
  {
    hide RowTimes, Transpose, Full, Apply, Dot;
    var q := Apply(p, v);
    RowTimesFull(v, p);
    RowTimesTranspose(q, m);
    DotSym(q, m.r0);
    DotSym(q, m.r1);
    DotSym(q, m.r2);
    FormSym(p, v, m.r0);
    FormSym(p, v, m.r1);
    FormSym(p, v, m.r2);
  }

  lemma CongruentIsProduct(m: Mat, p: Sym)
    ensures Times(Times(m, Full(p)), Transpose(m)) == Full(Congruent(m, p))
  {
    hide RowTimes, Transpose, Form;
    RowCongruence(m.r0, p, m);
    RowCongruence(m.r1, p, m);
    RowCongruence(m.r2, p, m);
    FormSym(p, m.r0, m.r1);
    FormSym(p, m.r0, m.r2);
    FormSym(p, m.r1, m.r2);
  }

  lemma ApplyPlus(p: Sym, u: Vec, v: Vec)
    ensures Apply(p, Plus(u, v)) == Plus(Apply(p, u), Apply(p, v))
  {
  }

  lemma ApplyRowTimes(p: Sym, v: Vec, m: Mat)
    ensures Apply(p, RowTimes(v, m)) == RowTimes(v, Mat(Apply(p, m.r0), Apply(p, m.r1), Apply(p, m.r2)))
  {
    hide Apply, Plus, Scale;
    ApplyScale(p, v.x, m.r0);
    ApplyScale(p, v.y, m.r1);
    ApplyScale(p, v.z, m.r2);
    ApplyPlus(p, Scale(v.y, m.r1), Scale(v.z, m.r2));
    ApplyPlus(p, Scale(v.x, m.r0), Plus(Scale(v.y, m.r1), Scale(v.z, m.r2)));
  }

  lemma DotRowTimes(v: Vec, m: Mat, w: Vec)
    ensures Dot(RowTimes(v, m), w) == v.x * Dot(m.r0, w) + v.y * Dot(m.r1, w) + v.z * Dot(m.r2, w)
    ensures Dot(w, RowTimes(v, m)) == v.x * Dot(w, m.r0) + v.y * Dot(w, m.r1) + v.z * Dot(w, m.r2)
  {
  }

  /** The dot product of combinations of three vectors each. */
  lemma DotCombination(u: Vec, m: Mat, v: Vec, n: Mat)
    ensures Dot(RowTimes(u, m), RowTimes(v, n))
         == u.x * (v.x * Dot(m.r0, n.r0) + v.y * Dot(m.r0, n.r1) + v.z * Dot(m.r0, n.r2))
          + u.y * (v.x * Dot(m.r1, n.r0) + v.y * Dot(m.r1, n.r1) + v.z * Dot(m.r1, n.r2))
          + u.z * (v.x * Dot(m.r2, n.r0) + v.y * Dot(m.r2, n.r1) + v.z * Dot(m.r2, n.r2))
  {
    hide Dot, RowTimes;
    DotRowTimes(u, m, RowTimes(v, n));
    DotRowTimes(v, n, m.r0);
    DotRowTimes(v, n, m.r1);
    DotRowTimes(v, n, m.r2);
  }

  lemma CongruentForm(m: Mat, p: Sym, u: Vec, v: Vec)
    ensures Form(Congruent(m, p), u, v) == Form(p, RowTimes(u, m), RowTimes(v, m))
  {
    hide RowTimes, Apply, Dot;
    var n := Mat(Apply(p, m.r0), Apply(p, m.r1), Apply(p, m.r2));
    ApplyRowTimes(p, v, m);
    DotCombination(u, m, v, n);
    FormSym(p, m.r0, m.r1);
    FormSym(p, m.r0, m.r2);
    FormSym(p, m.r1, m.r2);
    CongruentEntries(m, p, n, u, v);
  }

  lemma CongruentEntries(m: Mat, p: Sym, n: Mat, u: Vec, v: Vec)
    requires n == Mat(Apply(p, m.r0), Apply(p, m.r1), Apply(p, m.r2))
    ensures Form(Congruent(m, p), u, v)
         == u.x * (v.x * Dot(m.r0, n.r0) + v.y * Dot(m.r0, n.r1) + v.z * Dot(m.r0, n.r2))
          + u.y * (v.x * Dot(m.r0, n.r1) + v.y * Dot(m.r1, n.r1) + v.z * Dot(m.r1, n.r2))
          + u.z * (v.x * Dot(m.r0, n.r2) + v.y * Dot(m.r1, n.r2) + v.z * Dot(m.r2, n.r2))
  {
    var s := Congruent(m, p);
    FormBilinear(s, u, v);
    hide Apply, Dot;
  }

  /** Congruence keeps semidefiniteness. */
  lemma CongruentPsd(m: Mat, p: Sym)
    requires Psd(p)
    ensures Psd(Congruent(m, p))
  {
    hide Form, Congruent, RowTimes;
    forall v: Vec ensures Form(Congruent(m, p), v, v) >= 0.0 { CongruentForm(m, p, v, v); }
  }

  function Diagonal(k: real): Sym { Sym(k, 0.0, 0.0, k, 0.0, k) }

  function SymPlus(s: Sym, t: Sym): Sym {
    Sym(s.a + t.a, s.b + t.b, s.c + t.c, s.d + t.d, s.e + t.e, s.f + t.f)
  }

  lemma FormSymPlus(s: Sym, t: Sym, u: Vec, v: Vec)
    ensures Form(SymPlus(s, t), u, v) == Form(s, u, v) + Form(t, u, v)
  {
  }

  lemma FormDiagonal(k: real, u: Vec, v: Vec)
    ensures Form(Diagonal(k), u, v) == k * Dot(u, v)
  {
  }

  lemma DiagonalPsd(k: real)
    requires k >= 0.0
    ensures Psd(Diagonal(k))
  {
    hide Form, Dot;
    forall v: Vec ensures Form(Diagonal(k), v, v) >= 0.0 {
      FormDiagonal(k, v, v);
      SquarePositive(v);
    }
  }

  lemma SumPsd(s: Sym, t: Sym)
    requires Psd(s) && Psd(t)
    ensures Psd(SymPlus(s, t))
  {
    hide Form;
    forall v: Vec ensures Form(SymPlus(s, t), v, v) >= 0.0 { FormSymPlus(s, t, v, v); }
  }
}
