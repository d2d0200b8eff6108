/**
 * The matrix regressions of test/mat.cpp. Every matrix is a parameter
 * equated to the test's literal, and the arithmetic goes through the
 * closed forms of Matrices (Det3Of, Minor4, TranslateScale).
 */
module MatrixRegressions {
  import opened Vectors
  import opened Matrices
  import opened MatrixInverse
  import opened MatrixStorage
  import opened RowMajor

  /** Undoing a product: for an invertible 4 x 4 matrix b, (a * b) * inverse(b) == a. */
  lemma {:induction false} UndoProduct(a: Mat, b: Mat)
    requires |a| == |b| == 4 && Invertible(b)
    ensures Product(Product(a, b), InverseOf(b)) == a
  {
    InverseIsInverse4(b);
    ProductAssociative(a, b, InverseOf(b));
    IdentityNeutral(a);
  }

  /** UndoTranslateScale subtracts w times t from x, y and z, then divides them by s. */
  lemma {:induction false} UndoTranslateScaleAction(t: Vec, s: Vec, v: Vec)
    requires s.x != 0.0 && s.y != 0.0 && s.z != 0.0
    ensures MatVec(UndoTranslateScale(t, s), v)
      == Vec((1.0 / s.x) * v.x + (-t.x / s.x) * v.w, (1.0 / s.y) * v.y + (-t.y / s.y) * v.w,
             (1.0 / s.z) * v.z + (-t.z / s.z) * v.w, v.w)
  {
  }

  /**
   * Applying the inverse of make_translation(t) * make_scaled(s) with nonzero
   * scale factors: each of x, y and z is divided by its scale factor, less
   * w times the translation divided by the same factor.
   */
  lemma {:induction false} TranslateScaleInverseAction(m: Mat, t: Vec, s: Vec, v: Vec)
    requires m == TranslateScale(t, s) && s.x != 0.0 && s.y != 0.0 && s.z != 0.0
    ensures Invertible(m)
    ensures MatVec(InverseOf(m), v)
      == Vec((1.0 / s.x) * v.x + (-t.x / s.x) * v.w, (1.0 / s.y) * v.y + (-t.y / s.y) * v.w,
             (1.0 / s.z) * v.z + (-t.z / s.z) * v.w, v.w)
  {
    TranslateScaleInverse(t, s);
    UndoTranslateScaleAction(t, s, v);
  }

  /** Test make_translation: points move by (5, -3, 2) and vectors stay where they are. */
  lemma {:induction false} TranslationRegression(m: Mat, p: Vec, v: Vec)
    requires m == Translation(5.0, -3.0, 2.0) && p == Point(-3.0, 4.0, 5.0) && v == Vector(-3.0, 4.0, 5.0)
    ensures MatVec(m, p) == Point(2.0, 1.0, 7.0)
    ensures MatVec(m, v) == v
  {
    TranslationAction(5.0, -3.0, 2.0, p);
    TranslationAction(5.0, -3.0, 2.0, v);
  }

  /** Test make_translation: the translation is invertible and its inverse moves the point back. */
  lemma {:induction false} TranslationInverseRegression(m: Mat, p: Vec)
    requires m == Translation(5.0, -3.0, 2.0) && p == Point(-3.0, 4.0, 5.0)
    ensures Invertible(m) && MatVec(InverseOf(m), p) == Point(-8.0, 7.0, 3.0)
  {
    TranslateScaleInverseAction(m, Vector(5.0, -3.0, 2.0), Vector(1.0, 1.0, 1.0), p);
  }

  /** Test make_scaled: points and vectors scale by (2, 3, 4). */
  lemma {:induction false} ScaledRegression(m: Mat, p: Vec, v: Vec)
    requires m == Scaled(2.0, 3.0, 4.0) && p == Point(-4.0, 6.0, 8.0) && v == Vector(-4.0, 6.0, 8.0)
    ensures MatVec(m, p) == Point(-8.0, 18.0, 32.0)
    ensures MatVec(m, v) == Vector(-8.0, 18.0, 32.0)
  {
    ScaledAction(2.0, 3.0, 4.0, p);
    ScaledAction(2.0, 3.0, 4.0, v);
  }

  /** Test make_scaled: the scale is invertible and its inverse divides a vector back. */
  lemma {:induction false} ScaledInverseRegression(m: Mat, v: Vec)
    requires m == Scaled(2.0, 3.0, 4.0) && v == Vector(-4.0, 6.0, 8.0)
    ensures Invertible(m) && MatVec(InverseOf(m), v) == Vector(-2.0, 2.0, 2.0)
  {
    TranslateScaleInverseAction(m, Vector(0.0, 0.0, 0.0), Vector(2.0, 3.0, 4.0), v);
  }

  /** Test make_sheared: each of the six shear factors moves (2, 3, 4) along one axis. */
  lemma {:induction false} ShearedRegression(p: Vec)
    requires p == Point(2.0, 3.0, 4.0)
    ensures MatVec(Sheared(1.0, 0.0, 0.0, 0.0, 0.0, 0.0), p) == Point(5.0, 3.0, 4.0)
    ensures MatVec(Sheared(0.0, 1.0, 0.0, 0.0, 0.0, 0.0), p) == Point(6.0, 3.0, 4.0)
    ensures MatVec(Sheared(0.0, 0.0, 1.0, 0.0, 0.0, 0.0), p) == Point(2.0, 5.0, 4.0)
    ensures MatVec(Sheared(0.0, 0.0, 0.0, 1.0, 0.0, 0.0), p) == Point(2.0, 7.0, 4.0)
    ensures MatVec(Sheared(0.0, 0.0, 0.0, 0.0, 1.0, 0.0), p) == Point(2.0, 3.0, 6.0)
    ensures MatVec(Sheared(0.0, 0.0, 0.0, 0.0, 0.0, 1.0), p) == Point(2.0, 3.0, 7.0)
  {
    ShearedAction(1.0, 0.0, 0.0, 0.0, 0.0, 0.0, p);
    ShearedAction(0.0, 1.0, 0.0, 0.0, 0.0, 0.0, p);
    ShearedAction(0.0, 0.0, 1.0, 0.0, 0.0, 0.0, p);
    ShearedAction(0.0, 0.0, 0.0, 1.0, 0.0, 0.0, p);
    ShearedAction(0.0, 0.0, 0.0, 0.0, 1.0, 0.0, p);
    ShearedAction(0.0, 0.0, 0.0, 0.0, 0.0, 1.0, p);
  }

  /** Test transpose: the 2 x 2 matrix (1 2; 3 4) transposes to (1 3; 2 4). */
  lemma {:induction false} TransposeRegression(m: Mat, t: Mat)
    requires m == [[1.0, 2.0], [3.0, 4.0]] && t == [[1.0, 3.0], [2.0, 4.0]]
    ensures Transpose(m) == t
  {
    var r := Transpose(m);
    assert r[0][0] == 1.0 && r[0][1] == 3.0 && r[1][0] == 2.0 && r[1][1] == 4.0;
    MatExt(r, t);
  }

  /** Tests minor and cofactor on the 3 x 3 matrix (3 5 0; 2 -1 -7; 6 -1 5). */
  lemma {:induction false} MinorCofactorRegression(m: Mat)
    requires m == [[3.0, 5.0, 0.0], [2.0, -1.0, -7.0], [6.0, -1.0, 5.0]]
    ensures Minor(m, 1, 0) == 25.0
    ensures Cofactor(m, 0, 0) == -12.0 && Cofactor(m, 1, 0) == -25.0
  {
    var s := Submatrix(m, 1, 0);
    assert s[0][0] == 5.0 && s[0][1] == 0.0 && s[1][0] == -1.0 && s[1][1] == 5.0;
    assert Minor(m, 1, 0) == Det(s);
    Minor3(m, 0);
  }

  /** Test determinant, 3 x 3: -196. */
  lemma {:induction false} Det3Regression(m: Mat)
    requires m == [[1.0, 2.0, 6.0], [-5.0, 8.0, -4.0], [2.0, 6.0, 4.0]]
    ensures Det(m) == -196.0
  {
    Det3Formula(m);
  }

  /** The first-row expansion of a 4 x 4 determinant as four signed closed-form minors. */
  lemma {:induction false} Det4Closed(m: Mat)
    requires |m| == 4
    ensures Det(m) ==
      m[0][0] * Det3Of(m[1][1], m[1][2], m[1][3], m[2][1], m[2][2], m[2][3], m[3][1], m[3][2], m[3][3])
      - m[0][1] * Det3Of(m[1][0], m[1][2], m[1][3], m[2][0], m[2][2], m[2][3], m[3][0], m[3][2], m[3][3])
      + m[0][2] * Det3Of(m[1][0], m[1][1], m[1][3], m[2][0], m[2][1], m[2][3], m[3][0], m[3][1], m[3][3])
      - m[0][3] * Det3Of(m[1][0], m[1][1], m[1][2], m[2][0], m[2][1], m[2][2], m[3][0], m[3][1], m[3][2])
  {
    Det4Expansion(m);
    Minor4(m, 0, 0);
    Minor4(m, 0, 1);
    Minor4(m, 0, 2);
    Minor4(m, 0, 3);
  }

  /** Test determinant, 4 x 4: -4071. */
  lemma {:induction false} Det4Regression(m: Mat)
    requires m == [[-2.0, -8.0, 3.0, 5.0], [-3.0, 1.0, 7.0, 3.0], [1.0, 2.0, -9.0, 6.0], [-6.0, 7.0, 7.0, -9.0]]
    ensures Det(m) == -4071.0
  {
    Det4Closed(m);
  }

  /** Test invertible: a matrix of determinant -2120 is invertible, one with a zero row is not. */
  lemma {:induction false} InvertibleRegression(m1: Mat, m2: Mat)
    requires m1 == [[6.0, 4.0, 4.0, 4.0], [5.0, 5.0, 7.0, 6.0], [4.0, -9.0, 3.0, -7.0], [9.0, 1.0, 7.0, -6.0]]
    requires m2 == [[-4.0, 2.0, -2.0, -3.0], [9.0, 6.0, 2.0, 6.0], [0.0, -5.0, 1.0, -5.0], [0.0, 0.0, 0.0, 0.0]]
    ensures Det(m1) == -2120.0 && Invertible(m1)
    ensures !Invertible(m2) && InverseOf(m2) == Identity(4)
  {
    Det4Closed(m1);
    assert ZeroRow(m2, 3);
    DetZeroRow(m2, 3);
  }

  /** Two reals with the same nonzero multiple are equal. */
  lemma {:induction false} CancelFactor(x: real, y: real, d: real)
    requires d != 0.0 && x * d == y * d
    ensures x == y
  {
    assert (x - y) * d == 0.0;
  }

  /** A matrix whose entries times the nonzero determinant are the transposed cofactors is the inverse. */
  lemma {:induction false} InverseFromCofactors(m: Mat, k: Mat, d: real)
    requires |k| == |m| && d == Det(m) && d != 0.0
    requires forall i, j :: 0 <= i < |m| && 0 <= j < |m| ==> k[i][j] * d == Cofactor(m, j, i)
    ensures Invertible(m) && InverseOf(m) == k
  {
    InverseCases(m);
    var inv := InverseOf(m);
    forall i, j | 0 <= i < |m| && 0 <= j < |m|
      ensures inv[i][j] == k[i][j]
    {
      CancelFactor(inv[i][j], k[i][j], d);
    }
    MatExt(inv, k);
  }

  /** The cofactors along row 0 of m1 in the inverse test. */
  lemma {:induction false} M1CofactorsRow0(m: Mat)
    requires m == [[8.0, -5.0, 9.0, 2.0],
                   [7.0, 5.0, 6.0, 1.0],
                   [-6.0, 0.0, 9.0, 6.0],
                   [-3.0, 0.0, -9.0, -4.0]]
    ensures Cofactor(m, 0, 0) == 90.0 && Cofactor(m, 0, 1) == 45.0 && Cofactor(m, 0, 2) == -210.0 && Cofactor(m, 0, 3) == 405.0
  {
    Minor4(m, 0, 0);
    Minor4(m, 0, 1);
    Minor4(m, 0, 2);
    Minor4(m, 0, 3);
  }

  /** The cofactors along row 1 of m1 in the inverse test. */
  lemma {:induction false} M1CofactorsRow1(m: Mat)
    requires m == [[8.0, -5.0, 9.0, 2.0],
                   [7.0, 5.0, 6.0, 1.0],
                   [-6.0, 0.0, 9.0, 6.0],
                   [-3.0, 0.0, -9.0, -4.0]]
    ensures Cofactor(m, 1, 0) == 90.0 && Cofactor(m, 1, 1) == -72.0 && Cofactor(m, 1, 2) == -210.0 && Cofactor(m, 1, 3) == 405.0
  {
    Minor4(m, 1, 0);
    Minor4(m, 1, 1);
    Minor4(m, 1, 2);
    Minor4(m, 1, 3);
  }

  /** The cofactors along row 2 of m1 in the inverse test. */
  lemma {:induction false} M1CofactorsRow2(m: Mat)
    requires m == [[8.0, -5.0, 9.0, 2.0],
                   [7.0, 5.0, 6.0, 1.0],
                   [-6.0, 0.0, 9.0, 6.0],
                   [-3.0, 0.0, -9.0, -4.0]]
    ensures Cofactor(m, 2, 0) == 165.0 && Cofactor(m, 2, 1) == -15.0 && Cofactor(m, 2, 2) == -255.0 && Cofactor(m, 2, 3) == 450.0
  {
    Minor4(m, 2, 0);
    Minor4(m, 2, 1);
    Minor4(m, 2, 2);
    Minor4(m, 2, 3);
  }

  /** The cofactors along row 3 of m1 in the inverse test. */
  lemma {:induction false} M1CofactorsRow3(m: Mat)
    requires m == [[8.0, -5.0, 9.0, 2.0],
                   [7.0, 5.0, 6.0, 1.0],
                   [-6.0, 0.0, 9.0, 6.0],
                   [-3.0, 0.0, -9.0, -4.0]]
    ensures Cofactor(m, 3, 0) == 315.0 && Cofactor(m, 3, 1) == -18.0 && Cofactor(m, 3, 2) == -540.0 && Cofactor(m, 3, 3) == 1125.0
  {
    Minor4(m, 3, 0);
    Minor4(m, 3, 1);
    Minor4(m, 3, 2);
    Minor4(m, 3, 3);
  }

  /** Entry (i, j) of the exact inverse of m1 in the inverse test, times -585, is cofactor (j, i). */
  lemma {:induction false} M1InverseTable(m: Mat, k: Mat, i: nat, j: nat)
    requires m == [[8.0, -5.0, 9.0, 2.0],
                   [7.0, 5.0, 6.0, 1.0],
                   [-6.0, 0.0, 9.0, 6.0],
                   [-3.0, 0.0, -9.0, -4.0]]
    requires k == [[-2.0 / 13.0, -2.0 / 13.0, -11.0 / 39.0, -7.0 / 13.0],
                   [-1.0 / 13.0, 8.0 / 65.0, 1.0 / 39.0, 2.0 / 65.0],
                   [14.0 / 39.0, 14.0 / 39.0, 17.0 / 39.0, 12.0 / 13.0],
                   [-9.0 / 13.0, -9.0 / 13.0, -10.0 / 13.0, -25.0 / 13.0]]
    requires i < 4 && j < 4
    ensures k[i][j] * -585.0 == Cofactor(m, j, i)
  {
    if j == 0 { M1CofactorsRow0(m); }
    else if j == 1 { M1CofactorsRow1(m); }
    else if j == 2 { M1CofactorsRow2(m); }
    else { M1CofactorsRow3(m); }
    assert i == 0 || i == 1 || i == 2 || i == 3;
  }

  /** The exact inverse of m1 in the inverse test: determinant -585 and the transposed cofactors divided by it. */
  lemma {:induction false} M1Inverse(m: Mat, k: Mat)
    requires m == [[8.0, -5.0, 9.0, 2.0],
                   [7.0, 5.0, 6.0, 1.0],
                   [-6.0, 0.0, 9.0, 6.0],
                   [-3.0, 0.0, -9.0, -4.0]]
    requires k == [[-2.0 / 13.0, -2.0 / 13.0, -11.0 / 39.0, -7.0 / 13.0],
                   [-1.0 / 13.0, 8.0 / 65.0, 1.0 / 39.0, 2.0 / 65.0],
                   [14.0 / 39.0, 14.0 / 39.0, 17.0 / 39.0, 12.0 / 13.0],
                   [-9.0 / 13.0, -9.0 / 13.0, -10.0 / 13.0, -25.0 / 13.0]]
    ensures Det(m) == -585.0 && Invertible(m) && InverseOf(m) == k
  {
    Det4Closed(m);
    forall i, j | 0 <= i < 4 && 0 <= j < 4
      ensures k[i][j] * -585.0 == Cofactor(m, j, i)
    {
      M1InverseTable(m, k, i, j);
    }
    InverseFromCofactors(m, k, -585.0);
  }

  /** Test inverse, first case: the inverse agrees with the expected five-decimal values under float_eq. */
  lemma {:induction false} M1InverseRegression(m: Mat, e: Mat)
    requires m == [[8.0, -5.0, 9.0, 2.0],
                   [7.0, 5.0, 6.0, 1.0],
                   [-6.0, 0.0, 9.0, 6.0],
                   [-3.0, 0.0, -9.0, -4.0]]
    requires e == [[-0.15385, -0.15385, -0.28205, -0.53846],
                   [-0.07692, 0.12308, 0.02564, 0.03077],
                   [0.35897, 0.35897, 0.43590, 0.92308],
                   [-0.69231, -0.69231, -0.76923, -1.92308]]
    ensures Invertible(m) && ApproxEqual(InverseOf(m), e)
  {
    var k: Mat := [[-2.0 / 13.0, -2.0 / 13.0, -11.0 / 39.0, -7.0 / 13.0],
                   [-1.0 / 13.0, 8.0 / 65.0, 1.0 / 39.0, 2.0 / 65.0],
                   [14.0 / 39.0, 14.0 / 39.0, 17.0 / 39.0, 12.0 / 13.0],
                   [-9.0 / 13.0, -9.0 / 13.0, -10.0 / 13.0, -25.0 / 13.0]];
    M1Inverse(m, k);
    forall i, j | 0 <= i < 4 && 0 <= j < 4
      ensures RtMath.NearlyEq(k[i][j], e[i][j])
    {
      assert i == 0 || i == 1 || i == 2 || i == 3;
      assert j == 0 || j == 1 || j == 2 || j == 3;
    }
  }

  /** The cofactors along row 0 of m3 in the inverse test. */
  lemma {:induction false} M3CofactorsRow0(m: Mat)
    requires m == [[9.0, 3.0, 0.0, 9.0],
                   [-5.0, -2.0, -6.0, -3.0],
                   [-4.0, 9.0, 6.0, 4.0],
                   [-7.0, 6.0, 6.0, 2.0]]
    ensures Cofactor(m, 0, 0) == -66.0 && Cofactor(m, 0, 1) == -126.0 && Cofactor(m, 0, 2) == -47.0 && Cofactor(m, 0, 3) == 288.0
  {
    Minor4(m, 0, 0);
    Minor4(m, 0, 1);
    Minor4(m, 0, 2);
    Minor4(m, 0, 3);
  }

  /** The cofactors along row 1 of m3 in the inverse test. */
  lemma {:induction false} M3CofactorsRow1(m: Mat)
    requires m == [[9.0, 3.0, 0.0, 9.0],
                   [-5.0, -2.0, -6.0, -3.0],
                   [-4.0, 9.0, 6.0, 4.0],
                   [-7.0, 6.0, 6.0, 2.0]]
    ensures Cofactor(m, 1, 0) == -126.0 && Cofactor(m, 1, 1) == 54.0 && Cofactor(m, 1, 2) == -237.0 && Cofactor(m, 1, 3) == 108.0
  {
    Minor4(m, 1, 0);
    Minor4(m, 1, 1);
    Minor4(m, 1, 2);
    Minor4(m, 1, 3);
  }

  /** The cofactors along row 2 of m3 in the inverse test. */
  lemma {:induction false} M3CofactorsRow2(m: Mat)
    requires m == [[9.0, 3.0, 0.0, 9.0],
                   [-5.0, -2.0, -6.0, -3.0],
                   [-4.0, 9.0, 6.0, 4.0],
                   [-7.0, 6.0, 6.0, 2.0]]
    ensures Cofactor(m, 2, 0) == 234.0 && Cofactor(m, 2, 1) == 594.0 && Cofactor(m, 2, 2) == -177.0 && Cofactor(m, 2, 3) == -432.0
  {
    Minor4(m, 2, 0);
    Minor4(m, 2, 1);
    Minor4(m, 2, 2);
    Minor4(m, 2, 3);
  }

  /** The cofactors along row 3 of m3 in the inverse test. */
  lemma {:induction false} M3CofactorsRow3(m: Mat)
    requires m == [[9.0, 3.0, 0.0, 9.0],
                   [-5.0, -2.0, -6.0, -3.0],
                   [-4.0, 9.0, 6.0, 4.0],
                   [-7.0, 6.0, 6.0, 2.0]]
    ensures Cofactor(m, 3, 0) == -360.0 && Cofactor(m, 3, 1) == -540.0 && Cofactor(m, 3, 2) == 210.0 && Cofactor(m, 3, 3) == 540.0
  {
    Minor4(m, 3, 0);
    Minor4(m, 3, 1);
    Minor4(m, 3, 2);
    Minor4(m, 3, 3);
  }

  /** Entry (i, j) of the exact inverse of m3 in the inverse test, times 1620, is cofactor (j, i). */
  lemma {:induction false} M3InverseTable(m: Mat, k: Mat, i: nat, j: nat)
    requires m == [[9.0, 3.0, 0.0, 9.0],
                   [-5.0, -2.0, -6.0, -3.0],
                   [-4.0, 9.0, 6.0, 4.0],
                   [-7.0, 6.0, 6.0, 2.0]]
    requires k == [[-11.0 / 270.0, -7.0 / 90.0, 13.0 / 90.0, -2.0 / 9.0],
                   [-7.0 / 90.0, 1.0 / 30.0, 11.0 / 30.0, -1.0 / 3.0],
                   [-47.0 / 1620.0, -79.0 / 540.0, -59.0 / 540.0, 7.0 / 54.0],
                   [8.0 / 45.0, 1.0 / 15.0, -4.0 / 15.0, 1.0 / 3.0]]
    requires i < 4 && j < 4
    ensures k[i][j] * 1620.0 == Cofactor(m, j, i)
  {
    if j == 0 { M3CofactorsRow0(m); }
    else if j == 1 { M3CofactorsRow1(m); }
    else if j == 2 { M3CofactorsRow2(m); }
    else { M3CofactorsRow3(m); }
    assert i == 0 || i == 1 || i == 2 || i == 3;
  }

  /** The exact inverse of m3 in the inverse test: determinant 1620 and the transposed cofactors divided by it. */
  lemma {:induction false} M3Inverse(m: Mat, k: Mat)
    requires m == [[9.0, 3.0, 0.0, 9.0],
                   [-5.0, -2.0, -6.0, -3.0],
                   [-4.0, 9.0, 6.0, 4.0],
                   [-7.0, 6.0, 6.0, 2.0]]
    requires k == [[-11.0 / 270.0, -7.0 / 90.0, 13.0 / 90.0, -2.0 / 9.0],
                   [-7.0 / 90.0, 1.0 / 30.0, 11.0 / 30.0, -1.0 / 3.0],
                   [-47.0 / 1620.0, -79.0 / 540.0, -59.0 / 540.0, 7.0 / 54.0],
                   [8.0 / 45.0, 1.0 / 15.0, -4.0 / 15.0, 1.0 / 3.0]]
    ensures Det(m) == 1620.0 && Invertible(m) && InverseOf(m) == k
  {
    Det4Closed(m);
    forall i, j | 0 <= i < 4 && 0 <= j < 4
      ensures k[i][j] * 1620.0 == Cofactor(m, j, i)
    {
      M3InverseTable(m, k, i, j);
    }
    InverseFromCofactors(m, k, 1620.0);
  }

  /** Test inverse, second case: the inverse agrees with the expected five-decimal values under float_eq. */
  lemma {:induction false} M3InverseRegression(m: Mat, e: Mat)
    requires m == [[9.0, 3.0, 0.0, 9.0],
                   [-5.0, -2.0, -6.0, -3.0],
                   [-4.0, 9.0, 6.0, 4.0],
                   [-7.0, 6.0, 6.0, 2.0]]
    requires e == [[-0.04074, -0.07778, 0.14444, -0.22222],
                   [-0.07778, 0.03333, 0.36667, -0.33333],
                   [-0.02901, -0.1463, -0.10926, 0.12963],
                   [0.17778, 0.06667, -0.26667, 0.33333]]
    ensures Invertible(m) && ApproxEqual(InverseOf(m), e)
  {
    var k: Mat := [[-11.0 / 270.0, -7.0 / 90.0, 13.0 / 90.0, -2.0 / 9.0],
                   [-7.0 / 90.0, 1.0 / 30.0, 11.0 / 30.0, -1.0 / 3.0],
                   [-47.0 / 1620.0, -79.0 / 540.0, -59.0 / 540.0, 7.0 / 54.0],
                   [8.0 / 45.0, 1.0 / 15.0, -4.0 / 15.0, 1.0 / 3.0]];
    M3Inverse(m, k);
    forall i, j | 0 <= i < 4 && 0 <= j < 4
      ensures RtMath.NearlyEq(k[i][j], e[i][j])
    {
      assert i == 0 || i == 1 || i == 2 || i == 3;
      assert j == 0 || j == 1 || j == 2 || j == 3;
    }
  }

  /** The cofactors along row 0 of m6 in the inverse test. */
  lemma {:induction false} M6CofactorsRow0(m: Mat)
    requires m == [[8.0, 2.0, 2.0, 2.0],
                   [3.0, -1.0, 7.0, 0.0],
                   [7.0, 0.0, 5.0, 4.0],
                   [6.0, -2.0, 0.0, 5.0]]
    ensures Cofactor(m, 0, 0) == -81.0 && Cofactor(m, 0, 1) == 2.0 && Cofactor(m, 0, 2) == 35.0 && Cofactor(m, 0, 3) == 98.0
  {
    Minor4(m, 0, 0);
    Minor4(m, 0, 1);
    Minor4(m, 0, 2);
    Minor4(m, 0, 3);
  }

  /** The cofactors along row 1 of m6 in the inverse test. */
  lemma {:induction false} M6CofactorsRow1(m: Mat)
    requires m == [[8.0, 2.0, 2.0, 2.0],
                   [3.0, -1.0, 7.0, 0.0],
                   [7.0, 0.0, 5.0, 4.0],
                   [6.0, -2.0, 0.0, 5.0]]
    ensures Cofactor(m, 1, 0) == -54.0 && Cofactor(m, 1, 1) == 118.0 && Cofactor(m, 1, 2) == -14.0 && Cofactor(m, 1, 3) == 112.0
  {
    Minor4(m, 1, 0);
    Minor4(m, 1, 1);
    Minor4(m, 1, 2);
    Minor4(m, 1, 3);
  }

  /** The cofactors along row 2 of m6 in the inverse test. */
  lemma {:induction false} M6CofactorsRow2(m: Mat)
    requires m == [[8.0, 2.0, 2.0, 2.0],
                   [3.0, -1.0, 7.0, 0.0],
                   [7.0, 0.0, 5.0, 4.0],
                   [6.0, -2.0, 0.0, 5.0]]
    ensures Cofactor(m, 2, 0) == 108.0 && Cofactor(m, 2, 1) == -166.0 && Cofactor(m, 2, 2) == -70.0 && Cofactor(m, 2, 3) == -196.0
  {
    Minor4(m, 2, 0);
    Minor4(m, 2, 1);
    Minor4(m, 2, 2);
    Minor4(m, 2, 3);
  }

  /** The cofactors along row 3 of m6 in the inverse test. */
  lemma {:induction false} M6CofactorsRow3(m: Mat)
    requires m == [[8.0, 2.0, 2.0, 2.0],
                   [3.0, -1.0, 7.0, 0.0],
                   [7.0, 0.0, 5.0, 4.0],
                   [6.0, -2.0, 0.0, 5.0]]
    ensures Cofactor(m, 3, 0) == -54.0 && Cofactor(m, 3, 1) == 132.0 && Cofactor(m, 3, 2) == 42.0 && Cofactor(m, 3, 3) == 42.0
  {
    Minor4(m, 3, 0);
    Minor4(m, 3, 1);
    Minor4(m, 3, 2);
    Minor4(m, 3, 3);
  }

  /** Entry (i, j) of the exact inverse of m6 in the inverse test, times -378, is cofactor (j, i). */
  lemma {:induction false} M6InverseTable(m: Mat, k: Mat, i: nat, j: nat)
    requires m == [[8.0, 2.0, 2.0, 2.0],
                   [3.0, -1.0, 7.0, 0.0],
                   [7.0, 0.0, 5.0, 4.0],
                   [6.0, -2.0, 0.0, 5.0]]
    requires k == [[3.0 / 14.0, 1.0 / 7.0, -2.0 / 7.0, 1.0 / 7.0],
                   [-1.0 / 189.0, -59.0 / 189.0, 83.0 / 189.0, -22.0 / 63.0],
                   [-5.0 / 54.0, 1.0 / 27.0, 5.0 / 27.0, -1.0 / 9.0],
                   [-7.0 / 27.0, -8.0 / 27.0, 14.0 / 27.0, -1.0 / 9.0]]
    requires i < 4 && j < 4
    ensures k[i][j] * -378.0 == Cofactor(m, j, i)
  {
    if j == 0 { M6CofactorsRow0(m); }
    else if j == 1 { M6CofactorsRow1(m); }
    else if j == 2 { M6CofactorsRow2(m); }
    else { M6CofactorsRow3(m); }
    assert i == 0 || i == 1 || i == 2 || i == 3;
  }

  /** The exact inverse of m6 in the inverse test: determinant -378 and the transposed cofactors divided by it. */
  lemma {:induction false} M6Inverse(m: Mat, k: Mat)
    requires m == [[8.0, 2.0, 2.0, 2.0],
                   [3.0, -1.0, 7.0, 0.0],
                   [7.0, 0.0, 5.0, 4.0],
                   [6.0, -2.0, 0.0, 5.0]]
    requires k == [[3.0 / 14.0, 1.0 / 7.0, -2.0 / 7.0, 1.0 / 7.0],
                   [-1.0 / 189.0, -59.0 / 189.0, 83.0 / 189.0, -22.0 / 63.0],
                   [-5.0 / 54.0, 1.0 / 27.0, 5.0 / 27.0, -1.0 / 9.0],
                   [-7.0 / 27.0, -8.0 / 27.0, 14.0 / 27.0, -1.0 / 9.0]]
    ensures Det(m) == -378.0 && Invertible(m) && InverseOf(m) == k
  {
    Det4Closed(m);
    forall i, j | 0 <= i < 4 && 0 <= j < 4
      ensures k[i][j] * -378.0 == Cofactor(m, j, i)
    {
      M6InverseTable(m, k, i, j);
    }
    InverseFromCofactors(m, k, -378.0);
  }

  /** m6 of the inverse test times its inverse is the identity. */
  lemma {:induction false} M6RightInverse(m: Mat, k: Mat)
    requires m == [[8.0, 2.0, 2.0, 2.0], [3.0, -1.0, 7.0, 0.0], [7.0, 0.0, 5.0, 4.0], [6.0, -2.0, 0.0, 5.0]]
    requires k == [[3.0 / 14.0, 1.0 / 7.0, -2.0 / 7.0, 1.0 / 7.0],
                   [-1.0 / 189.0, -59.0 / 189.0, 83.0 / 189.0, -22.0 / 63.0],
                   [-5.0 / 54.0, 1.0 / 27.0, 5.0 / 27.0, -1.0 / 9.0],
                   [-7.0 / 27.0, -8.0 / 27.0, 14.0 / 27.0, -1.0 / 9.0]]
    ensures Product(m, k) == Identity(4)
  {
    var p := Product(m, k);
    forall i, j | 0 <= i < 4 && 0 <= j < 4
      ensures p[i][j] == Identity(4)[i][j]
    {
      Inner4(m, k, i, j);
      assert i == 0 || i == 1 || i == 2 || i == 3;
      assert j == 0 || j == 1 || j == 2 || j == 3;
    }
    MatExt(p, Identity(4));
  }

  /** Test inverse, last case: (m5 * m6) * inverse(m6) == m5. */
  lemma {:induction false} InverseRoundTripRegression(m5: Mat, m6: Mat)
    requires m5 == [[3.0, -9.0, 7.0, 3.0], [3.0, -8.0, 2.0, -9.0], [-4.0, 4.0, 4.0, 1.0], [-6.0, 5.0, -1.0, 1.0]]
    requires m6 == [[8.0, 2.0, 2.0, 2.0], [3.0, -1.0, 7.0, 0.0], [7.0, 0.0, 5.0, 4.0], [6.0, -2.0, 0.0, 5.0]]
    ensures Invertible(m6)
    ensures Product(Product(m5, m6), InverseOf(m6)) == m5
  {
    var k: Mat := [[3.0 / 14.0, 1.0 / 7.0, -2.0 / 7.0, 1.0 / 7.0],
                   [-1.0 / 189.0, -59.0 / 189.0, 83.0 / 189.0, -22.0 / 63.0],
                   [-5.0 / 54.0, 1.0 / 27.0, 5.0 / 27.0, -1.0 / 9.0],
                   [-7.0 / 27.0, -8.0 / 27.0, 14.0 / 27.0, -1.0 / 9.0]];
    M6Inverse(m6, k);
    UndoProduct(m5, m6);
  }

  /** An entry of a 2 x 2 product as its two terms. */
  lemma {:induction false} Inner2(a: Mat, b: Mat, i: nat, j: nat)
    requires |a| == |b| == 2 && i < 2 && j < 2
    ensures Inner(a, b, i, j, 2) == a[i][0] * b[0][j] + a[i][1] * b[1][j]
  {
    assert Inner(a, b, i, j, 1) == Inner(a, b, i, j, 0) + a[i][0] * b[0][j];
  }

  /** A 2 x 2 product is the matrix of its four two-term entries. */
  lemma {:induction false} Product2(a: Mat, b: Mat, c: Mat)
    requires |a| == |b| == |c| == 2
    requires a[0][0] * b[0][0] + a[0][1] * b[1][0] == c[0][0]
    requires a[0][0] * b[0][1] + a[0][1] * b[1][1] == c[0][1]
    requires a[1][0] * b[0][0] + a[1][1] * b[1][0] == c[1][0]
    requires a[1][0] * b[0][1] + a[1][1] * b[1][1] == c[1][1]
    ensures Product(a, b) == c
  {
    var p := Product(a, b);
    Inner2(a, b, 0, 0);
    Inner2(a, b, 0, 1);
    Inner2(a, b, 1, 0);
    Inner2(a, b, 1, 1);
    assert p[0][0] == c[0][0] && p[0][1] == c[0][1] && p[1][0] == c[1][0] && p[1][1] == c[1][1];
    MatExt(p, c);
  }

  /** Test mat_multiplication, first case: (1 2; 3 4) * (5 6; 7 8) == (19 22; 43 50). */
  lemma {:induction false} ProductRegression(a: Mat, b: Mat, c: Mat)
    requires a == [[1.0, 2.0], [3.0, 4.0]] && b == [[5.0, 6.0], [7.0, 8.0]] && c == [[19.0, 22.0], [43.0, 50.0]]
    ensures Product(a, b) == c
  {
    Product2(a, b, c);
  }

  /** Test mat_multiplication, second case: (10 11; 12 -3) * (6 1; 7 8) == (137 98; 51 -12). */
  lemma {:induction false} ProductSignedRegression(a: Mat, b: Mat, c: Mat)
    requires a == [[10.0, 11.0], [12.0, -3.0]] && b == [[6.0, 1.0], [7.0, 8.0]] && c == [[137.0, 98.0], [51.0, -12.0]]
    ensures Product(a, b) == c
  {
    Product2(a, b, c);
  }

  /** Test vec_multiplication: each row dotted with the point (1, 2, 3). */
  lemma {:induction false} MatVecRegression(m: Mat, p: Vec)
    requires m == [[1.0, 2.0, 3.0, 4.0], [2.0, 4.0, 4.0, 2.0], [8.0, 6.0, 4.0, 1.0], [0.0, 0.0, 0.0, 1.0]]
    requires p == Point(1.0, 2.0, 3.0)
    ensures MatVec(m, p) == Point(18.0, 24.0, 33.0)
  {
  }

  /** Test equality: equal entries compare equal, different ones do not. */
  lemma {:induction false} EqualityRegression(m1: Mat, m2: Mat, m3: Mat)
    requires m1 == [[0.0, 0.0], [1.0, 1.0]] && m2 == [[0.0, 0.0], [1.0, 1.0]] && m3 == [[1.0, 1.0], [2.0, 3.0]]
    ensures ApproxEqual(m1, m2)
    ensures !ApproxEqual(m1, m3)
  {
    assert !RtMath.NearlyEq(m1[0][0], m3[0][0]);
  }

  /**
   * Scenario of test set_get_values: the 2 x 2 buffer (1 2; 3 4) reads back
   * its entries, set(5, 0, 0) changes only entry (0, 0), and operator()
   * then writes -2 there.
   */
  method SetGetScenario() returns (before: seq<real>, after: seq<real>, last: real)
    ensures before == [1.0, 2.0, 3.0, 4.0]
    ensures after == [5.0, 2.0, 3.0, 4.0]
    ensures last == -2.0
  {
    var m := new MatBuffer.FromValues(2, [1.0, 2.0, 3.0, 4.0]);
    assert Offset(2, 0, 1) == 1 && Offset(2, 1, 0) == 2 && Offset(2, 1, 1) == 3;
    var a, b, c, d := m.Get(0, 0), m.Get(0, 1), m.Get(1, 0), m.Get(1, 1);
    before := [a, b, c, d];
    m.Set(5.0, 0, 0);
    a, b, c, d := m.Get(0, 0), m.Get(0, 1), m.Get(1, 0), m.Get(1, 1);
    after := [a, b, c, d];
    m.Set(-2.0, 0, 0);
    last := m.Get(0, 0);
  }
}
