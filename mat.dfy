/**
 * Square matrix algebra (lib/mat.hpp) as values: an N x N matrix, N >= 1,
 * is a sequence of N rows of N entries. The spec functions below follow the
 * member functions of the mat struct; MatrixStorage.MatBuffer models the
 * struct's flat storage and the loops that fill it.
 */
module Matrices {
  import opened RtMath
  import opened Vectors

  predicate IsSquare(m: seq<seq<real>>)
  {
    |m| >= 1 && forall i :: 0 <= i < |m| ==> |m[i]| == |m|
  }

  type Mat = m: seq<seq<real>> | IsSquare(m) witness [[0.0]]

  /** make_identity: 1 on the diagonal, 0 elsewhere. */
  function Identity(n: nat): (r: Mat)
    requires n >= 1
    ensures |r| == n
  {
    seq(n, i requires 0 <= i < n => seq(n, j requires 0 <= j < n => if i == j then 1.0 else 0.0))
  }

  /** make_translation(x, y, z). */
  function Translation(x: real, y: real, z: real): (r: Mat)
    ensures |r| == 4
  {
    [[1.0, 0.0, 0.0, x],
     [0.0, 1.0, 0.0, y],
     [0.0, 0.0, 1.0, z],
     [0.0, 0.0, 0.0, 1.0]]
  }

  /** make_translation(vec): the x, y and z of the vector; its w is ignored. */
  function TranslationBy(p: Vec): (r: Mat)
    ensures |r| == 4
  {
    Translation(p.x, p.y, p.z)
  }

  /** make_translation(a): the same offset on all three axes. */
  function UniformTranslation(a: real): (r: Mat)
    ensures |r| == 4
  {
    Translation(a, a, a)
  }

  /** make_scaled(x, y, z). */
  function Scaled(x: real, y: real, z: real): (r: Mat)
    ensures |r| == 4
  {
    [[x, 0.0, 0.0, 0.0],
     [0.0, y, 0.0, 0.0],
     [0.0, 0.0, z, 0.0],
     [0.0, 0.0, 0.0, 1.0]]
  }

  /** make_scaled(vec): the x, y and z of the vector; its w is ignored. */
  function ScaledBy(p: Vec): (r: Mat)
    ensures |r| == 4
  {
    Scaled(p.x, p.y, p.z)
  }

  /** make_scaled(a): the same factor on all three axes. */
  function UniformScaled(a: real): (r: Mat)
    ensures |r| == 4
  {
    Scaled(a, a, a)
  }

  /** make_sheared: each coordinate gains multiples of the other two. */
  function Sheared(xy: real, xz: real, yx: real, yz: real, zx: real, zy: real): (r: Mat)
    ensures |r| == 4
  {
    [[1.0, xy, xz, 0.0],
     [yx, 1.0, yz, 0.0],
     [zx, zy, 1.0, 0.0],
     [0.0, 0.0, 0.0, 1.0]]
  }

  /** transpose: entry (i, j) of the result is entry (j, i) of m. */
  function Transpose(m: Mat): (r: Mat)
    ensures |r| == |m|
  {
    seq(|m|, i requires 0 <= i < |m| => seq(|m|, j requires 0 <= j < |m| => m[j][i]))
  }

  /** s without its element at index k. */
  function Without<T>(s: seq<T>, k: nat): (r: seq<T>)
    requires k < |s|
    ensures |r| == |s| - 1
    ensures forall i :: 0 <= i < |r| ==> r[i] == s[if i < k then i else i + 1]
  {
    s[..k] + s[k + 1..]
  }

  /** Every row of rows without its element at index col. */
  function WithoutColumn(rows: seq<seq<real>>, col: nat): (r: seq<seq<real>>)
    requires forall i :: 0 <= i < |rows| ==> col < |rows[i]|
    ensures |r| == |rows|
    ensures forall i :: 0 <= i < |r| ==> r[i] == Without(rows[i], col)
    decreases |rows|
  {
    if |rows| == 0 then [] else [Without(rows[0], col)] + WithoutColumn(rows[1..], col)
  }

  /**
   * sub(row, col): m without row `row` and column `col`; entry (i, j) moves
   * up one place past the removed row and left one place past the removed column.
   */
  function Submatrix(m: Mat, row: nat, col: nat): (r: Mat)
    requires |m| >= 2 && row < |m| && col < |m|
    ensures |r| == |m| - 1
    ensures forall i, j :: 0 <= i < |r| && 0 <= j < |r| ==>
      r[i][j] == m[if i < row then i else i + 1][if j < col then j else j + 1]
  {
    WithoutColumn(Without(m, row), col)
  }

  /** The sign (row + col) % 2 == 0 ? 1 : -1 that turns a minor into a cofactor. */
  function Sign(row: nat, col: nat): real
  {
    if (row + col) % 2 == 0 then 1.0 else -1.0
  }

  /**
   * determinant: the entry itself for 1 x 1, ad - bc for 2 x 2, and the
   * cofactor expansion along the first row for larger matrices.
   */
  function Det(m: Mat): real
    decreases |m|, 3, 0
  {
    if |m| == 1 then m[0][0]
    else if |m| == 2 then m[0][0] * m[1][1] - m[1][0] * m[0][1]
    else ExpansionSum(m, |m|)
  }

  /** The first k terms get(0, i) * cofactor(0, i) of the first-row expansion. */
  function ExpansionSum(m: Mat, k: nat): real
    requires k <= |m|
    decreases |m|, 2, k
  {
    if k == 0 then 0.0
    else ExpansionSum(m, k - 1) + m[0][k - 1] * Cofactor(m, 0, k - 1)
  }

  /** cofactor: the minor with the checkerboard sign. */
  function Cofactor(m: Mat, row: nat, col: nat): real
    requires row < |m| && col < |m|
    decreases |m|, 1, 0
  {
    Minor(m, row, col) * Sign(row, col)
  }

  /**
   * minor: the only entry of a 1 x 1 matrix, the entry (row, col) itself of
   * a 2 x 2 matrix, and the determinant of sub(row, col) otherwise.
   */
  function Minor(m: Mat, row: nat, col: nat): real
    requires row < |m| && col < |m|
    decreases |m|, 0, 0
  {
    if |m| == 1 then m[0][0]
    else if |m| == 2 then m[row][col]
    else Det(Submatrix(m, row, col))
  }

  /** invertible: an exact comparison of the determinant with zero. */
  predicate Invertible(m: Mat)
  {
    Det(m) != 0.0
  }

  /**
   * inverse: the identity when m is not invertible, otherwise the transposed
   * cofactor matrix divided by the determinant.
   */
  function InverseOf(m: Mat): (r: Mat)
    ensures |r| == |m|
  {
    if !Invertible(m) then Identity(|m|)
    else seq(|m|, i requires 0 <= i < |m| => seq(|m|, j requires 0 <= j < |m| => Cofactor(m, j, i) / Det(m)))
  }

  /** The sum over t < k of a(i, t) * b(t, j), accumulated in order of t. */
  function Inner(a: Mat, b: Mat, i: nat, j: nat, k: nat): real
    requires |a| == |b| && i < |a| && j < |a| && k <= |a|
  {
    if k == 0 then 0.0 else Inner(a, b, i, j, k - 1) + a[i][k - 1] * b[k - 1][j]
  }

  /** operator* on two matrices of the same size. */
  function Product(a: Mat, b: Mat): (r: Mat)
    requires |a| == |b|
    ensures |r| == |a|
  {
    seq(|a|, i requires 0 <= i < |a| => seq(|a|, j requires 0 <= j < |a| => Inner(a, b, i, j, |a|)))
  }

  /** Row i of a 4 x 4 matrix dotted with all four components of v. */
  function RowDot(m: Mat, i: nat, v: Vec): real
    requires |m| == 4 && i < 4
  {
    m[i][0] * v.x + m[i][1] * v.y + m[i][2] * v.z + m[i][3] * v.w
  }

  /** operator* on a 4 x 4 matrix and a vec: each row dotted with all four components. */
  function MatVec(m: Mat, v: Vec): Vec
    requires |m| == 4
  {
    Vec(RowDot(m, 0, v), RowDot(m, 1, v), RowDot(m, 2, v), RowDot(m, 3, v))
  }

  /** operator==: float_eq on every pair of corresponding entries. */
  predicate ApproxEqual(a: Mat, b: Mat)
    requires |a| == |b|
  {
    forall i, j :: 0 <= i < |a| && 0 <= j < |a| ==> NearlyEq(a[i][j], b[i][j])
  }

  /** The 2 x 2 determinant with rows (a, b) and (c, d). */
  function Det2Of(a: real, b: real, c: real, d: real): real
  {
    a * d - c * b
  }

  /** The closed form of a 3 x 3 determinant with rows (a, b, c), (d, e, f), (g, h, i). */
  function Det3Of(a: real, b: real, c: real, d: real, e: real, f: real, g: real, h: real, i: real): real
  {
    a * Det2Of(e, f, h, i) - b * Det2Of(d, f, g, i) + c * Det2Of(d, e, g, h)
  }

  /** The closed form of a 3 x 3 determinant, expanded along the first row. */
  function Det3(m: Mat): real
    requires |m| == 3
  {
    Det3Of(m[0][0], m[0][1], m[0][2], m[1][0], m[1][1], m[1][2], m[2][0], m[2][1], m[2][2])
  }

  /** Two matrices of the same size with the same entries are equal. */
  lemma {:induction false} MatExt(a: Mat, b: Mat)
    requires |a| == |b|
    requires forall i, j :: 0 <= i < |a| && 0 <= j < |a| ==> a[i][j] == b[i][j]
    ensures a == b
  {
    forall i | 0 <= i < |a|
      ensures a[i] == b[i]
    {
      assert a[i] == b[i];
    }
  }

  // ---------------------------------------------------------------------
  // Identity and products

  /** Multiplying by the identity on the left keeps only the term t == i. */
  lemma {:induction false} InnerIdentityLeft(m: Mat, i: nat, j: nat, k: nat)
    requires i < |m| && j < |m| && k <= |m|
    ensures Inner(Identity(|m|), m, i, j, k) == if i < k then m[i][j] else 0.0
  {
    if k > 0 {
      InnerIdentityLeft(m, i, j, k - 1);
    }
  }

  /** Multiplying by the identity on the right keeps only the term t == j. */
  lemma {:induction false} InnerIdentityRight(m: Mat, i: nat, j: nat, k: nat)
    requires i < |m| && j < |m| && k <= |m|
    ensures Inner(m, Identity(|m|), i, j, k) == if j < k then m[i][j] else 0.0
  {
    if k > 0 {
      InnerIdentityRight(m, i, j, k - 1);
    }
  }

  /** make_identity is neutral for operator* on both sides. */
  lemma {:induction false} IdentityNeutral(m: Mat)
    ensures Product(Identity(|m|), m) == m
    ensures Product(m, Identity(|m|)) == m
  {
    var n := |m|;
    var left, right := Product(Identity(n), m), Product(m, Identity(n));
    forall i, j | 0 <= i < n && 0 <= j < n
      ensures left[i][j] == m[i][j] && right[i][j] == m[i][j]
    {
      InnerIdentityLeft(m, i, j, n);
      InnerIdentityRight(m, i, j, n);
    }
    MatExt(left, m);
    MatExt(right, m);
  }

  /** The partial sums of ((a * b) * c)(i, j), over the first kk columns of a * b. */
  function LeftAssoc(a: Mat, b: Mat, c: Mat, i: nat, j: nat, kk: nat): real
    requires |a| == |b| == |c| && i < |a| && j < |a| && kk <= |a|
  {
    if kk == 0 then 0.0
    else LeftAssoc(a, b, c, i, j, kk - 1) + Inner(a, b, i, kk - 1, |a|) * c[kk - 1][j]
  }

  /** The partial sums of (a * (b * c))(i, j), over the first l columns of a, with b * c cut at kk. */
  function RightAssoc(a: Mat, b: Mat, c: Mat, i: nat, j: nat, kk: nat, l: nat): real
    requires |a| == |b| == |c| && i < |a| && j < |a| && kk <= |a| && l <= |a|
  {
    if l == 0 then 0.0
    else RightAssoc(a, b, c, i, j, kk, l - 1) + a[i][l - 1] * Inner(b, c, l - 1, j, kk)
  }

  /** Extending the inner cut kk by one adds (a * b)(i, kk) * c(kk, j), counted over the first l columns. */
  lemma {:induction false} RightAssocStep(a: Mat, b: Mat, c: Mat, i: nat, j: nat, kk: nat, l: nat)
    requires |a| == |b| == |c| && i < |a| && j < |a| && kk < |a| && l <= |a|
    ensures RightAssoc(a, b, c, i, j, kk + 1, l)
         == RightAssoc(a, b, c, i, j, kk, l) + Inner(a, b, i, kk, l) * c[kk][j]
  {
    if l > 0 {
      RightAssocStep(a, b, c, i, j, kk, l - 1);
      var x := a[i][l - 1];
      var p := Inner(b, c, l - 1, j, kk);
      var q := b[l - 1][kk] * c[kk][j];
      assert x * (p + q) == x * p + x * b[l - 1][kk] * c[kk][j];
      assert (Inner(a, b, i, kk, l - 1) + x * b[l - 1][kk]) * c[kk][j]
          == Inner(a, b, i, kk, l - 1) * c[kk][j] + x * b[l - 1][kk] * c[kk][j];
    }
  }

  /** With an empty inner cut every term of the right-hand sum is zero. */
  lemma {:induction false} RightAssocEmpty(a: Mat, b: Mat, c: Mat, i: nat, j: nat, l: nat)
    requires |a| == |b| == |c| && i < |a| && j < |a| && l <= |a|
    ensures RightAssoc(a, b, c, i, j, 0, l) == 0.0
  {
    if l > 0 {
      RightAssocEmpty(a, b, c, i, j, l - 1);
    }
  }

  /** The two bracketings agree on every prefix of the inner index. */
  lemma {:induction false} AssocPrefix(a: Mat, b: Mat, c: Mat, i: nat, j: nat, kk: nat)
    requires |a| == |b| == |c| && i < |a| && j < |a| && kk <= |a|
    ensures LeftAssoc(a, b, c, i, j, kk) == RightAssoc(a, b, c, i, j, kk, |a|)
  {
    if kk == 0 {
      RightAssocEmpty(a, b, c, i, j, |a|);
    } else {
      AssocPrefix(a, b, c, i, j, kk - 1);
      RightAssocStep(a, b, c, i, j, kk - 1, |a|);
      assert LeftAssoc(a, b, c, i, j, kk) == LeftAssoc(a, b, c, i, j, kk - 1) + Inner(a, b, i, kk - 1, |a|) * c[kk - 1][j];
    }
  }

  /** An inner product taken over the first kk rows, read as a LeftAssoc sum. */
  lemma {:induction false} InnerOfProductLeft(a: Mat, b: Mat, c: Mat, i: nat, j: nat, kk: nat)
    requires |a| == |b| == |c| && i < |a| && j < |a| && kk <= |a|
    ensures Inner(Product(a, b), c, i, j, kk) == LeftAssoc(a, b, c, i, j, kk)
  {
    if kk > 0 {
      InnerOfProductLeft(a, b, c, i, j, kk - 1);
    }
  }

  /** An inner product with b * c on the right, read as a RightAssoc sum. */
  lemma {:induction false} InnerOfProductRight(a: Mat, b: Mat, c: Mat, i: nat, j: nat, l: nat)
    requires |a| == |b| == |c| && i < |a| && j < |a| && l <= |a|
    ensures Inner(a, Product(b, c), i, j, l) == RightAssoc(a, b, c, i, j, |a|, l)
  {
    if l > 0 {
      InnerOfProductRight(a, b, c, i, j, l - 1);
    }
  }

  /** operator* on matrices is associative. */
  lemma {:induction false} ProductAssociative(a: Mat, b: Mat, c: Mat)
    requires |a| == |b| == |c|
    ensures Product(Product(a, b), c) == Product(a, Product(b, c))
  {
    var n := |a|;
    var left, right := Product(Product(a, b), c), Product(a, Product(b, c));
    forall i, j | 0 <= i < n && 0 <= j < n
      ensures left[i][j] == right[i][j]
    {
      InnerOfProductLeft(a, b, c, i, j, n);
      InnerOfProductRight(a, b, c, i, j, n);
      AssocPrefix(a, b, c, i, j, n);
    }
    MatExt(left, right);
  }

  // ---------------------------------------------------------------------
  // Transpose and sub

  /** Transposing twice gives back the matrix. */
  lemma {:induction false} TransposeInvolutive(m: Mat)
    ensures Transpose(Transpose(m)) == m
  {
    MatExt(Transpose(Transpose(m)), m);
  }

  /** The identity is symmetric. */
  lemma {:induction false} TransposeIdentity(n: nat)
    requires n >= 1
    ensures Transpose(Identity(n)) == Identity(n)
  {
    MatExt(Transpose(Identity(n)), Identity(n));
  }

  /** Each inner product of transposes is an inner product of the originals, swapped. */
  lemma {:induction false} InnerTranspose(a: Mat, b: Mat, i: nat, j: nat, k: nat)
    requires |a| == |b| && i < |a| && j < |a| && k <= |a|
    ensures Inner(Transpose(b), Transpose(a), i, j, k) == Inner(a, b, j, i, k)
  {
    if k > 0 {
      InnerTranspose(a, b, i, j, k - 1);
    }
  }

  /** The transpose of a product is the product of the transposes in reverse order. */
  lemma {:induction false} TransposeProduct(a: Mat, b: Mat)
    requires |a| == |b|
    ensures Transpose(Product(a, b)) == Product(Transpose(b), Transpose(a))
  {
    var n := |a|;
    var left, right := Transpose(Product(a, b)), Product(Transpose(b), Transpose(a));
    forall i, j | 0 <= i < n && 0 <= j < n
      ensures left[i][j] == right[i][j]
    {
      InnerTranspose(a, b, i, j, n);
    }
    MatExt(left, right);
  }

  /** Removing row r and column c of m is removing row c and column r of its transpose. */
  lemma {:induction false} SubmatrixTranspose(m: Mat, row: nat, col: nat)
    requires |m| >= 2 && row < |m| && col < |m|
    ensures Submatrix(Transpose(m), col, row) == Transpose(Submatrix(m, row, col))
  {
    MatExt(Submatrix(Transpose(m), col, row), Transpose(Submatrix(m, row, col)));
  }

  /** Removing row k and column k of the identity leaves the smaller identity. */
  lemma {:induction false} SubmatrixIdentity(n: nat, k: nat)
    requires n >= 2 && k < n
    ensures Submatrix(Identity(n), k, k) == Identity(n - 1)
  {
    MatExt(Submatrix(Identity(n), k, k), Identity(n - 1));
  }

  // ---------------------------------------------------------------------
  // Determinants

  /** A row of zeros. */
  predicate ZeroRow(m: Mat, r: nat)
    requires r < |m|
  {
    forall j :: 0 <= j < |m| ==> m[r][j] == 0.0
  }

  /** For three rows and more, determinant is the full first-row expansion. */
  lemma {:induction false} DetExpansion(m: Mat)
    requires |m| >= 3
    ensures Det(m) == ExpansionSum(m, |m|)
  {
  }

  /** A first-row minor of a 3 x 3 matrix, from the entries of the two columns sub keeps. */
  lemma {:induction false} Minor3(m: Mat, col: nat)
    requires |m| == 3 && col < 3
    ensures var c0, c1 := if 0 < col then 0 else 1, if 1 < col then 1 else 2;
      Minor(m, 0, col) == Det2Of(m[1][c0], m[1][c1], m[2][c0], m[2][c1])
  {
    var c0, c1 := if 0 < col then 0 else 1, if 1 < col then 1 else 2;
    var s := Submatrix(m, 0, col);
    assert s[0][0] == m[1][c0] && s[0][1] == m[1][c1];
    assert s[1][0] == m[2][c0] && s[1][1] == m[2][c1];
    assert Minor(m, 0, col) == Det(s);
  }

  /** determinant of a 3 x 3 matrix as three first-row terms. */
  lemma {:induction false} Det3Expansion(m: Mat)
    requires |m| == 3
    ensures Det(m) == m[0][0] * Cofactor(m, 0, 0) + m[0][1] * Cofactor(m, 0, 1) + m[0][2] * Cofactor(m, 0, 2)
  {
    assert ExpansionSum(m, 1) == m[0][0] * Cofactor(m, 0, 0);
    assert ExpansionSum(m, 2) == ExpansionSum(m, 1) + m[0][1] * Cofactor(m, 0, 1);
  }

  /** determinant of a 3 x 3 matrix equals the closed form Det3. */
  lemma {:induction false} Det3Formula(m: Mat)
    requires |m| == 3
    ensures Det(m) == Det3(m)
  {
    Det3Expansion(m);
    Minor3(m, 0);
    Minor3(m, 1);
    Minor3(m, 2);
    assert Cofactor(m, 0, 0) == Minor(m, 0, 0);
    assert Cofactor(m, 0, 1) == -Minor(m, 0, 1);
    assert Cofactor(m, 0, 2) == Minor(m, 0, 2);
  }

  /** determinant of a 4 x 4 matrix as four first-row terms. */
  lemma {:induction false} Det4Expansion(m: Mat)
    requires |m| == 4
    ensures Det(m) == m[0][0] * Cofactor(m, 0, 0) + m[0][1] * Cofactor(m, 0, 1)
                    + m[0][2] * Cofactor(m, 0, 2) + m[0][3] * Cofactor(m, 0, 3)
  {
    assert ExpansionSum(m, 1) == m[0][0] * Cofactor(m, 0, 0);
    assert ExpansionSum(m, 2) == ExpansionSum(m, 1) + m[0][1] * Cofactor(m, 0, 1);
    assert ExpansionSum(m, 3) == ExpansionSum(m, 2) + m[0][2] * Cofactor(m, 0, 2);
    assert ExpansionSum(m, 4) == ExpansionSum(m, 3) + m[0][3] * Cofactor(m, 0, 3);
  }

  /** A cofactor of a 4 x 4 matrix is the signed closed-form determinant of its sub-matrix. */
  lemma {:induction false} Cofactor4(m: Mat, row: nat, col: nat)
    requires |m| == 4 && row < 4 && col < 4
    ensures Cofactor(m, row, col) == Sign(row, col) * Det3(Submatrix(m, row, col))
  {
    Det3Formula(Submatrix(m, row, col));
  }

  /** The closed form Det3 is unchanged by transposition. */
  lemma {:induction false} Det3Transpose(m: Mat)
    requires |m| == 3
    ensures Det3(Transpose(m)) == Det3(m)
  {
    var t := Transpose(m);
    assert t[0][0] == m[0][0] && t[0][1] == m[1][0] && t[0][2] == m[2][0];
    assert t[1][0] == m[0][1] && t[1][1] == m[1][1] && t[1][2] == m[2][1];
    assert t[2][0] == m[0][2] && t[2][1] == m[1][2] && t[2][2] == m[2][2];
  }

  /** Up to 3 x 3, transposing does not change the determinant. */
  lemma {:induction false} DetTransposeSmall(m: Mat)
    requires |m| <= 3
    ensures Det(Transpose(m)) == Det(m)
  {
    var t := Transpose(m);
    if |m| == 3 {
      calc {
        Det(t);
        { Det3Formula(t); }
        Det3(t);
        { Det3Transpose(m); }
        Det3(m);
        { Det3Formula(m); }
        Det(m);
      }
    } else if |m| == 2 {
      assert t[0][0] == m[0][0] && t[1][1] == m[1][1];
      assert t[0][1] == m[1][0] && t[1][0] == m[0][1];
    } else {
      assert t[0][0] == m[0][0];
    }
  }

  /** Removing another row and any column keeps a zero row zero. */
  lemma {:induction false} SubmatrixZeroRow(m: Mat, r: nat, row: nat, col: nat)
    requires |m| >= 2 && r < |m| && row < |m| && col < |m| && r != row && ZeroRow(m, r)
    ensures ZeroRow(Submatrix(m, row, col), if r < row then r else r - 1)
  {
    var s := Submatrix(m, row, col);
    var line := s[if r < row then r else r - 1];
    forall j | 0 <= j < |s|
      ensures line[j] == 0.0
    {
      assert line[j] == m[r][if j < col then j else j + 1];
    }
  }

  /** Removing row `row` and column `col` != row of the identity leaves a zero row where row `col` was. */
  lemma {:induction false} SubmatrixIdentityZeroRow(n: nat, row: nat, col: nat)
    requires n >= 2 && row < n && col < n && row != col
    ensures ZeroRow(Submatrix(Identity(n), row, col), if col < row then col else col - 1)
  {
    var s := Submatrix(Identity(n), row, col);
    var line := s[if col < row then col else col - 1];
    forall j | 0 <= j < n - 1
      ensures line[j] == 0.0
    {
      assert line[j] == Identity(n)[col][if j < col then j else j + 1];
    }
  }

  /** A row of zeros anywhere makes the determinant zero, at every size above 1. */
  lemma {:induction false} DetZeroRow(m: Mat, r: nat)
    requires |m| >= 2 && r < |m| && ZeroRow(m, r)
    ensures Det(m) == 0.0
    decreases |m|
  {
    if |m| >= 3 {
      ExpansionZero(m, r, |m|);
    }
  }

  /** Every first-row expansion term get(0, k) * cofactor(0, k) vanishes when row r is zero. */
  lemma {:induction false} ExpansionTermZero(m: Mat, r: nat, k: nat)
    requires |m| >= 3 && r < |m| && ZeroRow(m, r) && k < |m|
    ensures ExpansionSum(m, k + 1) == ExpansionSum(m, k)
    decreases |m|, 0
  {
    if r > 0 {
      assert Minor(m, 0, k) == 0.0 by {
        SubmatrixZeroRow(m, r, 0, k);
        DetZeroRow(Submatrix(m, 0, k), r - 1);
      }
    } else {
      assert m[0][k] == 0.0;
    }
  }

  /** The first-row expansion sums to zero when row r is zero. */
  lemma {:induction false} ExpansionZero(m: Mat, r: nat, k: nat)
    requires |m| >= 3 && r < |m| && ZeroRow(m, r) && k <= |m|
    ensures ExpansionSum(m, k) == 0.0
    decreases |m|, 1, k
  {
    if k > 0 {
      ExpansionZero(m, r, k - 1);
      ExpansionTermZero(m, r, k - 1);
    }
  }

  /** Only the first term of the identity's first-row expansion survives. */
  lemma {:induction false} ExpansionIdentity(n: nat, k: nat)
    requires n >= 3 && 1 <= k <= n
    ensures ExpansionSum(Identity(n), k) == Cofactor(Identity(n), 0, 0)
  {
    if k > 1 {
      ExpansionIdentity(n, k - 1);
    }
  }

  /** The identity has determinant 1 at every size. */
  lemma {:induction false} DetIdentity(n: nat)
    requires n >= 1
    ensures Det(Identity(n)) == 1.0
  {
    if n >= 3 {
      ExpansionIdentity(n, n);
      SubmatrixIdentity(n, 0);
      DetIdentity(n - 1);
    }
  }

  /** Every cofactor of the identity is the matching entry of the identity. */
  lemma {:induction false} CofactorIdentity(n: nat, row: nat, col: nat)
    requires n >= 1 && row < n && col < n
    ensures Cofactor(Identity(n), row, col) == if row == col then 1.0 else 0.0
  {
    if n >= 3 {
      if row == col {
        SubmatrixIdentity(n, row);
        DetIdentity(n - 1);
      } else {
        SubmatrixIdentityZeroRow(n, row, col);
        DetZeroRow(Submatrix(Identity(n), row, col), if col < row then col else col - 1);
      }
    }
  }

  // ---------------------------------------------------------------------
  // Inverse

  /**
   * What inverse returns: the identity when the determinant is zero, and
   * otherwise a matrix whose entry (i, j) times the determinant is cofactor(j, i).
   */
  lemma {:induction false} InverseCases(m: Mat)
    ensures !Invertible(m) ==> InverseOf(m) == Identity(|m|)
    ensures Invertible(m) ==>
      forall i, j :: 0 <= i < |m| && 0 <= j < |m| ==> InverseOf(m)[i][j] * Det(m) == Cofactor(m, j, i)
  {
  }

  /** The identity is invertible and is its own inverse. */
  lemma {:induction false} InverseIdentity(n: nat)
    requires n >= 1
    ensures Invertible(Identity(n))
    ensures InverseOf(Identity(n)) == Identity(n)
  {
    DetIdentity(n);
    var r := InverseOf(Identity(n));
    forall i, j | 0 <= i < n && 0 <= j < n
      ensures r[i][j] == Identity(n)[i][j]
    {
      CofactorIdentity(n, j, i);
    }
    MatExt(r, Identity(n));
  }

  // ---------------------------------------------------------------------
  // Matrix times vector

  /** A translation adds w times the offset: points move, w = 0 vectors stay put. */
  lemma {:induction false} TranslationAction(x: real, y: real, z: real, v: Vec)
    ensures MatVec(Translation(x, y, z), v) == Vec(v.x + x * v.w, v.y + y * v.w, v.z + z * v.w, v.w)
    ensures IsPoint(v) ==> MatVec(Translation(x, y, z), v) == Add(v, Vector(x, y, z))
    ensures IsVector(v) ==> MatVec(Translation(x, y, z), v) == v
  {
  }

  /** A scale multiplies x, y and z by its factors and keeps w. */
  lemma {:induction false} ScaledAction(x: real, y: real, z: real, v: Vec)
    ensures MatVec(Scaled(x, y, z), v) == Vec(x * v.x, y * v.y, z * v.z, v.w)
  {
  }

  /** A shear adds to each coordinate the given multiples of the other two. */
  lemma {:induction false} ShearedAction(xy: real, xz: real, yx: real, yz: real, zx: real, zy: real, v: Vec)
    ensures MatVec(Sheared(xy, xz, yx, yz, zx, zy), v)
         == Vec(v.x + xy * v.y + xz * v.z, yx * v.x + v.y + yz * v.z, zx * v.x + zy * v.y + v.z, v.w)
  {
    var m := Sheared(xy, xz, yx, yz, zx, zy);
    var r := MatVec(m, v);
    assert r.x == 1.0 * v.x + xy * v.y + xz * v.z + 0.0 * v.w;
    assert r.y == yx * v.x + 1.0 * v.y + yz * v.z + 0.0 * v.w;
    assert r.z == zx * v.x + zy * v.y + 1.0 * v.z + 0.0 * v.w;
    assert r.w == 0.0 * v.x + 0.0 * v.y + 0.0 * v.z + 1.0 * v.w;
  }

  /** The identity leaves every vec unchanged. */
  lemma {:induction false} IdentityAction(v: Vec)
    ensures MatVec(Identity(4), v) == v
  {
    var m := Identity(4);
    assert m[0] == [1.0, 0.0, 0.0, 0.0] && m[1] == [0.0, 1.0, 0.0, 0.0];
    assert m[2] == [0.0, 0.0, 1.0, 0.0] && m[3] == [0.0, 0.0, 0.0, 1.0];
  }

  /** An entry of a 4 x 4 product as its four terms. */
  lemma {:induction false} Inner4(a: Mat, b: Mat, i: nat, j: nat)
    requires |a| == |b| == 4 && i < 4 && j < 4
    ensures Inner(a, b, i, j, 4)
         == a[i][0] * b[0][j] + a[i][1] * b[1][j] + a[i][2] * b[2][j] + a[i][3] * b[3][j]
  {
    assert Inner(a, b, i, j, 1) == a[i][0] * b[0][j];
    assert Inner(a, b, i, j, 2) == Inner(a, b, i, j, 1) + a[i][1] * b[1][j];
    assert Inner(a, b, i, j, 3) == Inner(a, b, i, j, 2) + a[i][2] * b[2][j];
  }

  /** Row i of a * b dotted with v is row i of a dotted with b * v. */
  lemma {:induction false} RowOfProduct(a: Mat, b: Mat, i: nat, v: Vec)
    requires |a| == |b| == 4 && i < 4
    ensures RowDot(Product(a, b), i, v) == RowDot(a, i, MatVec(b, v))
  {
    var p := Product(a, b);
    assert p[i][0] == Inner(a, b, i, 0, 4) && p[i][1] == Inner(a, b, i, 1, 4);
    assert p[i][2] == Inner(a, b, i, 2, 4) && p[i][3] == Inner(a, b, i, 3, 4);
    Inner4(a, b, i, 0);
    Inner4(a, b, i, 1);
    Inner4(a, b, i, 2);
    Inner4(a, b, i, 3);
    Distribute(a[i][0], a[i][1], a[i][2], a[i][3], b[0], b[1], b[2], b[3], v);
  }

  /** The polynomial identity behind RowOfProduct, on plain reals. */
  lemma {:induction false} Distribute(a0: real, a1: real, a2: real, a3: real,
                                      b0: seq<real>, b1: seq<real>, b2: seq<real>, b3: seq<real>, v: Vec)
    requires |b0| == |b1| == |b2| == |b3| == 4
    ensures (a0 * b0[0] + a1 * b1[0] + a2 * b2[0] + a3 * b3[0]) * v.x
          + (a0 * b0[1] + a1 * b1[1] + a2 * b2[1] + a3 * b3[1]) * v.y
          + (a0 * b0[2] + a1 * b1[2] + a2 * b2[2] + a3 * b3[2]) * v.z
          + (a0 * b0[3] + a1 * b1[3] + a2 * b2[3] + a3 * b3[3]) * v.w
         == a0 * (b0[0] * v.x + b0[1] * v.y + b0[2] * v.z + b0[3] * v.w)
          + a1 * (b1[0] * v.x + b1[1] * v.y + b1[2] * v.z + b1[3] * v.w)
          + a2 * (b2[0] * v.x + b2[1] * v.y + b2[2] * v.z + b2[3] * v.w)
          + a3 * (b3[0] * v.x + b3[1] * v.y + b3[2] * v.z + b3[3] * v.w)
  {
  }

  /** Applying a product is applying its right factor, then its left one. */
  lemma {:induction false} MatVecProduct(a: Mat, b: Mat, v: Vec)
    requires |a| == |b| == 4
    ensures MatVec(Product(a, b), v) == MatVec(a, MatVec(b, v))
  {
    RowOfProduct(a, b, 0, v);
    RowOfProduct(a, b, 1, v);
    RowOfProduct(a, b, 2, v);
    RowOfProduct(a, b, 3, v);
  }

  // ---------------------------------------------------------------------
  // Translation after scaling

  /** The closed form of make_translation(t) * make_scaled(s). */
  function TranslateScale(t: Vec, s: Vec): (r: Mat)
    ensures |r| == 4
  {
    [[s.x, 0.0, 0.0, t.x],
     [0.0, s.y, 0.0, t.y],
     [0.0, 0.0, s.z, t.z],
     [0.0, 0.0, 0.0, 1.0]]
  }

  /** The product of a translation and a scale is the closed form TranslateScale. */
  lemma {:induction false} TranslationScaledProduct(t: Vec, s: Vec)
    ensures Product(TranslationBy(t), ScaledBy(s)) == TranslateScale(t, s)
  {
    var a, b := TranslationBy(t), ScaledBy(s);
    var p, q := Product(a, b), TranslateScale(t, s);
    forall i, j | 0 <= i < 4 && 0 <= j < 4
      ensures p[i][j] == q[i][j]
    {
      Inner4(a, b, i, j);
    }
    MatExt(p, q);
  }

  /** The determinant of TranslateScale is the product of the three scale factors. */
  lemma {:induction false} TranslateScaleDet(t: Vec, s: Vec)
    ensures Det(TranslateScale(t, s)) == s.x * s.y * s.z
  {
    var m := TranslateScale(t, s);
    Det4Expansion(m);
    Cofactor4(m, 0, 0);
    Cofactor4(m, 0, 3);
  }

  /** The closed-form determinant of sub(row, col) of a 4 x 4 matrix, from the entries sub keeps. */
  lemma {:induction false} Det3OfSubmatrix(m: Mat, row: nat, col: nat)
    requires |m| == 4 && row < 4 && col < 4
    ensures var r0, r1, r2 := if 0 < row then 0 else 1, if 1 < row then 1 else 2, if 2 < row then 2 else 3;
      var c0, c1, c2 := if 0 < col then 0 else 1, if 1 < col then 1 else 2, if 2 < col then 2 else 3;
      Det3(Submatrix(m, row, col))
      == Det3Of(m[r0][c0], m[r0][c1], m[r0][c2], m[r1][c0], m[r1][c1], m[r1][c2], m[r2][c0], m[r2][c1], m[r2][c2])
  {
    var r0, r1, r2 := if 0 < row then 0 else 1, if 1 < row then 1 else 2, if 2 < row then 2 else 3;
    var c0, c1, c2 := if 0 < col then 0 else 1, if 1 < col then 1 else 2, if 2 < col then 2 else 3;
    var s := Submatrix(m, row, col);
    assert s[0][0] == m[r0][c0] && s[0][1] == m[r0][c1] && s[0][2] == m[r0][c2];
    assert s[1][0] == m[r1][c0] && s[1][1] == m[r1][c1] && s[1][2] == m[r1][c2];
    assert s[2][0] == m[r2][c0] && s[2][1] == m[r2][c1] && s[2][2] == m[r2][c2];
  }

  /** A minor of a 4 x 4 matrix written out from the entries of the rows and columns sub keeps. */
  lemma {:induction false} Minor4(m: Mat, row: nat, col: nat)
    requires |m| == 4 && row < 4 && col < 4
    ensures var r0, r1, r2 := if 0 < row then 0 else 1, if 1 < row then 1 else 2, if 2 < row then 2 else 3;
      var c0, c1, c2 := if 0 < col then 0 else 1, if 1 < col then 1 else 2, if 2 < col then 2 else 3;
      Minor(m, row, col)
      == Det3Of(m[r0][c0], m[r0][c1], m[r0][c2], m[r1][c0], m[r1][c1], m[r1][c2], m[r2][c0], m[r2][c1], m[r2][c2])
  {
    Det3Formula(Submatrix(m, row, col));
    Det3OfSubmatrix(m, row, col);
  }

  /** The cofactors of TranslateScale along row `row`, as a table. */
  function TranslateScaleCofactor(t: Vec, s: Vec, row: nat, col: nat): real
  {
    if row == 3 then
      (if col == 0 then -t.x * s.y * s.z else if col == 1 then -t.y * s.x * s.z
       else if col == 2 then -t.z * s.x * s.y else s.x * s.y * s.z)
    else if row != col then 0.0
    else if row == 0 then s.y * s.z
    else if row == 1 then s.x * s.z
    else s.x * s.y
  }

  /** Each cofactor of TranslateScale matches the table TranslateScaleCofactor. */
  lemma {:induction false} TranslateScaleCofactors(t: Vec, s: Vec, row: nat, col: nat)
    requires row < 4 && col < 4
    ensures Cofactor(TranslateScale(t, s), row, col) == TranslateScaleCofactor(t, s, row, col)
  {
    Minor4(TranslateScale(t, s), row, col);
  }

  /** A quotient by a nonzero d is the unique q with q * d == x. */
  lemma {:induction false} QuotientUnique(x: real, d: real, q: real)
    requires d != 0.0 && q * d == x
    ensures x / d == q
  {
  }

  /** Multiplying n / f by a * b * c, where f is one of the three nonzero factors, cancels f. */
  lemma {:induction false} CancelFactors(n: real, a: real, b: real, c: real)
    requires a != 0.0 && b != 0.0 && c != 0.0
    ensures (n / a) * (a * b * c) == n * b * c
    ensures (n / b) * (a * b * c) == n * a * c
    ensures (n / c) * (a * b * c) == n * a * b
  {
    assert (n / a) * a == n && (n / b) * b == n && (n / c) * c == n;
    assert (n / a) * (a * b * c) == ((n / a) * a) * (b * c);
    assert (n / b) * (a * b * c) == ((n / b) * b) * (a * c);
    assert (n / c) * (a * b * c) == ((n / c) * c) * (a * b);
  }

  /** The closed form of the inverse of TranslateScale(t, s) for nonzero scale factors. */
  function UndoTranslateScale(t: Vec, s: Vec): (r: Mat)
    requires s.x != 0.0 && s.y != 0.0 && s.z != 0.0
    ensures |r| == 4
  {
    [[1.0 / s.x, 0.0, 0.0, -t.x / s.x],
     [0.0, 1.0 / s.y, 0.0, -t.y / s.y],
     [0.0, 0.0, 1.0 / s.z, -t.z / s.z],
     [0.0, 0.0, 0.0, 1.0]]
  }

  /** UndoTranslateScale is the translation by -t followed by the scale by 1/s. */
  lemma {:induction false} UndoTranslateScaleProduct(t: Vec, s: Vec)
    requires s.x != 0.0 && s.y != 0.0 && s.z != 0.0
    ensures UndoTranslateScale(t, s)
         == Product(Scaled(1.0 / s.x, 1.0 / s.y, 1.0 / s.z), Translation(-t.x, -t.y, -t.z))
  {
    var a, b := Scaled(1.0 / s.x, 1.0 / s.y, 1.0 / s.z), Translation(-t.x, -t.y, -t.z);
    var p, k := Product(a, b), UndoTranslateScale(t, s);
    forall i, j | 0 <= i < 4 && 0 <= j < 4
      ensures p[i][j] == k[i][j]
    {
      Inner4(a, b, i, j);
    }
    MatExt(k, p);
  }

  /** With a zero scale factor TranslateScale is singular and inverse falls back to the identity. */
  lemma {:induction false} TranslateScaleSingular(t: Vec, s: Vec)
    requires s.x == 0.0 || s.y == 0.0 || s.z == 0.0
    ensures !Invertible(TranslateScale(t, s))
    ensures InverseOf(TranslateScale(t, s)) == Identity(4)
  {
    TranslateScaleDet(t, s);
  }

  /** Cancelling g and h from quotients over f * g * h. */
  lemma {:induction false} CancelOuter(o: real, f: real, g: real, h: real)
    requires f != 0.0 && g != 0.0 && h != 0.0
    ensures (g * h) / (f * g * h) == 1.0 / f
    ensures (-o * g * h) / (f * g * h) == -o / f
  {
    CancelFactors(1.0, f, g, h);
    CancelFactors(-o, f, g, h);
    QuotientUnique(g * h, f * g * h, 1.0 / f);
    QuotientUnique(-o * g * h, f * g * h, -o / f);
  }

  /** Cancelling g and h from quotients over g * f * h. */
  lemma {:induction false} CancelMiddle(o: real, f: real, g: real, h: real)
    requires f != 0.0 && g != 0.0 && h != 0.0
    ensures (g * h) / (g * f * h) == 1.0 / f
    ensures (-o * g * h) / (g * f * h) == -o / f
  {
    CancelFactors(1.0, g, f, h);
    CancelFactors(-o, g, f, h);
    QuotientUnique(g * h, g * f * h, 1.0 / f);
    QuotientUnique(-o * g * h, g * f * h, -o / f);
  }

  /** Cancelling g and h from quotients over g * h * f. */
  lemma {:induction false} CancelInner(o: real, f: real, g: real, h: real)
    requires f != 0.0 && g != 0.0 && h != 0.0
    ensures (g * h) / (g * h * f) == 1.0 / f
    ensures (-o * g * h) / (g * h * f) == -o / f
  {
    CancelFactors(1.0, g, h, f);
    CancelFactors(-o, g, h, f);
    QuotientUnique(g * h, g * h * f, 1.0 / f);
    QuotientUnique(-o * g * h, g * h * f, -o / f);
  }

  /** Each entry of the inverse of TranslateScale is the transposed cofactor table divided by s.x * s.y * s.z. */
  lemma {:induction false} TranslateScaleInverseTable(t: Vec, s: Vec, i: nat, j: nat)
    requires s.x != 0.0 && s.y != 0.0 && s.z != 0.0 && i < 4 && j < 4
    ensures InverseOf(TranslateScale(t, s))[i][j] == TranslateScaleCofactor(t, s, j, i) / (s.x * s.y * s.z)
  {
    var m := TranslateScale(t, s);
    TranslateScaleDet(t, s);
    TranslateScaleCofactors(t, s, j, i);
    assert InverseOf(m)[i][j] == Cofactor(m, j, i) / Det(m);
  }

  /** The x entries of the cofactor table divided by the determinant. */
  lemma {:induction false} TranslateScaleQuotientX(t: Vec, s: Vec)
    requires s.x != 0.0 && s.y != 0.0 && s.z != 0.0
    ensures TranslateScaleCofactor(t, s, 0, 0) / (s.x * s.y * s.z) == 1.0 / s.x
    ensures TranslateScaleCofactor(t, s, 3, 0) / (s.x * s.y * s.z) == -t.x / s.x
  {
    assert TranslateScaleCofactor(t, s, 0, 0) == s.y * s.z;
    assert TranslateScaleCofactor(t, s, 3, 0) == -t.x * s.y * s.z;
    CancelOuter(t.x, s.x, s.y, s.z);
  }

  /** The y entries of the cofactor table divided by the determinant. */
  lemma {:induction false} TranslateScaleQuotientY(t: Vec, s: Vec)
    requires s.x != 0.0 && s.y != 0.0 && s.z != 0.0
    ensures TranslateScaleCofactor(t, s, 1, 1) / (s.x * s.y * s.z) == 1.0 / s.y
    ensures TranslateScaleCofactor(t, s, 3, 1) / (s.x * s.y * s.z) == -t.y / s.y
  {
    assert TranslateScaleCofactor(t, s, 1, 1) == s.x * s.z;
    assert TranslateScaleCofactor(t, s, 3, 1) == -t.y * s.x * s.z;
    CancelMiddle(t.y, s.y, s.x, s.z);
  }

  /** The z entries of the cofactor table divided by the determinant. */
  lemma {:induction false} TranslateScaleQuotientZ(t: Vec, s: Vec)
    requires s.x != 0.0 && s.y != 0.0 && s.z != 0.0
    ensures TranslateScaleCofactor(t, s, 2, 2) / (s.x * s.y * s.z) == 1.0 / s.z
    ensures TranslateScaleCofactor(t, s, 3, 2) / (s.x * s.y * s.z) == -t.z / s.z
  {
    assert TranslateScaleCofactor(t, s, 2, 2) == s.x * s.y;
    assert TranslateScaleCofactor(t, s, 3, 2) == -t.z * s.x * s.y;
    CancelInner(t.z, s.z, s.x, s.y);
  }

  /** A product of three nonzero factors is nonzero. */
  lemma {:induction false} ProductNonzero(a: real, b: real, c: real)
    requires a != 0.0 && b != 0.0 && c != 0.0
    ensures a * b * c != 0.0
  {
    assert a * b != 0.0;
  }

  /** Entry (i, j) of UndoTranslateScale is cofactor (j, i) of TranslateScale over its determinant. */
  lemma {:induction false} UndoTranslateScaleTable(t: Vec, s: Vec, i: nat, j: nat)
    requires s.x != 0.0 && s.y != 0.0 && s.z != 0.0 && i < 4 && j < 4
    ensures UndoTranslateScale(t, s)[i][j] == TranslateScaleCofactor(t, s, j, i) / (s.x * s.y * s.z)
  {
    var p := s.x * s.y * s.z;
    ProductNonzero(s.x, s.y, s.z);
    if j != i && j != 3 {
      assert TranslateScaleCofactor(t, s, j, i) == 0.0;
    } else if i == 3 {
      assert TranslateScaleCofactor(t, s, 3, 3) == p;
      QuotientUnique(p, p, 1.0);
    } else if i == 0 {
      TranslateScaleQuotientX(t, s);
    } else if i == 1 {
      TranslateScaleQuotientY(t, s);
    } else {
      TranslateScaleQuotientZ(t, s);
    }
  }

  /** Entry (i, j) of the inverse of TranslateScale is entry (i, j) of UndoTranslateScale. */
  lemma {:induction false} TranslateScaleInverseEntry(t: Vec, s: Vec, i: nat, j: nat)
    requires s.x != 0.0 && s.y != 0.0 && s.z != 0.0 && i < 4 && j < 4
    ensures InverseOf(TranslateScale(t, s))[i][j] == UndoTranslateScale(t, s)[i][j]
  {
    TranslateScaleInverseTable(t, s, i, j);
    UndoTranslateScaleTable(t, s, i, j);
  }

  /** With nonzero scale factors, inverse of TranslateScale is UndoTranslateScale. */
  lemma {:induction false} TranslateScaleInverse(t: Vec, s: Vec)
    requires s.x != 0.0 && s.y != 0.0 && s.z != 0.0
    ensures Invertible(TranslateScale(t, s))
    ensures InverseOf(TranslateScale(t, s)) == UndoTranslateScale(t, s)
  {
    var inv, k := InverseOf(TranslateScale(t, s)), UndoTranslateScale(t, s);
    TranslateScaleDet(t, s);
    ProductNonzero(s.x, s.y, s.z);
    forall i, j | 0 <= i < 4 && 0 <= j < 4
      ensures inv[i][j] == k[i][j]
    {
      TranslateScaleInverseEntry(t, s, i, j);
    }
    MatExt(inv, k);
  }
}
