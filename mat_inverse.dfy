/**
 * inverse() of lib/mat.hpp is a two-sided inverse of every invertible 4 x 4
 * matrix, the size of every transform the renderer builds. The proof runs
 * through the 24-term closed form of a 4 x 4 determinant: the cofactors of
 * row j weighted by the entries of row j sum to the determinant, and
 * weighted by the entries of another row they sum to the determinant of a
 * matrix with a repeated row, which is zero. The left inverse follows from
 * the right inverse of the transpose.
 */
module MatrixInverse {
  import opened Vectors
  import opened Matrices

  /** A row of four entries. */
  predicate IsRow4(a: seq<real>)
  {
    |a| == 4
  }

  /** The 4 x 4 determinant with rows a, b, c, d as a sum of one signed product per permutation of the columns. */
  function Leibniz4(a: seq<real>, b: seq<real>, c: seq<real>, d: seq<real>): real
    requires IsRow4(a) && IsRow4(b) && IsRow4(c) && IsRow4(d)
  {
    a[0] * b[1] * c[2] * d[3] - a[0] * b[1] * c[3] * d[2] - a[0] * b[2] * c[1] * d[3]
    + a[0] * b[2] * c[3] * d[1] + a[0] * b[3] * c[1] * d[2] - a[0] * b[3] * c[2] * d[1]
    - a[1] * b[0] * c[2] * d[3] + a[1] * b[0] * c[3] * d[2] + a[1] * b[2] * c[0] * d[3]
    - a[1] * b[2] * c[3] * d[0] - a[1] * b[3] * c[0] * d[2] + a[1] * b[3] * c[2] * d[0]
    + a[2] * b[0] * c[1] * d[3] - a[2] * b[0] * c[3] * d[1] - a[2] * b[1] * c[0] * d[3]
    + a[2] * b[1] * c[3] * d[0] + a[2] * b[3] * c[0] * d[1] - a[2] * b[3] * c[1] * d[0]
    - a[3] * b[0] * c[1] * d[2] + a[3] * b[0] * c[2] * d[1] + a[3] * b[1] * c[0] * d[2]
    - a[3] * b[1] * c[2] * d[0] - a[3] * b[2] * c[0] * d[1] + a[3] * b[2] * c[1] * d[0]
  }

  /** The closed-form 3 x 3 determinant of rows p, q, r without their entries at index col. */
  function ColumnMinor(p: seq<real>, q: seq<real>, r: seq<real>, col: nat): real
    requires IsRow4(p) && IsRow4(q) && IsRow4(r) && col < 4
  {
    var c0, c1, c2 := if col == 0 then 1 else 0, if col <= 1 then 2 else 1, if col <= 2 then 3 else 2;
    Det3Of(p[c0], p[c1], p[c2], q[c0], q[c1], q[c2], r[c0], r[c1], r[c2])
  }

  /** Row j of a 4 x 4 matrix m's cofactors, weighted by the entries of x. */
  function CofactorRow(m: Mat, x: seq<real>, j: nat): real
    requires |m| == 4 && IsRow4(x) && j < 4
  {
    x[0] * Cofactor(m, j, 0) + x[1] * Cofactor(m, j, 1) + x[2] * Cofactor(m, j, 2) + x[3] * Cofactor(m, j, 3)
  }

  /**
   * The rows of a 4 x 4 matrix other than row j, in order, with the first two
   * exchanged when j is odd: the sign (-1)^j of an expansion along row j
   * then lives in the row order.
   */
  function Beside(m: Mat, j: nat): (r: seq<seq<real>>)
    requires |m| == 4 && j < 4
    ensures |r| == 3 && IsRow4(r[0]) && IsRow4(r[1]) && IsRow4(r[2])
  {
    var p := Without(m, j);
    if j % 2 == 0 then p else [p[1], p[0], p[2]]
  }

  // ---------------------------------------------------------------------
  // The closed form

  /** Expanding along the first row over closed-form 3 x 3 minors gives the 24-term closed form. */
  lemma {:induction false} FirstRowExpansion(x: seq<real>, p: seq<real>, q: seq<real>, r: seq<real>)
    requires IsRow4(x) && IsRow4(p) && IsRow4(q) && IsRow4(r)
    ensures x[0] * ColumnMinor(p, q, r, 0) - x[1] * ColumnMinor(p, q, r, 1)
          + x[2] * ColumnMinor(p, q, r, 2) - x[3] * ColumnMinor(p, q, r, 3) == Leibniz4(x, p, q, r)
  {
  }

  /**
   * Moving row 1, 2 or 3 of the closed form to the front, with the rows it
   * passes in the order Beside keeps them, does not change it, and it is zero
   * when the first row repeats one of the others.
   */
  lemma {:induction false} LeibnizRows(a: seq<real>, b: seq<real>, c: seq<real>, d: seq<real>)
    requires IsRow4(a) && IsRow4(b) && IsRow4(c) && IsRow4(d)
    ensures Leibniz4(b, c, a, d) == Leibniz4(a, b, c, d)
    ensures Leibniz4(c, a, b, d) == Leibniz4(a, b, c, d)
    ensures Leibniz4(d, b, a, c) == Leibniz4(a, b, c, d)
    ensures Leibniz4(b, b, c, d) == 0.0 && Leibniz4(c, b, c, d) == 0.0 && Leibniz4(d, b, c, d) == 0.0
  {
  }

  /** Exchanging the first two rows of a closed-form 3 x 3 minor negates it. */
  lemma {:induction false} ColumnMinorSwap(p: seq<real>, q: seq<real>, r: seq<real>, col: nat)
    requires IsRow4(p) && IsRow4(q) && IsRow4(r) && col < 4
    ensures ColumnMinor(q, p, r, col) == -ColumnMinor(p, q, r, col)
  {
  }

  /** The closed form of the columns equals the closed form of the rows. */
  lemma {:induction false} LeibnizTranspose(a: seq<real>, b: seq<real>, c: seq<real>, d: seq<real>)
    requires IsRow4(a) && IsRow4(b) && IsRow4(c) && IsRow4(d)
    ensures Leibniz4([a[0], b[0], c[0], d[0]], [a[1], b[1], c[1], d[1]],
                     [a[2], b[2], c[2], d[2]], [a[3], b[3], c[3], d[3]]) == Leibniz4(a, b, c, d)
  {
  }

  // ---------------------------------------------------------------------
  // Cofactor expansions along any row

  /** A cofactor of a 4 x 4 matrix: the signed closed-form minor of the rows p of m without row j. */
  lemma {:induction false} CofactorWithout(m: Mat, j: nat, col: nat)
    requires |m| == 4 && j < 4 && col < 4
    ensures var p := Without(m, j); Cofactor(m, j, col) == Sign(j, col) * ColumnMinor(p[0], p[1], p[2], col)
  {
    var p, c0, c1, c2 := Without(m, j), if col == 0 then 1 else 0, if col <= 1 then 2 else 1, if col <= 2 then 3 else 2;
    Cofactor4(m, j, col);
    var s := Submatrix(m, j, col);
    forall r | 0 <= r < 3
      ensures s[r][0] == p[r][c0] && s[r][1] == p[r][c1] && s[r][2] == p[r][c2]
    {
    }
  }

  /**
   * A cofactor of a 4 x 4 matrix through the rows q beside row j: the
   * closed-form determinant of the columns of q other than col, negated when
   * col is odd.
   */
  lemma {:induction false} CofactorOfRows(m: Mat, j: nat, col: nat)
    requires |m| == 4 && j < 4 && col < 4
    ensures var q := Beside(m, j);
      Cofactor(m, j, col) == if col % 2 == 0 then ColumnMinor(q[0], q[1], q[2], col) else -ColumnMinor(q[0], q[1], q[2], col)
  {
    var p := Without(m, j);
    var d := ColumnMinor(p[0], p[1], p[2], col);
    CofactorWithout(m, j, col);
    ColumnMinorSwap(p[0], p[1], p[2], col);
    if j % 2 == 0 && col % 2 == 0 {
      assert Sign(j, col) == 1.0;
      assert Cofactor(m, j, col) == d;
    } else if j % 2 == 0 {
      assert Sign(j, col) == -1.0;
      assert Cofactor(m, j, col) == -d;
    } else if col % 2 == 0 {
      assert Sign(j, col) == -1.0;
      assert Cofactor(m, j, col) == -d;
    } else {
      assert (j == 1 || j == 3) && (col == 1 || col == 3);
      assert Sign(j, col) == 1.0;
      assert Cofactor(m, j, col) == d;
    }
  }

  /** Four terms x_k * c_k, where c_k is d_k with alternating signs, sum to the alternating expansion. */
  lemma {:induction false} AlternatingSum(x0: real, x1: real, x2: real, x3: real, c0: real, c1: real, c2: real, c3: real,
                                          d0: real, d1: real, d2: real, d3: real)
    requires c0 == d0 && c1 == -d1 && c2 == d2 && c3 == -d3
    ensures x0 * c0 + x1 * c1 + x2 * c2 + x3 * c3 == x0 * d0 - x1 * d1 + x2 * d2 - x3 * d3
  {
  }

  /** Weighting the cofactors of row j by x gives the closed form with x in front of the rows beside row j. */
  lemma {:induction false} CofactorRowClosed(m: Mat, x: seq<real>, j: nat)
    requires |m| == 4 && IsRow4(x) && j < 4
    ensures var q := Beside(m, j); CofactorRow(m, x, j) == Leibniz4(x, q[0], q[1], q[2])
  {
    var q := Beside(m, j);
    CofactorOfRows(m, j, 0);
    CofactorOfRows(m, j, 1);
    CofactorOfRows(m, j, 2);
    CofactorOfRows(m, j, 3);
    AlternatingSum(x[0], x[1], x[2], x[3], Cofactor(m, j, 0), Cofactor(m, j, 1), Cofactor(m, j, 2), Cofactor(m, j, 3),
                   ColumnMinor(q[0], q[1], q[2], 0), ColumnMinor(q[0], q[1], q[2], 1),
                   ColumnMinor(q[0], q[1], q[2], 2), ColumnMinor(q[0], q[1], q[2], 3));
    FirstRowExpansion(x, q[0], q[1], q[2]);
  }

  /** determinant of a 4 x 4 matrix is the closed form of its rows. */
  lemma {:induction false} DetLeibniz(m: Mat)
    requires |m| == 4
    ensures Det(m) == Leibniz4(m[0], m[1], m[2], m[3])
  {
    Det4Expansion(m);
    CofactorRowClosed(m, m[0], 0);
    assert Beside(m, 0) == [m[1], m[2], m[3]];
  }

  /** Expanding along any row j of a 4 x 4 matrix gives its determinant. */
  lemma {:induction false} RowExpansion(m: Mat, j: nat)
    requires |m| == 4 && j < 4
    ensures CofactorRow(m, m[j], j) == Det(m)
  {
    DetLeibniz(m);
    CofactorRowClosed(m, m[j], j);
    LeibnizRows(m[0], m[1], m[2], m[3]);
    if j == 1 {
      assert Beside(m, 1) == [m[2], m[0], m[3]];
    } else if j == 2 {
      assert Beside(m, 2) == [m[0], m[1], m[3]];
    } else if j == 3 {
      assert Beside(m, 3) == [m[1], m[0], m[2]];
    } else {
      assert Beside(m, 0) == [m[1], m[2], m[3]];
    }
  }

  /** The cofactors of row j weighted by another row i sum to zero. */
  lemma {:induction false} AlienExpansion(m: Mat, i: nat, j: nat)
    requires |m| == 4 && i < 4 && j < 4 && i != j
    ensures CofactorRow(m, m[i], j) == 0.0
  {
    var q := Beside(m, j);
    CofactorRowClosed(m, m[i], j);
    LeibnizRows(q[0], q[0], q[1], q[2]);
    assert m[i] == q[0] || m[i] == q[1] || m[i] == q[2];
  }

  // ---------------------------------------------------------------------
  // The inverse

  /** Four quotients by the same nonzero divisor, weighted and summed, are the weighted sum divided once. */
  lemma {:induction false} SumOverDivisor(x: seq<real>, c0: real, c1: real, c2: real, c3: real, d: real)
    requires IsRow4(x) && d != 0.0
    ensures x[0] * (c0 / d) + x[1] * (c1 / d) + x[2] * (c2 / d) + x[3] * (c3 / d)
         == (x[0] * c0 + x[1] * c1 + x[2] * c2 + x[3] * c3) / d
  {
  }

  /** Entry (k, j) of the inverse of an invertible matrix is cofactor (j, k) over the determinant. */
  lemma {:induction false} InverseEntry(m: Mat, k: nat, j: nat)
    requires Invertible(m) && k < |m| && j < |m|
    ensures InverseOf(m)[k][j] == Cofactor(m, j, k) / Det(m)
  {
  }

  /** Entry (i, j) of m * inverse(m) is row i weighted by the cofactors of row j, over the determinant. */
  lemma {:induction false} RightInverseEntry(m: Mat, i: nat, j: nat)
    requires |m| == 4 && Invertible(m) && i < 4 && j < 4
    ensures Product(m, InverseOf(m))[i][j] == CofactorRow(m, m[i], j) / Det(m)
  {
    var inv := InverseOf(m);
    Inner4(m, inv, i, j);
    InverseEntry(m, 0, j);
    InverseEntry(m, 1, j);
    InverseEntry(m, 2, j);
    InverseEntry(m, 3, j);
    SumOverDivisor(m[i], Cofactor(m, j, 0), Cofactor(m, j, 1), Cofactor(m, j, 2), Cofactor(m, j, 3), Det(m));
  }

  /** inverse() of an invertible 4 x 4 matrix is a right inverse. */
  lemma {:induction false} RightInverse4(m: Mat)
    requires |m| == 4 && Invertible(m)
    ensures Product(m, InverseOf(m)) == Identity(4)
  {
    var p := Product(m, InverseOf(m));
    forall i, j | 0 <= i < 4 && 0 <= j < 4
      ensures p[i][j] == Identity(4)[i][j]
    {
      RightInverseEntry(m, i, j);
      if i == j {
        RowExpansion(m, j);
      } else {
        AlienExpansion(m, i, j);
      }
    }
    MatExt(p, Identity(4));
  }

  /** A 4 x 4 matrix and its transpose have the same determinant. */
  lemma {:induction false} DetTranspose4(m: Mat)
    requires |m| == 4
    ensures Det(Transpose(m)) == Det(m)
  {
    var t := Transpose(m);
    DetLeibniz(m);
    DetLeibniz(t);
    LeibnizTranspose(m[0], m[1], m[2], m[3]);
    assert t[0] == [m[0][0], m[1][0], m[2][0], m[3][0]];
    assert t[1] == [m[0][1], m[1][1], m[2][1], m[3][1]];
    assert t[2] == [m[0][2], m[1][2], m[2][2], m[3][2]];
    assert t[3] == [m[0][3], m[1][3], m[2][3], m[3][3]];
  }

  /** Cofactor (col, row) of the transpose of a 4 x 4 matrix is cofactor (row, col) of the matrix. */
  lemma {:induction false} CofactorTranspose(m: Mat, row: nat, col: nat)
    requires |m| == 4 && row < 4 && col < 4
    ensures Cofactor(Transpose(m), col, row) == Cofactor(m, row, col)
  {
    SubmatrixTranspose(m, row, col);
    DetTransposeSmall(Submatrix(m, row, col));
    assert Sign(col, row) == Sign(row, col);
  }

  /** The inverse of the transpose of an invertible 4 x 4 matrix is the transpose of its inverse. */
  lemma {:induction false} InverseTranspose(m: Mat)
    requires |m| == 4 && Invertible(m)
    ensures Invertible(Transpose(m))
    ensures InverseOf(Transpose(m)) == Transpose(InverseOf(m))
  {
    var t := Transpose(m);
    DetTranspose4(m);
    var a, b := InverseOf(t), Transpose(InverseOf(m));
    forall i, j | 0 <= i < 4 && 0 <= j < 4
      ensures a[i][j] == b[i][j]
    {
      CofactorTranspose(m, i, j);
    }
    MatExt(a, b);
  }

  /** inverse() of an invertible 4 x 4 matrix is a two-sided inverse. */
  lemma {:induction false} InverseIsInverse4(m: Mat)
    requires |m| == 4 && Invertible(m)
    ensures Product(m, InverseOf(m)) == Identity(4)
    ensures Product(InverseOf(m), m) == Identity(4)
  {
    RightInverse4(m);
    var t, inv := Transpose(m), InverseOf(m);
    InverseTranspose(m);
    RightInverse4(t);
    TransposeProduct(inv, m);
    TransposeInvolutive(Product(inv, m));
    TransposeIdentity(4);
  }

  /** For an invertible 4 x 4 matrix, inverse() undoes m * v and m undoes inverse() * v. */
  lemma {:induction false} InverseUndoesAction(m: Mat, v: Vec)
    requires |m| == 4 && Invertible(m)
    ensures MatVec(InverseOf(m), MatVec(m, v)) == v
    ensures MatVec(m, MatVec(InverseOf(m), v)) == v
  {
    InverseIsInverse4(m);
    MatVecProduct(InverseOf(m), m, v);
    MatVecProduct(m, InverseOf(m), v);
    IdentityAction(v);
  }
}
