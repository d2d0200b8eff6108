/**
 * minor() of lib/mat.hpp returns the entry itself for a 1 x 1 matrix and the
 * entry (row, col) itself for a 2 x 2 matrix, where the determinant of
 * sub(row, col) is meant: 1 for a 1 x 1 matrix and the opposite entry
 * (1 - row, 1 - col) for a 2 x 2 one. inverse() inherits the slip at those
 * sizes. This module exhibits it on Matrices.InverseOf and proves the
 * intended definition correct; from 3 x 3 on the two agree, so every use of
 * InverseOf in the model (4 x 4 object transforms) is unaffected.
 */
module MatrixFindings {
  import opened Matrices
  import opened MatrixRegressions

  /** diag(2, 1) is invertible, yet inverse() gives diag(1, 0.5), and m * inverse(m) is not the identity. */
  lemma {:induction false} InverseAsWrittenFails(m: Mat)
    requires m == [[2.0, 0.0], [0.0, 1.0]]
    ensures Invertible(m)
    ensures InverseOf(m) == [[1.0, 0.0], [0.0, 0.5]]
    ensures Product(m, InverseOf(m)) == [[2.0, 0.0], [0.0, 0.5]]
    ensures Product(m, InverseOf(m)) != Identity(2)
  {
    var inv := InverseOf(m);
    assert Det(m) == 2.0;
    assert Cofactor(m, 0, 0) == 2.0 && Cofactor(m, 0, 1) == 0.0;
    assert Cofactor(m, 1, 0) == 0.0 && Cofactor(m, 1, 1) == 1.0;
    assert inv[0][0] == 1.0 && inv[0][1] == 0.0 && inv[1][0] == 0.0 && inv[1][1] == 0.5;
    MatExt(inv, [[1.0, 0.0], [0.0, 0.5]]);
    Product2(m, inv, [[2.0, 0.0], [0.0, 0.5]]);
    assert Identity(2)[0][0] == 1.0;
  }

  /** The intended minor: 1 for 1 x 1, the opposite entry for 2 x 2, det(sub(row, col)) otherwise. */
  function IntendedMinor(m: Mat, row: nat, col: nat): real
    requires row < |m| && col < |m|
  {
    if |m| == 1 then 1.0
    else if |m| == 2 then m[1 - row][1 - col]
    else Det(Submatrix(m, row, col))
  }

  /** The intended cofactor: the intended minor with the checkerboard sign. */
  function IntendedCofactor(m: Mat, row: nat, col: nat): real
    requires row < |m| && col < |m|
  {
    IntendedMinor(m, row, col) * Sign(row, col)
  }

  /** The intended inverse: inverse() built on the intended cofactor. */
  function IntendedInverse(m: Mat): (r: Mat)
    ensures |r| == |m|
    ensures !Invertible(m) ==> r == Identity(|m|)
  {
    if !Invertible(m) then Identity(|m|)
    else seq(|m|, i requires 0 <= i < |m| => seq(|m|, j requires 0 <= j < |m| => IntendedCofactor(m, j, i) / Det(m)))
  }

  /** From 3 x 3 on, the intended inverse is inverse() as written. */
  lemma {:induction false} IntendedAgreesFromThree(m: Mat)
    requires |m| >= 3
    ensures IntendedInverse(m) == InverseOf(m)
  {
    if Invertible(m) {
      var a, b := IntendedInverse(m), InverseOf(m);
      forall i, j | 0 <= i < |m| && 0 <= j < |m|
        ensures a[i][j] == b[i][j]
      {
        assert IntendedCofactor(m, j, i) == Cofactor(m, j, i);
      }
      MatExt(a, b);
    }
  }

  /** The closed-form 2 x 2 inverse on plain reals: both products are the identity. */
  lemma {:induction false} Inverse2Arith(a: real, b: real, c: real, d: real, det: real)
    requires det == a * d - c * b && det != 0.0
    ensures a * (d / det) + b * (-c / det) == 1.0 && a * (-b / det) + b * (a / det) == 0.0
    ensures c * (d / det) + d * (-c / det) == 0.0 && c * (-b / det) + d * (a / det) == 1.0
    ensures (d / det) * a + (-b / det) * c == 1.0 && (d / det) * b + (-b / det) * d == 0.0
    ensures (-c / det) * a + (a / det) * c == 0.0 && (-c / det) * b + (a / det) * d == 1.0
  {
    assert a * (d / det) + b * (-c / det) == (a * d - b * c) / det;
    assert a * (-b / det) + b * (a / det) == (a * -b + b * a) / det;
    assert c * (d / det) + d * (-c / det) == (c * d - d * c) / det;
    assert c * (-b / det) + d * (a / det) == (d * a - c * b) / det;
  }

  /** The entries of the intended inverse of an invertible 2 x 2 matrix. */
  lemma {:induction false} IntendedInverse2Entries(m: Mat)
    requires |m| == 2 && Invertible(m)
    ensures Det(m) == m[0][0] * m[1][1] - m[1][0] * m[0][1]
    ensures IntendedInverse(m)[0][0] == m[1][1] / Det(m) && IntendedInverse(m)[0][1] == -m[0][1] / Det(m)
    ensures IntendedInverse(m)[1][0] == -m[1][0] / Det(m) && IntendedInverse(m)[1][1] == m[0][0] / Det(m)
  {
    assert IntendedCofactor(m, 0, 1) == -m[1][0];
    assert IntendedCofactor(m, 1, 0) == -m[0][1];
  }

  /** A 2 x 2 matrix times its intended inverse, either way round, is the identity. */
  lemma {:induction false} IntendedInverse2(m: Mat)
    requires |m| == 2 && Invertible(m)
    ensures Product(m, IntendedInverse(m)) == Identity(2)
    ensures Product(IntendedInverse(m), m) == Identity(2)
  {
    var k := IntendedInverse(m);
    IntendedInverse2Entries(m);
    Inverse2Arith(m[0][0], m[0][1], m[1][0], m[1][1], Det(m));
    var id := Identity(2);
    assert id[0][0] == 1.0 && id[0][1] == 0.0 && id[1][0] == 0.0 && id[1][1] == 1.0;
    Product2(m, k, id);
    Product2(k, m, id);
  }

  /** A 1 x 1 matrix times its intended inverse, either way round, is the identity. */
  lemma {:induction false} IntendedInverse1(m: Mat)
    requires |m| == 1 && Invertible(m)
    ensures Product(m, IntendedInverse(m)) == Identity(1)
    ensures Product(IntendedInverse(m), m) == Identity(1)
  {
    var k := IntendedInverse(m);
    assert k[0][0] == 1.0 / m[0][0];
    assert m[0][0] * (1.0 / m[0][0]) == 1.0;
    var p, q := Product(m, k), Product(k, m);
    assert p[0][0] == Inner(m, k, 0, 0, 1) == m[0][0] * k[0][0];
    assert q[0][0] == Inner(k, m, 0, 0, 1) == k[0][0] * m[0][0];
    MatExt(p, Identity(1));
    MatExt(q, Identity(1));
  }

  /** Below 3 x 3, the intended inverse of an invertible matrix is a two-sided inverse. */
  lemma {:induction false} IntendedInverseIsInverse(m: Mat)
    requires |m| <= 2 && Invertible(m)
    ensures Product(m, IntendedInverse(m)) == Identity(|m|)
    ensures Product(IntendedInverse(m), m) == Identity(|m|)
  {
    if |m| == 1 {
      IntendedInverse1(m);
    } else {
      IntendedInverse2(m);
    }
  }
}
