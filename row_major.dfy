/**
 * Row-major flat indexing shared by the matrix buffer (lib/mat.hpp) and the
 * bitmap pixel buffer (lib/bitmap.hpp): with rows of `n` cells, cell
 * (row, col) sits at position row * n + col.
 */
module RowMajor {

  /**
   * The flat position row * n + col of cell (row, col), written as repeated
   * addition so that the index arithmetic stays linear.
   */
  function Offset(n: nat, row: nat, col: nat): nat
    decreases row
  {
    if row == 0 then col else n + Offset(n, row - 1, col)
  }

  /** Offset is the row-major index row * n + col. */
  lemma {:induction false} OffsetIsProduct(n: nat, row: nat, col: nat)
    ensures Offset(n, row, col) == row * n + col
  {
    if row > 0 {
      OffsetIsProduct(n, row - 1, col);
    }
  }

  /** Moving along a row moves the flat position by the same amount. */
  lemma {:induction false} OffsetShift(n: nat, row: nat, col: nat)
    ensures Offset(n, row, col) == Offset(n, row, 0) + col
    decreases row
  {
    if row > 0 {
      OffsetShift(n, row - 1, col);
    }
  }

  /** A later row starts at least a whole row after an earlier one. */
  lemma {:induction false} RowStartsApart(n: nat, r1: nat, r2: nat)
    requires r1 < r2
    ensures Offset(n, r1, 0) + n <= Offset(n, r2, 0)
    decreases r2
  {
    if r1 + 1 < r2 {
      RowStartsApart(n, r1, r2 - 1);
    }
  }

  /** In a buffer of `rows` rows of n cells, cell (row, col) lies before Offset(n, rows, 0). */
  lemma {:induction false} OffsetBelow(n: nat, rows: nat, row: nat, col: nat)
    requires row < rows && col < n
    ensures Offset(n, row, col) < Offset(n, rows, 0)
  {
    OffsetShift(n, row, col);
    RowStartsApart(n, row, rows);
  }

  /** Distinct cells have distinct flat positions. */
  lemma {:induction false} OffsetInjective(n: nat, r1: nat, c1: nat, r2: nat, c2: nat)
    requires c1 < n && c2 < n
    requires Offset(n, r1, c1) == Offset(n, r2, c2)
    ensures r1 == r2 && c1 == c2
  {
    OffsetShift(n, r1, c1);
    OffsetShift(n, r2, c2);
    if r1 < r2 {
      RowStartsApart(n, r1, r2);
    } else if r2 < r1 {
      RowStartsApart(n, r2, r1);
    }
  }
}
