/**
 * The storage of the mat struct (lib/mat.hpp): N * N floats in a flat,
 * row-major buffer, entry (row, col) at index row * N + col. The member
 * functions that fill an output matrix through nested loops are methods
 * here, each proved against the corresponding function of Matrices.
 */
module MatrixStorage {
  import opened RtMath
  import opened Vectors
  import opened Matrices
  import opened RowMajor

  /** The number of cells of an n x n matrix, n * n. */
  function Cells(n: nat): nat
  {
    Offset(n, n, 0)
  }

  /** The buffer of an n x n matrix holds n * n cells. */
  lemma {:induction false} CellsIsSquare(n: nat)
    ensures Cells(n) == n * n
  {
    OffsetIsProduct(n, n, 0);
  }

  /** Multiplication by a natural number is monotone. */
  lemma {:induction false} MulMonotone(a: nat, b: nat, n: nat)
    requires a <= b
    ensures a * n <= b * n
  {
  }

  /** Cell (row, col) of an n x n matrix lies inside its buffer. */
  lemma {:induction false} OffsetInRange(n: nat, row: nat, col: nat)
    requires row < n && col < n
    ensures Offset(n, row, col) < Cells(n)
  {
    OffsetBelow(n, n, row, col);
  }

  /** Every position of the buffer is the position of some cell: row t / n, column t % n. */
  lemma {:induction false} OffsetSplit(n: nat, t: nat) returns (row: nat, col: nat)
    requires t < Cells(n)
    ensures row < n && col < n && Offset(n, row, col) == t
  {
    CellsIsSquare(n);
    assert n >= 1;
    row, col := t / n, t % n;
    OffsetIsProduct(n, row, col);
    if row >= n {
      MulMonotone(n, row, n);
    }
  }

  /** The buffer s holds the entries of m row by row: entry (i, j) at position Offset(n, i, j). */
  ghost predicate Stores(n: nat, m: Mat, s: seq<real>)
  {
    |m| == n && |s| == Cells(n) &&
    forall i, j :: 0 <= i < n && 0 <= j < n ==> Offset(n, i, j) < |s| && m[i][j] == s[Offset(n, i, j)]
  }

  /**
   * operator== walks the flat buffer; comparing cell by cell in the flat
   * order decides the same thing as comparing entry by entry.
   */
  lemma {:induction false} ApproxEqualFlat(n: nat, a: Mat, b: Mat, s: seq<real>, t: seq<real>)
    requires Stores(n, a, s) && Stores(n, b, t)
    ensures ApproxEqual(a, b) <==> forall u :: 0 <= u < Cells(n) ==> NearlyEq(s[u], t[u])
  {
    if forall u :: 0 <= u < Cells(n) ==> NearlyEq(s[u], t[u]) {
      forall i, j | 0 <= i < n && 0 <= j < n
        ensures NearlyEq(a[i][j], b[i][j])
      {
        OffsetInRange(n, i, j);
      }
    } else {
      var u :| 0 <= u < Cells(n) && !NearlyEq(s[u], t[u]);
      var row, col := OffsetSplit(n, u);
      assert !NearlyEq(a[row][col], b[row][col]);
    }
  }

  /** One more term of the first-row expansion. */
  lemma {:induction false} ExpansionStep(m: Mat, k: nat)
    requires k < |m|
    ensures ExpansionSum(m, k + 1) == ExpansionSum(m, k) + m[0][k] * Cofactor(m, 0, k)
  {
  }

  /** m with entry (row, col) replaced by v. */
  function Write(m: Mat, row: nat, col: nat, v: real): (r: Mat)
    requires row < |m| && col < |m|
    ensures |r| == |m|
  {
    m[row := m[row][col := v]]
  }

  /** Writing an entry's own value back changes nothing. */
  lemma {:induction false} WriteSame(m: Mat, row: nat, col: nat)
    requires row < |m| && col < |m|
    ensures Write(m, row, col, m[row][col]) == m
  {
    MatExt(Write(m, row, col, m[row][col]), m);
  }

  /** A second write to the same entry overrides the first. */
  lemma {:induction false} WriteTwice(m: Mat, row: nat, col: nat, u: real, v: real)
    requires row < |m| && col < |m|
    ensures Write(Write(m, row, col, u), row, col, v) == Write(m, row, col, v)
  {
    MatExt(Write(Write(m, row, col, u), row, col, v), Write(m, row, col, v));
  }

  /**
   * base after the cells of target before (i, j) in row-major order have
   * been written into it one at a time: rows 0 .. i - 1 and the first j
   * cells of row i.
   */
  function FillRows(base: Mat, target: Mat, i: nat, j: nat): (r: Mat)
    requires |base| == |target| && j <= |base| && (i < |base| || (i == |base| && j == 0))
    ensures |r| == |base|
    decreases i, j
  {
    if j > 0 then Write(FillRows(base, target, i, j - 1), i, j - 1, target[i][j - 1])
    else if i > 0 then FillRows(base, target, i - 1, |base|)
    else base
  }

  /** A row-major fill holds target on the cells written so far and base elsewhere. */
  lemma {:induction false} FillRowsAt(base: Mat, target: Mat, i: nat, j: nat, x: nat, y: nat)
    requires |base| == |target| && j <= |base| && (i < |base| || (i == |base| && j == 0))
    requires x < |base| && y < |base|
    ensures FillRows(base, target, i, j)[x][y] == if x < i || (x == i && y < j) then target[x][y] else base[x][y]
    decreases i, j
  {
    if j > 0 {
      FillRowsAt(base, target, i, j - 1, x, y);
    } else if i > 0 {
      FillRowsAt(base, target, i - 1, |base|, x, y);
    }
  }

  /** Once every row is written the fill is target itself. */
  lemma {:induction false} FillRowsDone(base: Mat, target: Mat)
    requires |base| == |target|
    ensures FillRows(base, target, |base|, 0) == target
  {
    forall x, y | 0 <= x < |base| && 0 <= y < |base|
      ensures FillRows(base, target, |base|, 0)[x][y] == target[x][y]
    {
      FillRowsAt(base, target, |base|, 0, x, y);
    }
    MatExt(FillRows(base, target, |base|, 0), target);
  }

  /**
   * base after the cells of target before (j, i) in column-major order have
   * been written into it one at a time: columns 0 .. i - 1 and the first j
   * cells of column i.
   */
  function FillCols(base: Mat, target: Mat, i: nat, j: nat): (r: Mat)
    requires |base| == |target| && j <= |base| && (i < |base| || (i == |base| && j == 0))
    ensures |r| == |base|
    decreases i, j
  {
    if j > 0 then Write(FillCols(base, target, i, j - 1), j - 1, i, target[j - 1][i])
    else if i > 0 then FillCols(base, target, i - 1, |base|)
    else base
  }

  /** A column-major fill holds target on the cells written so far and base elsewhere. */
  lemma {:induction false} FillColsAt(base: Mat, target: Mat, i: nat, j: nat, x: nat, y: nat)
    requires |base| == |target| && j <= |base| && (i < |base| || (i == |base| && j == 0))
    requires x < |base| && y < |base|
    ensures FillCols(base, target, i, j)[x][y] == if y < i || (y == i && x < j) then target[x][y] else base[x][y]
    decreases i, j
  {
    if j > 0 {
      FillColsAt(base, target, i, j - 1, x, y);
    } else if i > 0 {
      FillColsAt(base, target, i - 1, |base|, x, y);
    }
  }

  /** Once every column is written the fill is target itself. */
  lemma {:induction false} FillColsDone(base: Mat, target: Mat)
    requires |base| == |target|
    ensures FillCols(base, target, |base|, 0) == target
  {
    forall x, y | 0 <= x < |base| && 0 <= y < |base|
      ensures FillCols(base, target, |base|, 0)[x][y] == target[x][y]
    {
      FillColsAt(base, target, |base|, 0, x, y);
    }
    MatExt(FillCols(base, target, |base|, 0), target);
  }

  /**
   * The output of sub(row, col) of m, starting from z, after the loops have
   * visited the source cells before (i, j) in row-major order: each visited
   * cell outside row `row` and column `col` is written one row up past the
   * removed row and one column left past the removed column.
   */
  function SubFill(m: Mat, row: nat, col: nat, z: Mat, i: nat, j: nat): (r: Mat)
    requires |m| >= 2 && row < |m| && col < |m| && |z| == |m| - 1
    requires j <= |m| && (i < |m| || (i == |m| && j == 0))
    ensures |r| == |z|
    decreases i, j
  {
    if j > 0 then
      var prev := SubFill(m, row, col, z, i, j - 1);
      if i == row || j - 1 == col then prev
      else Write(prev, if row < i then i - 1 else i, if col < j - 1 then j - 2 else j - 1, m[i][j - 1])
    else if i > 0 then SubFill(m, row, col, z, i - 1, |m|)
    else z
  }

  /** The removed row writes nothing. */
  lemma {:induction false} SubFillSkipsRow(m: Mat, row: nat, col: nat, z: Mat, j: nat)
    requires |m| >= 2 && row < |m| && col < |m| && |z| == |m| - 1 && j <= |m|
    ensures SubFill(m, row, col, z, row, j) == SubFill(m, row, col, z, row, 0)
  {
    if j > 0 {
      SubFillSkipsRow(m, row, col, z, j - 1);
    }
  }

  /**
   * Entry (x, y) of the output holds the source entry it comes from once the
   * loops have visited that source cell, and its initial value before.
   */
  lemma {:induction false} SubFillAt(m: Mat, row: nat, col: nat, z: Mat, i: nat, j: nat, x: nat, y: nat)
    requires |m| >= 2 && row < |m| && col < |m| && |z| == |m| - 1
    requires j <= |m| && (i < |m| || (i == |m| && j == 0))
    requires x < |z| && y < |z|
    ensures var sx, sy := if x < row then x else x + 1, if y < col then y else y + 1;
      SubFill(m, row, col, z, i, j)[x][y] == if sx < i || (sx == i && sy < j) then m[sx][sy] else z[x][y]
    decreases i, j
  {
    if j > 0 {
      SubFillAt(m, row, col, z, i, j - 1, x, y);
    } else if i > 0 {
      SubFillAt(m, row, col, z, i - 1, |m|, x, y);
    }
  }

  /** Once every source cell is visited the output is sub(row, col). */
  lemma {:induction false} SubFillDone(m: Mat, row: nat, col: nat, z: Mat)
    requires |m| >= 2 && row < |m| && col < |m| && |z| == |m| - 1
    ensures SubFill(m, row, col, z, |m|, 0) == Submatrix(m, row, col)
  {
    var r, s := SubFill(m, row, col, z, |m|, 0), Submatrix(m, row, col);
    forall x, y | 0 <= x < |z| && 0 <= y < |z|
      ensures r[x][y] == s[x][y]
    {
      SubFillAt(m, row, col, z, |m|, 0, x, y);
    }
    MatExt(r, s);
  }

  /**
   * A mat object: its dimension N and its buffer of N * N floats. The ghost
   * field contents is the matrix the buffer holds.
   */
  class MatBuffer {
    const n: nat
    var values: array<real>
    ghost var contents: Mat

    ghost predicate Valid()
      reads this, values
    {
      n >= 1 && |contents| == n && values.Length == Cells(n) &&
      forall i, j :: 0 <= i < n && 0 <= j < n ==>
        Offset(n, i, j) < values.Length && contents[i][j] == values[Offset(n, i, j)]
    }

    /** The matrix the buffer holds. */
    ghost function Value(): (m: Mat)
      reads this
    {
      contents
    }

    /** The default constructor: every entry is zero. */
    constructor (n: nat)
      requires n >= 1
      ensures Valid() && this.n == n && fresh(values)
      ensures forall i, j :: 0 <= i < n && 0 <= j < n ==> Value()[i][j] == 0.0
    {
      this.n := n;
      CellsIsSquare(n);
      values := new real[n * n](_ => 0.0);
      contents := seq(n, i requires 0 <= i < n => seq(n, j requires 0 <= j < n => 0.0));
      new;
      forall i, j | 0 <= i < n && 0 <= j < n
        ensures Offset(n, i, j) < values.Length && contents[i][j] == values[Offset(n, i, j)]
      {
        OffsetInRange(n, i, j);
      }
    }

    /**
     * The variadic constructor: the given values fill the buffer in flat
     * order and the cells after them stay zero.
     */
    constructor FromValues(n: nat, vals: seq<real>)
      requires n >= 1 && |vals| <= Cells(n)
      ensures Valid() && this.n == n && fresh(values)
      ensures forall i, j :: 0 <= i < n && 0 <= j < n ==>
        Value()[i][j] == if Offset(n, i, j) < |vals| then vals[Offset(n, i, j)] else 0.0
    {
      this.n := n;
      CellsIsSquare(n);
      values := new real[n * n](t => if 0 <= t < |vals| then vals[t] else 0.0);
      contents := seq(n, i requires 0 <= i < n => seq(n, j requires 0 <= j < n =>
        if Offset(n, i, j) < |vals| then vals[Offset(n, i, j)] else 0.0));
      new;
      forall i, j | 0 <= i < n && 0 <= j < n
        ensures Offset(n, i, j) < values.Length && contents[i][j] == values[Offset(n, i, j)]
      {
        OffsetInRange(n, i, j);
      }
    }

    /** get and the const operator(): entry (row, col). */
    function Get(row: nat, col: nat): (v: real)
      requires Valid() && row < n && col < n
      reads this, values
      ensures v == Value()[row][col]
    {
      values[Offset(n, row, col)]
    }

    /** set and the mutable operator(): entry (row, col) becomes value, every other entry stays. */
    method Set(value: real, row: nat, col: nat)
      requires Valid() && row < n && col < n
      modifies this, values
      ensures values == old(values) && Valid()
      ensures Value() == Write(old(Value()), row, col, value)
    {
      values[Offset(n, row, col)] := value;
      contents := Write(contents, row, col, value);
      forall i, j | 0 <= i < n && 0 <= j < n
        ensures Offset(n, i, j) < values.Length && contents[i][j] == values[Offset(n, i, j)]
      {
        if Offset(n, i, j) == Offset(n, row, col) {
          OffsetInjective(n, i, j, row, col);
        }
      }
    }

    /** make_identity: fills a fresh n x n matrix row by row. */
    static method MakeIdentity(n: nat) returns (out: MatBuffer)
      requires n >= 1
      ensures fresh(out) && fresh(out.values) && out.Valid() && out.n == n
      ensures out.Value() == Identity(n)
    {
      out := new MatBuffer(n);
      ghost var z, t := out.Value(), Identity(n);
      for i := 0 to n
        invariant fresh(out) && fresh(out.values) && out.Valid() && out.n == n
        invariant out.Value() == FillRows(z, t, i, 0)
      {
        for j := 0 to n
          invariant fresh(out) && fresh(out.values) && out.Valid() && out.n == n
          invariant out.Value() == FillRows(z, t, i, j)
        {
          if i == j {
            out.Set(1.0, i, j);
          } else {
            out.Set(0.0, i, j);
          }
        }
      }
      FillRowsDone(z, t);
    }

    /** transpose: out(i, j) = get(j, i) for every cell. */
    method Transposed() returns (out: MatBuffer)
      requires Valid()
      ensures fresh(out) && fresh(out.values) && out.Valid() && out.n == n
      ensures out.Value() == Transpose(Value())
    {
      out := new MatBuffer(n);
      ghost var z, t := out.Value(), Transpose(Value());
      for i := 0 to n
        invariant fresh(out) && fresh(out.values) && out.Valid() && out.n == n
        invariant out.Value() == FillRows(z, t, i, 0)
      {
        for j := 0 to n
          invariant fresh(out) && fresh(out.values) && out.Valid() && out.n == n
          invariant out.Value() == FillRows(z, t, i, j)
        {
          out.Set(Get(j, i), i, j);
        }
      }
      FillRowsDone(z, t);
    }

    /**
     * The inner loop of sub for a kept source row i: copies every cell of row
     * i outside column col into row (hitRow ? i - 1 : i) of out, moving it
     * left once the removed column is passed.
     */
    method SubRow(out: MatBuffer, i: nat, hitRow: bool, ghost row: nat, col: nat, ghost z: Mat)
      requires Valid() && n >= 2 && row < n && col < n && i < n && i != row && (hitRow <==> row < i)
      requires out.Valid() && out.n == n - 1 && out.values != values && |z| == n - 1
      requires out.Value() == SubFill(Value(), row, col, z, i, 0)
      modifies out, out.values
      ensures out.values == old(out.values) && out.Valid()
      ensures out.Value() == SubFill(Value(), row, col, z, i + 1, 0)
    {
      var hitCol := false;
      for j := 0 to n
        invariant out.Valid() && out.values == old(out.values)
        invariant hitCol <==> col < j
        invariant out.Value() == SubFill(Value(), row, col, z, i, j)
      {
        if j == col {
          hitCol := true;
          continue;
        }
        out.Set(Get(i, j), if hitRow then i - 1 else i, if hitCol then j - 1 else j);
      }
    }

    /**
     * sub: copies every cell outside row `row` and column `col`, moving it
     * up once the removed row is passed and left once the removed column is.
     */
    method Sub(row: nat, col: nat) returns (out: MatBuffer)
      requires Valid() && n >= 2 && row < n && col < n
      ensures fresh(out) && fresh(out.values) && out.Valid() && out.n == n - 1
      ensures out.Value() == Submatrix(Value(), row, col)
    {
      out := new MatBuffer(n - 1);
      ghost var z := out.Value();
      var hitRow := false;
      for i := 0 to n
        invariant fresh(out) && fresh(out.values) && out.Valid() && out.n == n - 1
        invariant hitRow <==> row < i
        invariant out.Value() == SubFill(Value(), row, col, z, i, 0)
      {
        if i == row {
          hitRow := true;
          SubFillSkipsRow(Value(), row, col, z, n);
          continue;
        }
        SubRow(out, i, hitRow, row, col, z);
      }
      SubFillDone(Value(), row, col, z);
    }

    /** minor: the entry for 1 x 1, the entry (row, col) itself for 2 x 2, else the determinant of sub. */
    method Minor(row: nat, col: nat) returns (r: real)
      requires Valid() && row < n && col < n
      ensures r == Matrices.Minor(Value(), row, col)
      decreases n, 0
    {
      if n == 1 {
        r := Get(0, 0);
      } else if n == 2 {
        r := Get(row, col);
      } else {
        var s := Sub(row, col);
        r := s.Determinant();
      }
    }

    /** cofactor: the minor, negated when row + col is odd. */
    method Cofactor(row: nat, col: nat) returns (r: real)
      requires Valid() && row < n && col < n
      ensures r == Matrices.Cofactor(Value(), row, col)
      decreases n, 1
    {
      r := Minor(row, col);
      r := r * if (row + col) % 2 == 0 then 1.0 else -1.0;
    }

    /** determinant: closed forms for 1 x 1 and 2 x 2, else the first-row expansion accumulated in a loop. */
    method Determinant() returns (d: real)
      requires Valid()
      ensures d == Det(Value())
      decreases n, 2
    {
      if n == 1 {
        d := Get(0, 0);
      } else if n == 2 {
        var a := Get(0, 0);
        var b := Get(1, 1);
        var c := Get(1, 0);
        var e := Get(0, 1);
        d := a * b - c * e;
      } else {
        ghost var m := Value();
        d := 0.0;
        for i := 0 to n
          invariant d == ExpansionSum(m, i)
        {
          var e := Get(0, i);
          var c := Cofactor(0, i);
          ExpansionStep(m, i);
          d := d + e * c;
        }
        DetExpansion(m);
      }
    }

    /** invertible: the determinant is not exactly zero. */
    method IsInvertible() returns (r: bool)
      requires Valid()
      ensures r == Invertible(Value())
    {
      var d := Determinant();
      r := d != 0.0;
    }

    /**
     * inverse: the identity when not invertible; otherwise out(j, i) is
     * cofactor(i, j) divided by the determinant, filled column by column.
     */
    method Inverse() returns (out: MatBuffer)
      requires Valid()
      ensures fresh(out) && fresh(out.values) && out.Valid() && out.n == n
      ensures out.Value() == InverseOf(Value())
    {
      ghost var m := Value();
      var ok := IsInvertible();
      if !ok {
        out := MakeIdentity(n);
        return;
      }
      out := new MatBuffer(n);
      ghost var z, t := out.Value(), InverseOf(m);
      var det := Determinant();
      for i := 0 to n
        invariant fresh(out) && fresh(out.values) && out.Valid() && out.n == n
        invariant out.Value() == FillCols(z, t, i, 0)
      {
        for j := 0 to n
          invariant fresh(out) && fresh(out.values) && out.Valid() && out.n == n
          invariant out.Value() == FillCols(z, t, i, j)
        {
          var c := Cofactor(i, j);
          out.Set(c / det, j, i);
        }
      }
      FillColsDone(z, t);
    }

    /** One cell of operator* on matrices: the sum of get(row, k) * other.get(k, col), accumulated in order of k from zero. */
    method ProductCell(other: MatBuffer, row: nat, col: nat) returns (acc: real)
      requires Valid() && other.Valid() && other.n == n && row < n && col < n
      ensures acc == Product(Value(), other.Value())[row][col]
    {
      acc := 0.0;
      for k := 0 to n
        invariant acc == Inner(Value(), other.Value(), row, col, k)
      {
        acc := acc + Get(row, k) * other.Get(k, col);
      }
    }

    /** operator* on matrices: out(i, j) receives the product cell (i, j), filled row by row. */
    method Multiply(other: MatBuffer) returns (out: MatBuffer)
      requires Valid() && other.Valid() && other.n == n
      ensures fresh(out) && fresh(out.values) && out.Valid() && out.n == n
      ensures out.Value() == Product(Value(), other.Value())
    {
      out := new MatBuffer(n);
      ghost var z, t := out.Value(), Product(Value(), other.Value());
      for i := 0 to n
        invariant fresh(out) && fresh(out.values) && out.Valid() && out.n == n
        invariant out.Value() == FillRows(z, t, i, 0)
      {
        for j := 0 to n
          invariant fresh(out) && fresh(out.values) && out.Valid() && out.n == n
          invariant out.Value() == FillRows(z, t, i, j)
        {
          var c := ProductCell(other, i, j);
          out.Set(c, i, j);
        }
      }
      FillRowsDone(z, t);
    }

    /** operator*=: the receiver becomes receiver * other. */
    method MulAssign(other: MatBuffer)
      requires Valid() && other.Valid() && other.n == n
      modifies this
      ensures Valid() && fresh(values)
      ensures Value() == Product(old(Value()), old(other.Value()))
    {
      var p := Multiply(other);
      values, contents := p.values, p.contents;
    }

    /** operator* with a vec: each row dotted with all four components. */
    function Apply(v: Vec): (r: Vec)
      requires Valid() && n == 4
      reads this, values
      ensures r == MatVec(Value(), v)
    {
      Vec(Get(0, 0) * v.x + Get(0, 1) * v.y + Get(0, 2) * v.z + Get(0, 3) * v.w,
          Get(1, 0) * v.x + Get(1, 1) * v.y + Get(1, 2) * v.z + Get(1, 3) * v.w,
          Get(2, 0) * v.x + Get(2, 1) * v.y + Get(2, 2) * v.z + Get(2, 3) * v.w,
          Get(3, 0) * v.x + Get(3, 1) * v.y + Get(3, 2) * v.z + Get(3, 3) * v.w)
    }

    /** operator==: float_eq on every cell of the flat buffer, stopping at the first mismatch. */
    method Equals(other: MatBuffer) returns (r: bool)
      requires Valid() && other.Valid() && other.n == n
      ensures r == ApproxEqual(Value(), other.Value())
    {
      assert Stores(n, Value(), values[..]) && Stores(n, other.Value(), other.values[..]);
      ApproxEqualFlat(n, Value(), other.Value(), values[..], other.values[..]);
      for t := 0 to Cells(n)
        invariant forall u :: 0 <= u < t ==> NearlyEq(values[u], other.values[u])
      {
        if !NearlyEq(values[t], other.values[t]) {
          return false;
        }
      }
      return true;
    }
  }
}
