/** The crate's `Matrix` value and what the two operations compute on it:
    a reference (textbook) matrix product, and the results the kernels
    produce, related to it. */
module Matrices {
  import Kernel

  /** A rows x cols matrix; inputs are stored row by row in `data`. */
  datatype Matrix = Matrix(rows: nat, cols: nat, data: seq<real>) {

    /** The shape invariant every caller must keep: one value per element. */
    predicate Valid() {
      |data| == rows * cols
    }

    /** Element (r, c) under the row-major reading of `data`. */
    function At(r: nat, c: nat): real
      requires Valid() && r < rows && c < cols
    {
      data[Kernel.RowMajorOffset(r, c, rows, cols)]
    }

    /** Row r, left to right. */
    function Row(r: nat): (v: seq<real>)
      requires Valid() && r < rows
      ensures |v| == cols
      ensures forall k | 0 <= k < cols :: v[k] == At(r, k)
    {
      seq(cols, k requires 0 <= k < cols => At(r, k))
    }

    /** Column c, top to bottom. */
    function Column(c: nat): (v: seq<real>)
      requires Valid() && c < cols
      ensures |v| == rows
      ensures forall k | 0 <= k < rows :: v[k] == At(k, c)
    {
      seq(rows, k requires 0 <= k < rows => At(k, c))
    }
  }

  /** Under the row-major reading every value of `data` is one element:
      offset i is element (i / cols, i % cols), which lies in the shape. */
  lemma RowMajorReading(m: Matrix, i: nat)
    requires m.Valid() && i < |m.data|
    ensures m.cols > 0 && i / m.cols < m.rows && i % m.cols < m.cols
    ensures m.At(i / m.cols, i % m.cols) == m.data[i]
  {
  }

  /** Inner product of two vectors of equal length, summed front to back. */
  function Inner(u: seq<real>, v: seq<real>): real
    requires |u| == |v|
  {
    if |u| == 0 then 0.0 else u[0] * v[0] + Inner(u[1..], v[1..])
  }

  /** Element (r, c) of the mathematical product a x b: row r of a times
      column c of b. */
  function Entry(a: Matrix, b: Matrix, r: nat, c: nat): real
    requires a.Valid() && b.Valid() && a.cols == b.rows
    requires r < a.rows && c < b.cols
  {
    Inner(a.Row(r), b.Column(c))
  }

  /** The matrix `mul_matrix_scalar` returns: same shape, every element
      scaled. */
  function Scaled(m: Matrix, s: real): (r: Matrix)
    requires m.Valid()
    ensures r.Valid() && r.rows == m.rows && r.cols == m.cols
  {
    Matrix(m.rows, m.cols, seq(|m.data|, i requires 0 <= i < |m.data| => m.data[i] * s))
  }

  /** The matrix `mul_matrix_matrix` returns: shape (a.rows, b.cols), data
      as the kernel leaves its output buffer. */
  function Product(a: Matrix, b: Matrix): (p: Matrix)
    requires a.Valid() && b.Valid() && a.cols == b.rows
    ensures p.Valid() && p.rows == a.rows && p.cols == b.cols
  {
    Matrix(a.rows, b.cols, Kernel.ProductLayout(a.data, b.data, a.rows, a.cols, b.cols))
  }

  /** Every element of the scaled matrix is the original element times s. */
  lemma ScaledAt(m: Matrix, s: real, r: nat, c: nat)
    requires m.Valid() && r < m.rows && c < m.cols
    ensures Scaled(m, s).At(r, c) == m.At(r, c) * s
  {
  }

  /** Scaling by 1 gives back the matrix itself. */
  lemma ScaledByOne(m: Matrix)
    requires m.Valid()
    ensures Scaled(m, 1.0) == m
  {
  }

  lemma {:induction false} InnerSnoc(u: seq<real>, v: seq<real>)
    requires |u| == |v| > 0
    ensures Inner(u, v) == Inner(u[..|u| - 1], v[..|v| - 1]) + u[|u| - 1] * v[|v| - 1]
  {
    if |u| > 1 {
      InnerSnoc(u[1..], v[1..]);
      assert u[1..][..|u| - 2] == u[..|u| - 1][1..];
      assert v[1..][..|v| - 2] == v[..|v| - 1][1..];
    }
  }

  /** The kernel's loop (summed back to front, over flat offsets) computes
      row r of a times column c of b, term by term. */
  lemma {:induction false} DotIsInner(a: Matrix, b: Matrix, r: nat, c: nat, n: nat)
    requires a.Valid() && b.Valid() && a.cols == b.rows
    requires r < a.rows && c < b.cols && n <= a.cols
    ensures Kernel.Dot(a.data, b.data, a.rows, a.cols, b.cols, r, c, n)
            == Inner(a.Row(r)[..n], b.Column(c)[..n])
  {
    if n > 0 {
      DotIsInner(a, b, r, c, n - 1);
      InnerSnoc(a.Row(r)[..n], b.Column(c)[..n]);
      assert a.Row(r)[..n][..n - 1] == a.Row(r)[..n - 1];
      assert b.Column(c)[..n][..n - 1] == b.Column(c)[..n - 1];
    }
  }

  /** The product's data holds element (r, c) of the mathematical product
      at flat offset c*rows + r: column-major. */
  lemma ProductColumnMajor(a: Matrix, b: Matrix, r: nat, c: nat)
    requires a.Valid() && b.Valid() && a.cols == b.rows
    requires r < a.rows && c < b.cols
    ensures Product(a, b).data[Kernel.ColumnMajorOffset(r, c, a.rows, b.cols)] == Entry(a, b, r, c)
  {
    Kernel.ProductLayoutAt(a.data, b.data, a.rows, a.cols, b.cols, r, c);
    DotIsInner(a, b, r, c, a.cols);
    assert a.Row(r)[..a.cols] == a.Row(r);
    assert b.Column(c)[..a.cols] == b.Column(c);
  }

  /** Read row by row with the shape swapped to (b.cols, a.rows), the
      product's data is the transpose of the mathematical product. */
  lemma ProductIsTransposed(a: Matrix, b: Matrix, r: nat, c: nat)
    requires a.Valid() && b.Valid() && a.cols == b.rows
    requires r < a.rows && c < b.cols
    ensures Matrix(b.cols, a.rows, Product(a, b).data).Valid()
    ensures Matrix(b.cols, a.rows, Product(a, b).data).At(c, r) == Entry(a, b, r, c)
  {
    ProductColumnMajor(a, b, r, c);
  }

  /** When b is a column vector, the declared (a.rows, 1) row-major reading
      of the product is the mathematical product. */
  lemma VectorProductRowMajor(a: Matrix, b: Matrix, r: nat)
    requires a.Valid() && b.Valid() && a.cols == b.rows
    requires b.cols == 1 && r < a.rows
    ensures Product(a, b).At(r, 0) == Entry(a, b, r, 0)
  {
    ProductColumnMajor(a, b, r, 0);
  }

  /** [[1, 2], [3, 4]] x [[4], [5]] == [[14], [32]]. */
  lemma MatrixVectorExample()
    ensures Product(Matrix(2, 2, [1.0, 2.0, 3.0, 4.0]), Matrix(2, 1, [4.0, 5.0])).data == [14.0, 32.0]
  {
  }

  /** [1, 2, 3, 4] x 1.5 == [1.5, 3, 4.5, 6]. */
  lemma ScalarExample()
    ensures Scaled(Matrix(2, 2, [1.0, 2.0, 3.0, 4.0]), 1.5).data == [1.5, 3.0, 4.5, 6.0]
  {
  }

  /** With a single column in a and a single row in b, element (r, c) of
      the product is a's r-th value times b's c-th value. */
  lemma ProductOfColumnAndRow(a: Matrix, b: Matrix, r: nat, c: nat)
    requires a.Valid() && b.Valid() && a.cols == 1 && b.rows == 1
    requires r < a.rows && c < b.cols
    ensures Product(a, b).data[Kernel.ColumnMajorOffset(r, c, a.rows, b.cols)] == a.data[r] * b.data[c]
  {
    ProductColumnMajor(a, b, r, c);
    assert a.Row(r) == [a.data[r]];
    assert b.Column(c) == [b.data[c]];
    assert Inner([a.data[r]], [b.data[c]]) == a.data[r] * b.data[c] + Inner([], []);
  }

  /** A 3 x 2 result, [[1], [2], [3]] x [[10, 20]]: its data is the
      product's columns one after the other, not its rows. */
  lemma ColumnMajorExample(a: Matrix, b: Matrix)
    requires a == Matrix(3, 1, [1.0, 2.0, 3.0]) && b == Matrix(1, 2, [10.0, 20.0])
    ensures Product(a, b).data == [10.0, 20.0, 30.0, 20.0, 40.0, 60.0]
  {
    var d := Product(a, b).data;
    assert d[0] == 10.0 by { ProductOfColumnAndRow(a, b, 0, 0); }
    assert d[1] == 20.0 by { ProductOfColumnAndRow(a, b, 1, 0); }
    assert d[2] == 30.0 by { ProductOfColumnAndRow(a, b, 2, 0); }
    assert d[3] == 20.0 by { ProductOfColumnAndRow(a, b, 0, 1); }
    assert d[4] == 40.0 by { ProductOfColumnAndRow(a, b, 1, 1); }
    assert d[5] == 60.0 by { ProductOfColumnAndRow(a, b, 2, 1); }
  }
}
