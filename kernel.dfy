/** The two OpenCL kernels of the crate, `mul_matrix_scalar` and
    `mul_matrix_matrix`, with their index arithmetic. A dispatch over the
    work-item grid is modelled as a sequential loop over the grid; this is
    sound because distinct work items write distinct slots (see
    ColumnMajorInjective) and no work item reads a slot another one writes. */
module Kernel {

  /** Number of distinct values of the kernels' 32-bit `uint`. */
  const UINT_RANGE: nat := 0x1_0000_0000
  /** One past the largest value of the kernels' 32-bit `int`. */
  const INT_RANGE: nat := 0x8000_0000

  lemma MulLe(x: nat, y: nat, k: nat)
    requires x <= y
    ensures x * k <= y * k
  {
  }

  /** Offset of element (r, c) of a rows x cols matrix stored row by row:
      how the matrix kernel reads A and B. */
  function RowMajorOffset(r: nat, c: nat, rows: nat, cols: nat): (o: nat)
    requires r < rows && c < cols
    ensures o < rows * cols
  {
    MulLe(r + 1, rows, cols);
    r * cols + c
  }

  /** Offset of element (r, c) of a rows x cols matrix stored column by
      column: where the matrix kernel writes its result. */
  function ColumnMajorOffset(r: nat, c: nat, rows: nat, cols: nat): (o: nat)
    requires r < rows && c < cols
    ensures o < rows * cols
  {
    MulLe(c + 1, cols, rows);
    c * rows + r
  }

  /** Euclidean division recovers quotient and remainder. */
  lemma DivModOf(q: nat, r: nat, n: nat)
    requires r < n
    ensures (q * n + r) / n == q && (q * n + r) % n == r
  {
    var x := q * n + r;
    var q', r' := x / n, x % n;
    assert x == q' * n + r' && 0 <= r' < n;
    if q' > q {
      MulLe(q + 1, q', n);
      assert false;
    } else if q' < q {
      MulLe(q' + 1, q, n);
      assert false;
    }
  }

  /** No two work items of the grid write the same slot. */
  lemma ColumnMajorInjective(r1: nat, c1: nat, r2: nat, c2: nat, rows: nat, cols: nat)
    requires r1 < rows && c1 < cols && r2 < rows && c2 < cols
    requires ColumnMajorOffset(r1, c1, rows, cols) == ColumnMajorOffset(r2, c2, rows, cols)
    ensures r1 == r2 && c1 == c2
  {
    DivModOf(c1, r1, rows);
    DivModOf(c2, r2, rows);
  }

  /** Every slot of the rows x cols output is written by some work item,
      namely (o % rows, o / rows). */
  lemma ColumnMajorOnto(o: nat, rows: nat, cols: nat)
    requires o < rows * cols
    ensures rows > 0 && o % rows < rows && o / rows < cols
    ensures ColumnMajorOffset(o % rows, o / rows, rows, cols) == o
  {
  }

  /** The column-major write offset and the row-major offset agree on the
      whole grid exactly when the result is a single row or a single column. */
  lemma LayoutsAgreeIff(rows: nat, cols: nat)
    ensures (forall r: nat, c: nat | r < rows && c < cols ::
               ColumnMajorOffset(r, c, rows, cols) == RowMajorOffset(r, c, rows, cols))
            <==> (rows <= 1 || cols <= 1)
  {
    if rows >= 2 && cols >= 2 {
      assert ColumnMajorOffset(0, 1, rows, cols) != RowMajorOffset(0, 1, rows, cols);
    }
  }

  /** Both global offsets fit the kernels' 32-bit `int` arithmetic, and the
      host's `as i32` casts of the three dimensions do not wrap. */
  predicate IndexFits(aRows: nat, aCols: nat, bCols: nat) {
    aRows < INT_RANGE && aCols < INT_RANGE && bCols < INT_RANGE &&
    aRows * aCols <= INT_RANGE && aCols * bCols <= INT_RANGE && aRows * bCols <= INT_RANGE
  }

  /** Sum over k < n of A[row*A_cols+k] * B[k*B_cols+col]: the value of
      work item (row, col) after n turns of its loop. */
  function Dot(a: seq<real>, b: seq<real>, aRows: nat, aCols: nat, bCols: nat,
               row: nat, col: nat, n: nat): real
    requires |a| == aRows * aCols && |b| == aCols * bCols
    requires row < aRows && col < bCols && n <= aCols
  {
    if n == 0 then 0.0
    else Dot(a, b, aRows, aCols, bCols, row, col, n - 1)
         + a[RowMajorOffset(row, n - 1, aRows, aCols)] * b[RowMajorOffset(n - 1, col, aCols, bCols)]
  }

  /** The whole output buffer after the matrix kernel: slot o holds the value
      of the work item that writes it. */
  function ProductLayout(a: seq<real>, b: seq<real>, aRows: nat, aCols: nat, bCols: nat): (c: seq<real>)
    requires |a| == aRows * aCols && |b| == aCols * bCols
    ensures |c| == aRows * bCols
  {
    seq(aRows * bCols, o requires 0 <= o < aRows * bCols =>
      ColumnMajorOnto(o, aRows, bCols);
      Dot(a, b, aRows, aCols, bCols, o % aRows, o / aRows, aCols))
  }

  /** Work item (row, col)'s value sits at its column-major offset. */
  lemma ProductLayoutAt(a: seq<real>, b: seq<real>, aRows: nat, aCols: nat, bCols: nat, row: nat, col: nat)
    requires |a| == aRows * aCols && |b| == aCols * bCols
    requires row < aRows && col < bCols
    ensures ProductLayout(a, b, aRows, aCols, bCols)[ColumnMajorOffset(row, col, aRows, bCols)]
            == Dot(a, b, aRows, aCols, bCols, row, col, aCols)
  {
    DivModOf(col, row, aRows);
  }

  /** A buffer in which every work item's slot holds its value is the whole
      product layout: no slot is left over. */
  lemma LayoutFromSlots(cs: seq<real>, a: seq<real>, b: seq<real>, aRows: nat, aCols: nat, bCols: nat)
    requires |a| == aRows * aCols && |b| == aCols * bCols && |cs| == aRows * bCols
    requires forall r, c | 0 <= r < aRows && 0 <= c < bCols ::
               cs[ColumnMajorOffset(r, c, aRows, bCols)] == Dot(a, b, aRows, aCols, bCols, r, c, aCols)
    ensures cs == ProductLayout(a, b, aRows, aCols, bCols)
  {
    var layout := ProductLayout(a, b, aRows, aCols, bCols);
    forall o | 0 <= o < |cs|
      ensures cs[o] == layout[o]
    {
      ColumnMajorOnto(o, aRows, bCols);
      var row, col := o % aRows, o / aRows;
      assert cs[ColumnMajorOffset(row, col, aRows, bCols)] == Dot(a, b, aRows, aCols, bCols, row, col, aCols);
      ProductLayoutAt(a, b, aRows, aCols, bCols, row, col);
    }
  }

  /** `mul_matrix_scalar` over a grid of n work items: item idx writes
      res[idx] = src[idx] * coeff and touches nothing else. The buffers may
      even be the same one, since each item reads only its own slot. */
  method MulMatrixScalar(n: nat, coeff: real, src: array<real>, res: array<real>)
    requires n <= src.Length && n <= res.Length && n <= UINT_RANGE
    modifies res
    ensures forall i :: 0 <= i < n ==> res[i] == old(src[i]) * coeff
    ensures forall i :: n <= i < res.Length ==> res[i] == old(res[i])
    ensures src != res ==> src[..] == old(src[..])
  {
    for idx := 0 to n
      invariant forall i :: 0 <= i < idx ==> res[i] == old(src[i]) * coeff
      invariant forall i :: idx <= i < res.Length ==> res[i] == old(res[i])
      invariant forall i :: idx <= i < src.Length ==> src[i] == old(src[i])
    {
      res[idx] := src[idx] * coeff;
    }
  }

  /** Body of `mul_matrix_matrix` for work item (row, col), up to the store:
      the dot product of row `row` of A and column `col` of B, both read
      row-major, with every read in bounds. */
  method MatrixWorkItem(A: array<real>, B: array<real>, aRows: nat, aCols: nat, bCols: nat,
                        row: nat, col: nat) returns (value: real)
    requires A.Length == aRows * aCols && B.Length == aCols * bCols
    requires IndexFits(aRows, aCols, bCols)
    requires row < aRows && col < bCols
    ensures value == Dot(A[..], B[..], aRows, aCols, bCols, row, col, aCols)
  {
    value := 0.0;
    for k := 0 to aCols
      invariant value == Dot(A[..], B[..], aRows, aCols, bCols, row, col, k)
    {
      var elementA := A[RowMajorOffset(row, k, aRows, aCols)];
      var elementB := B[RowMajorOffset(k, col, aCols, bCols)];
      value := value + elementA * elementB;
    }
  }

  /** Writing work item (row, col)'s slot leaves every other work item's
      slot alone. */
  lemma OtherSlotsDiffer(row: nat, col: nat, rows: nat, cols: nat)
    requires row < rows && col < cols
    ensures forall r, c | 0 <= r < rows && 0 <= c < cols && (r != row || c != col) ::
              ColumnMajorOffset(r, c, rows, cols) != ColumnMajorOffset(row, col, rows, cols)
  {
    forall r, c | 0 <= r < rows && 0 <= c < cols && (r != row || c != col)
      ensures ColumnMajorOffset(r, c, rows, cols) != ColumnMajorOffset(row, col, rows, cols)
    {
      if ColumnMajorOffset(r, c, rows, cols) == ColumnMajorOffset(row, col, rows, cols) {
        ColumnMajorInjective(r, c, row, col, rows, cols);
      }
    }
  }

  /** `mul_matrix_matrix` dispatched over the grid (A_rows, B_cols): work
      item (row, col) stores its value at col*A_rows + row, so C ends up
      holding the product in column-major order. */
  method MulMatrixMatrix(A: array<real>, B: array<real>, C: array<real>, aRows: nat, aCols: nat, bCols: nat)
    requires A.Length == aRows * aCols && B.Length == aCols * bCols && C.Length == aRows * bCols
    requires C != A && C != B
    requires IndexFits(aRows, aCols, bCols)
    modifies C
    ensures forall r, c | 0 <= r < aRows && 0 <= c < bCols ::
              C[ColumnMajorOffset(r, c, aRows, bCols)] == Dot(A[..], B[..], aRows, aCols, bCols, r, c, aCols)
    ensures C[..] == ProductLayout(A[..], B[..], aRows, aCols, bCols)
  {
    ghost var a, b := A[..], B[..];
    for row := 0 to aRows
      invariant A[..] == a && B[..] == b
      invariant forall r, c | 0 <= r < row && 0 <= c < bCols ::
                  C[ColumnMajorOffset(r, c, aRows, bCols)] == Dot(a, b, aRows, aCols, bCols, r, c, aCols)
    {
      for col := 0 to bCols
        invariant A[..] == a && B[..] == b
        invariant forall r, c | 0 <= r < row && 0 <= c < bCols ::
                    C[ColumnMajorOffset(r, c, aRows, bCols)] == Dot(a, b, aRows, aCols, bCols, r, c, aCols)
        invariant forall c | 0 <= c < col ::
                    C[ColumnMajorOffset(row, c, aRows, bCols)] == Dot(a, b, aRows, aCols, bCols, row, c, aCols)
      {
        var value := MatrixWorkItem(A, B, aRows, aCols, bCols, row, col);
        OtherSlotsDiffer(row, col, aRows, bCols);
        C[ColumnMajorOffset(row, col, aRows, bCols)] := value;
      }
    }
    LayoutFromSlots(C[..], a, b, aRows, aCols, bCols);
  }
}
