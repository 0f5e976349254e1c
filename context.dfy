/** The host side of the crate: the `Context` built by `new`, and its two
    operations, which size the device buffers, copy the inputs over, run a
    kernel over a grid and read the output back. */
module Algebra {
  import opened DeviceSelection
  import opened Matrices
  import Kernel

  /** Rust's `n as i32` on a `usize`: keep the low 32 bits, two's complement. */
  function ToI32(n: nat): (r: int)
    ensures -(Kernel.INT_RANGE as int) <= r < Kernel.INT_RANGE
    ensures n < Kernel.INT_RANGE ==> r == n
    ensures r % Kernel.UINT_RANGE == n % Kernel.UINT_RANGE
  {
    var low := n % Kernel.UINT_RANGE;
    if low < Kernel.INT_RANGE then low else low - Kernel.UINT_RANGE
  }

  /** Number of work items (and of buffer elements) of a set of work
      dimensions. */
  function ElementCount(dims: seq<nat>): nat {
    if |dims| == 0 then 1 else dims[0] * ElementCount(dims[1..])
  }

  lemma ElementCountOne(n: nat)
    ensures ElementCount([n]) == n
  {
    assert [n][1..] == [];
  }

  lemma ElementCountTwo(rows: nat, cols: nat)
    ensures ElementCount([rows, cols]) == rows * cols
  {
    assert [rows, cols][1..] == [cols];
    ElementCountOne(cols);
  }

  datatype KernelName = MulMatrixScalarKernel | MulMatrixMatrixKernel

  /** One kernel enqueued on the command queue: its grid, the sizes of the
      buffers it reads and writes, and its scalar arguments, integer and
      floating-point, in argument order. */
  datatype Launch = Launch(kernel: KernelName, grid: seq<nat>, inputSizes: seq<nat>,
                           outputSize: nat, intArgs: seq<int>, floatArgs: seq<real>)

  /** Buffers filled from host data, as `Buffer::new` with
      `MEM_COPY_HOST_PTR` makes them: one element per work item of `dims`. */
  method CopyToDevice(dims: seq<nat>, data: seq<real>) returns (buffer: array<real>)
    requires |data| == ElementCount(dims)
    ensures fresh(buffer) && buffer[..] == data
  {
    buffer := new real[ElementCount(dims)](i requires 0 <= i < |data| => data[i]);
  }

  class Context {
    /** `compute_units`: the count of the selected device. */
    var computeUnits: nat
    /** The device the program queue was built for. */
    var device: DeviceId
    /** The work dimensions of the program queue, set by `set_dims`; empty
        until the first operation. */
    var dims: seq<nat>
    /** Every kernel enqueued so far, in submission order. */
    ghost var launches: seq<Launch>

    constructor (device: DeviceId, computeUnits: nat)
      ensures this.device == device && this.computeUnits == computeUnits
      ensures dims == [] && launches == []
    {
      this.device := device;
      this.computeUnits := computeUnits;
      dims := [];
      launches := [];
    }

    /** `mul_matrix_scalar`: a one-dimensional grid of rows*cols work items,
        a source buffer holding the matrix and a result buffer of the same
        size; the result has the input's shape. */
    method MulMatrixScalar(matrix: Matrix, scalar: real) returns (result: Matrix)
      requires matrix.Valid() && matrix.rows * matrix.cols <= Kernel.UINT_RANGE
      modifies this
      ensures computeUnits == old(computeUnits) && device == old(device)
      ensures dims == [matrix.rows * matrix.cols]
      ensures launches == old(launches) + [Launch(MulMatrixScalarKernel, [matrix.rows * matrix.cols],
                                                  [matrix.rows * matrix.cols], matrix.rows * matrix.cols, [], [scalar])]
      ensures result == Scaled(matrix, scalar)
      ensures result.rows == matrix.rows && result.cols == matrix.cols
      ensures |result.data| == matrix.rows * matrix.cols
    {
      dims := [matrix.rows * matrix.cols];
      ElementCountOne(matrix.rows * matrix.cols);
      var sourceBuffer := CopyToDevice(dims, matrix.data);
      var data: seq<real> := seq(matrix.cols * matrix.rows, _ => 0.0);
      var resultBuffer := new real[ElementCount(dims)];
      Kernel.MulMatrixScalar(dims[0], scalar, sourceBuffer, resultBuffer);
      launches := launches + [Launch(MulMatrixScalarKernel, dims, [sourceBuffer.Length], resultBuffer.Length, [], [scalar])];
      assert |data| == resultBuffer.Length;
      data := resultBuffer[..];
      result := Matrix(matrix.rows, matrix.cols, data);
      forall i | 0 <= i < |data|
        ensures data[i] == Scaled(matrix, scalar).data[i]
      {
        assert data[i] == resultBuffer[i];
      }
      assert result.data == Scaled(matrix, scalar).data;
    }

    /** `mul_matrix_matrix`: each input buffer sized by its own matrix, a
        result buffer and a grid of (a.rows, b.cols), and the three
        dimensions passed to the kernel as `i32`. The result has shape
        (a.rows, b.cols) and its data in column-major order. */
    method MulMatrixMatrix(matrixA: Matrix, matrixB: Matrix) returns (result: Matrix)
      requires matrixA.Valid() && matrixB.Valid()
      requires matrixA.cols == matrixB.rows
      requires Kernel.IndexFits(matrixA.rows, matrixA.cols, matrixB.cols)
      modifies this
      ensures computeUnits == old(computeUnits) && device == old(device)
      ensures dims == [matrixA.rows, matrixB.cols]
      ensures launches == old(launches) + [Launch(MulMatrixMatrixKernel, [matrixA.rows, matrixB.cols],
                                                  [matrixA.rows * matrixA.cols, matrixB.rows * matrixB.cols],
                                                  matrixA.rows * matrixB.cols,
                                                  [matrixA.rows, matrixA.cols, matrixB.cols], [])]
      ensures result == Product(matrixA, matrixB)
      ensures result.rows == matrixA.rows && result.cols == matrixB.cols
      ensures |result.data| == matrixA.rows * matrixB.cols
    {
      dims := [matrixA.rows, matrixA.cols];
      ElementCountTwo(matrixA.rows, matrixA.cols);
      var matrixABuffer := CopyToDevice(dims, matrixA.data);

      dims := [matrixB.rows, matrixB.cols];
      ElementCountTwo(matrixB.rows, matrixB.cols);
      var matrixBBuffer := CopyToDevice(dims, matrixB.data);

      dims := [matrixA.rows, matrixB.cols];
      ElementCountTwo(matrixA.rows, matrixB.cols);
      var data: seq<real> := seq(matrixA.rows * matrixB.cols, _ => 0.0);
      var resultBuffer := new real[ElementCount(dims)];

      var aRows, aCols, bCols := ToI32(matrixA.rows), ToI32(matrixA.cols), ToI32(matrixB.cols);
      Kernel.MulMatrixMatrix(matrixABuffer, matrixBBuffer, resultBuffer, aRows, aCols, bCols);
      launches := launches + [Launch(MulMatrixMatrixKernel, dims, [matrixABuffer.Length, matrixBBuffer.Length],
                                     resultBuffer.Length, [aRows, aCols, bCols], [])];
      assert |data| == resultBuffer.Length;
      data := resultBuffer[..];
      result := Matrix(matrixA.rows, matrixB.cols, data);
    }
  }

  /** `new`: select the device with the most compute units; with none above
      0 there is no context, otherwise a context bound to that device. */
  method New(host: seq<seq<nat>>) returns (context: Option<Context>)
    ensures context.None? <==> forall p, d | 0 <= p < |host| && 0 <= d < |host[p]| :: host[p][d] == 0
    ensures context.Some? ==>
              var ctx := context.value;
              fresh(ctx) && ctx.dims == [] && ctx.launches == [] &&
              ctx.computeUnits > 0 && IsDevice(host, ctx.device) &&
              host[ctx.device.platform][ctx.device.device] == ctx.computeUnits &&
              (forall p, d | 0 <= p < |host| && 0 <= d < |host[p]| :: host[p][d] <= ctx.computeUnits) &&
              (forall p, d | 0 <= p < |host| && 0 <= d < |host[p]| &&
                             Before(p, d, ctx.device.platform, ctx.device.device) ::
                 host[p][d] < ctx.computeUnits)
  {
    var best := SelectDevice(host);
    BestIsMaximum(host);
    BestIsEarliest(host);
    NoDeviceIffAllZero(host);
    if best.units == 0 {
      return None;
    }
    var ctx := new Context(best.device.value, best.units);
    context := Some(ctx);
  }

  /** The crate's `single_test`: a matrix-vector product and then a scalar
      product on the same context, each giving the expected data. */
  method SingleTest(ctx: Context) returns (product: Matrix, scaled: Matrix)
    modifies ctx
    ensures product.rows == 2 && product.cols == 1 && product.data == [14.0, 32.0]
    ensures scaled.rows == 2 && scaled.cols == 2 && scaled.data == [1.5, 3.0, 4.5, 6.0]
    ensures ctx.launches == old(ctx.launches) +
              [Launch(MulMatrixMatrixKernel, [2, 1], [4, 2], 2, [2, 2, 1], []),
               Launch(MulMatrixScalarKernel, [4], [4], 4, [], [1.5])]
  {
    var m0 := Matrix(2, 2, [1.0, 2.0, 3.0, 4.0]);
    var m1 := Matrix(2, 1, [4.0, 5.0]);
    product := ctx.MulMatrixMatrix(m0, m1);
    MatrixVectorExample();
    scaled := ctx.MulMatrixScalar(m0, 1.5);
    ScalarExample();
  }
}
