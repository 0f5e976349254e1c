# ocl-algebra, modelled in Dafny

ocl-algebra multiplies dense matrices on an OpenCL device. It works out a
matrix times a scalar, or a matrix times a matrix. `new` scans every device
of every platform and picks the one with the most compute units. If no
device reports more than 0, there is no context. Each operation on a
`Context` does the same steps:

1. set the program queue's work dimensions;
2. copy each input matrix into a device buffer sized by those dimensions;
3. allocate a result buffer;
4. run one of two fixed kernels over the grid;
5. read the result back into a new `Matrix`.

The model has four modules:

- `Kernel` (kernel.dfy): the two kernels, each run as a sequential loop over
  its work-item grid that fills an `array<real>`. Also the index arithmetic
  the matrix kernel uses. Reads of A and B are row-major,
  `row*A_cols+k` and `k*B_cols+col`; every such read is in bounds. The write
  goes to `col*A_rows+row`, which is column-major. That map is a bijection
  from the grid onto the output buffer, so no two work items write the same
  slot and every slot is written once. This is why the parallel dispatch can
  be modelled as a loop.
- `Matrices` (matrix.dfy): the `Matrix` value with its invariant
  `|data| == rows*cols`, a textbook product (row of A times column of B),
  and the two results as pure functions. The lemmas tie the kernel's output
  to the textbook product: the result of `mul_matrix_matrix` stores element
  (r, c) at `c*rows + r`. Read row by row as a `b.cols x a.rows` matrix, its
  data is the transpose of the product. It agrees with the row-major reading
  only when the result is a single column (or a single row).
- `DeviceSelection` (device.dfy): the device scan of `new` as a nested loop
  with the two accumulators `compute_units` and `ocl_device`, proved equal
  to a pure running argmax `Scan`. The lemmas about `Scan` prove three
  things. Its count is the maximum over all devices. The device it keeps is
  the first one with that count, because the comparison is strict. Its
  count is 0 exactly when no device has a positive count.
- `Algebra` (context.dfy): `new` and the class `Context`. The class's
  fields are the selected device, its compute-unit count and the program
  queue's work dimensions (`set_dims`). A ghost log records every kernel
  enqueued, with its grid, buffer sizes and scalar arguments. Both
  operations are methods proved to return the pure results of `Matrices`.

The model treats the OpenCL runtime as given input. A host is a
`seq<seq<nat>>` of compute-unit counts, one inner sequence per platform.
A device buffer filled from host memory is a fresh array holding a copy of
the data. Reading a buffer back is taking its contents as a sequence. Matrix
elements are `real`, not `f32`.

`rows` and `cols` are `usize` and may be 0, so the model allows 0. The code
never checks `a.cols == b.rows`, so it is a precondition of
`Context.MulMatrixMatrix`.

## Model

| member | source | states |
|---|---|---|
| `Kernel.RowMajorOffset` | src/kernel.rs:31-32 | for `r < rows` and `c < cols`, the read offset `r*cols + c` lies below `rows*cols`, so both reads of the matrix kernel are in bounds |
| `Kernel.ColumnMajorOffset` | src/kernel.rs:37 | for `row < A_rows` and `col < B_cols`, the write offset `col*A_rows + row` lies in `[0, A_rows*B_cols)` |
| `Kernel.ColumnMajorInjective` | src/kernel.rs:37 | two grid points with the same write offset are the same work item |
| `Kernel.ColumnMajorOnto` | src/kernel.rs:37 | every offset `o` below `A_rows*B_cols` is written by work item `(o % A_rows, o / A_rows)`, which lies on the grid |
| `Kernel.OtherSlotsDiffer` | src/kernel.rs:37 | the slot of work item (row, col) differs from the slot of every other work item of the grid |
| `Kernel.LayoutsAgreeIff` | src/kernel.rs:37 | the column-major write offset equals the row-major offset `row*B_cols + col` on the whole grid if and only if `A_rows <= 1` or `B_cols <= 1` |
| `Kernel.ProductLayout` | src/kernel.rs:21-37 | the output buffer of the matrix kernel has `A_rows*B_cols` slots |
| `Kernel.ProductLayoutAt` | src/kernel.rs:21-37 | slot `col*A_rows + row` of the output holds the dot product of row `row` of A and column `col` of B |
| `Kernel.LayoutFromSlots` | src/kernel.rs:21-37 | a buffer holding every work item's value at its slot is the whole output: no slot is left unwritten |
| `Kernel.MulMatrixScalar` | src/kernel.rs:3-10 | for every idx in `[0, N)`, `res[idx] == src[idx] * coeff`; the slots of res from N on are unchanged; src is unchanged when it is a different buffer |
| `Kernel.MatrixWorkItem` | src/kernel.rs:21-34 | the loop over k accumulates the sum over `k < A_cols` of `A[row*A_cols+k] * B[k*B_cols+col]`, reading only in bounds |
| `Kernel.MulMatrixMatrix` | src/kernel.rs:12-39 | after the dispatch over the grid `(A_rows, B_cols)`, `C[col*A_rows+row]` holds work item (row, col)'s dot product, for every grid point, and C is exactly the product layout |
| `Matrices.Matrix.Valid` | src/lib.rs:15-19 | the shape invariant of a `Matrix`: `data` holds exactly `rows*cols` values |
| `Matrices.Matrix.At` | src/lib.rs:15-19 | element (r, c) of a valid matrix is `data[r*cols + c]`, the row-major reading the kernels use for their inputs |
| `Matrices.RowMajorReading` | src/lib.rs:15-19 | every offset i of a valid matrix's data is element `(i / cols, i % cols)`, which lies inside the shape, so the row-major reading leaves no value out |
| `Matrices.Scaled` | src/lib.rs:22-53 | the scalar result has the input's rows and cols and `rows*cols` values |
| `Matrices.Product` | src/lib.rs:78-101 | the matrix result has rows `a.rows`, cols `b.cols` and `a.rows*b.cols` values |
| `Matrices.ScaledAt` | src/kernel.rs:9 | element (r, c) of the scaled matrix is element (r, c) of the input times the scalar |
| `Matrices.ScaledByOne` | src/kernel.rs:9 | scaling by 1 returns the matrix unchanged |
| `Kernel.Dot` | src/kernel.rs:28-34 | the value of work item (row, col) after n turns of its loop: the sum over `k < n` of `A[row*A_cols+k] * B[k*B_cols+col]`, accumulated in loop order |
| `Matrices.DotIsInner` | src/kernel.rs:28-34 | after n turns of the kernel's loop, the value is the inner product of the first n elements of row r of A and column c of B |
| `Matrices.ProductColumnMajor` | src/kernel.rs:21-37 | the product's data holds element (r, c) of the mathematical product `a x b` at offset `c*a.rows + r` |
| `Matrices.ProductIsTransposed` | src/kernel.rs:37 | the product's data, read row-major as a `b.cols x a.rows` matrix, is the transpose of `a x b` |
| `Matrices.VectorProductRowMajor` | src/kernel.rs:37 | when `b.cols == 1`, the row-major reading of the result is the mathematical product |
| `Matrices.MatrixVectorExample` | src/lib.rs:142-150 | `[[1,2],[3,4]] x [[4],[5]]` has data `[14, 32]` |
| `Matrices.ScalarExample` | src/lib.rs:152-159 | `[1,2,3,4] x 1.5` has data `[1.5, 3, 4.5, 6]` |
| `Matrices.ProductOfColumnAndRow` | src/kernel.rs:21-37 | for a single-column a and a single-row b, slot `c*a.rows + r` of the product holds `a.data[r] * b.data[c]` |
| `Matrices.ColumnMajorExample` | src/kernel.rs:37 | `[[1],[2],[3]] x [[10,20]]` (a 3 x 2 result) has data `[10, 20, 30, 20, 40, 60]`, its columns one after the other |
| `DeviceSelection.Consider` | src/lib.rs:118-121 | one device visited: the count never drops and is at least the device's; the running best is kept unless the device has strictly more units, and then the device and its count replace it |
| `DeviceSelection.ScanPlatform` | src/lib.rs:114-122 | the inner loop over a platform's devices: the count never drops and covers every device of the platform; the result is the incoming best or a device of this platform whose count beats it and is the result's count |
| `DeviceSelection.Scan` | src/lib.rs:111-123 | the outer loop over all platforms: no device is chosen exactly when the count is 0, and a chosen device is a device of the host with exactly that count |
| `DeviceSelection.ConsiderStep` | src/lib.rs:118-121 | one device visited with the strict `>` update keeps the running best summarising every device visited so far |
| `DeviceSelection.ScanPlatformSummarizes` | src/lib.rs:114-122 | after the inner loop over a platform's devices, the running best summarises every device enumerated so far |
| `DeviceSelection.ScanSummarizes` | src/lib.rs:111-123 | after the loop over the first p platforms, the running best summarises every device of those platforms |
| `DeviceSelection.ScanAll` | src/lib.rs:108-123 | the scan's result summarises every device of every platform |
| `DeviceSelection.BestIsMaximum` | src/lib.rs:111-123 | no device has more compute units than the result; when the count is positive a device was chosen, and it has exactly that count |
| `DeviceSelection.BestIsEarliest` | src/lib.rs:118-121 | every device enumerated before the chosen one has strictly fewer compute units, so ties go to the earliest device |
| `DeviceSelection.NoDeviceIffAllZero` | src/lib.rs:108-127 | the count is 0 if and only if every device reports 0 (including no platforms or no devices), and only then is no device chosen |
| `DeviceSelection.SelectDevice` | src/lib.rs:108-123 | the nested loop with accumulators `compute_units` and `ocl_device` ends with the scan's result |
| `Algebra.ToI32` | src/lib.rs:89-91 | the `as i32` cast gives a value in the `i32` range, congruent to the input mod 2^32, and the input itself when it is below 2^31 |
| `Algebra.CopyToDevice` | src/lib.rs:29-33 | a buffer created from host data holds a copy of that data |
| `Algebra.Context.constructor` | src/lib.rs:128-135 | a new context holds the chosen device and its compute-unit count, with no work dimensions and nothing enqueued |
| `Algebra.Context.MulMatrixScalar` | src/lib.rs:22-53 | the work dimensions become `[rows*cols]`; one scalar kernel is enqueued on that grid with a source buffer and a result buffer of `rows*cols` elements and with the scalar as its `coeff` argument; the result is `Scaled(matrix, scalar)`, with the input's shape; the compute units and device stay the same |
| `Algebra.Context.MulMatrixMatrix` | src/lib.rs:55-102 | the work dimensions end as `[a.rows, b.cols]`; one matrix kernel is enqueued on grid `(a.rows, b.cols)` with input buffers of `a.rows*a.cols` and `b.rows*b.cols` elements and an output of `a.rows*b.cols`, and with integer arguments `a.rows, a.cols, b.cols`; the result is `Product(a, b)`, of shape `(a.rows, b.cols)` in column-major order |
| `Algebra.New` | src/lib.rs:105-136 | no context exactly when no device has a positive count; otherwise a fresh context whose count is positive and the maximum over all devices, bound to a device that has that count and that every earlier device has fewer units than; the `unwrap` of `ocl_device` cannot fail |
| `Algebra.SingleTest` | src/lib.rs:138-160 | two successive operations on one context give `[14, 32]` and `[1.5, 3, 4.5, 6]`, each from its own inputs only; the log gains exactly the matrix kernel on grid `(2, 1)` with buffers of 4 and 2 elements, an output of 2 and arguments `2, 2, 1`, then the scalar kernel on grid `(4)` with buffers of 4 and 4 elements and `coeff` 1.5 |

## Left out

- The OpenCL runtime is not modelled: `Platform::list`, `Device::list_all`, `get_device_info`, `ProQue::builder().build()`, `Buffer::new`, `create_buffer`, `create_kernel`, `enq` and `read`. These are foreign calls. The host's compute-unit counts are a parameter, a buffer is an array copy, and a read-back is the array's contents.
- Parsing the device-info string (`to_string().parse().unwrap()`) is not modelled; the count is taken as a natural number. The `u32` width of `compute_units` is not modelled either.
- Floating point is not modelled. Elements are `real`, so `f32` rounding and the `1e-6` tolerances of the test do not appear; the worked examples hold exactly.
- Work items run one after another in the model, not in parallel. The injectivity and onto lemmas show their writes are disjoint; command-queue concurrency is not modelled.
- Panics from `unwrap`/`expect` on device or driver errors are not modelled, and neither is kernel build failure. The one `unwrap` that depends on the model, `ocl_device.unwrap()` in `new`, is proved never to fail.
- Kernel.MulMatrixMatrix, Kernel.MatrixWorkItem and Algebra.Context.MulMatrixMatrix require `IndexFits`: the three dimensions are below 2^31 and the three element counts are at most 2^31. Beyond that the `as i32` casts and the kernel's 32-bit `int` offsets wrap, and the source reads and writes out of bounds. That undefined behaviour is not modelled.
- Kernel.MulMatrixScalar and Algebra.Context.MulMatrixScalar require at most 2^32 work items. Beyond that the kernel's `uint` global id wraps; this is not modelled.
- Kernel.MulMatrixMatrix runs over exactly the grid `(A_rows, B_cols)`, the only grid its caller uses. A dispatch over any other grid is not modelled.
- Kernel.MulMatrixMatrix requires the output buffer to differ from both inputs, as every buffer the host allocates does. Aliased buffers are not modelled.
- Algebra.Context.MulMatrixScalar and Algebra.Context.MulMatrixMatrix return a result for empty inputs where the source panics. When `rows*cols == 0` (scalar), or `a.rows*a.cols`, `b.rows*b.cols` or `a.rows*b.cols` is 0 (matrix), the source asks OpenCL for a zero-length buffer (src/lib.rs:29-37, 62-82). OpenCL refuses one (`CL_INVALID_BUFFER_SIZE`), and the `unwrap` panics. The OpenCL API is not modelled, so the model returns a result instead: an empty matrix when the output has no elements, and an all-zero product when the output has elements but `a.cols == 0`.
- The matrix shape invariant `|data| == rows*cols` and `a.cols == b.rows` are preconditions, because the source checks neither.
- examples/simple.rs is a demo that only prints a product; it is not part of this model.
