# blasoxide kernels in Dafny

This project models and verifies the computational core of blasoxide, a BLAS
library written in Rust. That core is:

- the single-precision Level-1 vector kernels of `src/level1.rs`;
- the blocked double-precision matrix-vector product `dgemv` of `src/l2d.rs`.

Floating-point values are modelled as reals. A raw pointer becomes a Dafny
array together with a base offset. Logical element `i` of a view with stride
`inc` lives at offset `o + i*inc`. An AVX register is a sequence of lanes, and
each intrinsic the kernels use is modelled as the scalar operation it performs
on each lane.

Modules:

- `Reals`: facts about products and squares of reals.
- `Views`: strided views of a buffer.
  - `Gather` reads the logical vector of a view.
  - `Scatter` writes a logical vector back through a view. Every offset the view does not cover keeps its old value.
  - `Splice` is the same write for a contiguous run.
- `Lanes`: 8-lane and 4-lane registers, `hadd_ps`, and unaligned loads and stores.
- `Level1`: the kernels that write their vectors: `srot`, `sswap`, `sscal`, `scopy` and `saxpy`.
  - Every one of them models both code paths. The unit-stride path runs `n / STEP` blocks of four 8-lane steps, then a scalar tail of `n % STEP` elements. The strided path handles one element at a time.
  - Whichever path runs, each kernel is proved to produce the same new buffer contents: a function of the old logical vectors, written back with `Scatter`. These specification functions are `Scaled` (`a*x_i`), `Axpy` (`y_i + a*x_i`), `RotatedX` (`c*x_i + s*y_i`) and `RotatedY` (`c*y_i - s*x_i`). Each is a plain elementwise definition.
  - Each kernel also returns, as a ghost value, the offsets of each vector it writes, in the order it visits them.
- `Reductions`: `sdot`, `sdsdot`, `snrm2`, `sasum` and `isamax`, each proved to meet a specification of the logical vectors: `Dot`, `Dot` plus the seed, `SumOfSquares`, `Asum`, and for `isamax` the predicate `FirstMaxIndex` (the first index of largest magnitude, unique by `Reductions.FirstMaxIndexUnique`).
- `Givens`: `srotg`, with the algebraic properties of the rotation it builds.
- `L2d`: `dgemv` and its inner kernel.
  - The outer loops walk tiles of at most 256 rows (`MC`) by 128 columns (`NC`). Beta applies to the first column block only.
  - The kernel updates rows four at a time with one 4-lane register, then the `m % 4` remaining rows one by one. Beta applies to the first column of each kernel call only.
  - `Columns` is the kernel's column recurrence: each column multiplies the cell by the scale and adds `(alpha*a)*x`. `Target` is `beta*y + alpha*(row . x)`. `Tile` is the argument list of one tile call: `a` at `i + j*lda`, `x` at `j*incx`, `y` at `i*incy`, with `beta_scale`.
  - For `n >= 1`, every row's cell of `y` is proved to end up equal to `beta*y + alpha*(row . x)`. With `n == 0` the column loop never runs and `y` is unchanged, whatever beta is (`L2d.DoneNoColumns`). Every cell that no row updates is proved unchanged.
- `Properties`: results that span several calls. Swapping twice restores both buffers. Copying then summing magnitudes gives the source's magnitude sum.

How `dgemv` places its rows:

- Each register of four rows covers consecutive cells of `y`, starting at the group's first row times `incy`. This is exactly what `ybase = y.add(i * incy)` with `_mm256_storeu_pd` does.
- Only the scalar tail rows follow the stride.
- `L2d.RowCell` states which cell each row updates. `L2d.DoneUnitStride` spells out the textbook result `y[r] = beta*y[r] + alpha*Σ_c A[r,c]*x[c]` for `incy == 1`.
- For `incy > 1` the model follows the code, not the BLAS convention of strided `y`.
- The transpose flag is accepted and ignored, as in the code.

## Model

| member | source | states |
|---|---|---|
| Lanes.HaddPs | src/level1.rs:13-18 | the two horizontal adds followed by lane 0 plus lane 4 give the sum of all eight lanes |
| Lanes.SumEight | src/level1.rs:13-18 | the recursive lane sum of an 8-lane register is the eight lanes added together |
| Lanes.SumAdd | src/level1.rs:218-224 | a lanewise accumulator add adds the totals of the two registers |
| Lanes.StoreU | src/l2d.rs:65-71 | an unaligned store writes the lanes to consecutive cells, and nothing else changes |
| Views.GatherScatter | src/level1.rs:81-92 | reading a view back after writing `v` through it gives `v` |
| Views.ScatterGather | src/level1.rs:117-128 | writing a view's own contents back through it leaves the buffer unchanged |
| Views.ScatterOverwrite | src/level1.rs:117-128 | a second write through the same view replaces the first one |
| Views.ScatterFrame | src/level1.rs:81-92 | an offset the view does not cover keeps its value |
| Views.PosDistinct | src/level1.rs:81-92 | with a non-zero stride, distinct logical elements live at distinct offsets |
| Views.SpliceIsScatter | src/level1.rs:55-80 | a contiguous write is the stride-1 write through the view |
| Views.OffsetsAppend | src/level1.rs:59-80 | the offsets visited by the block loop followed by those of the tail are the offsets of the whole view |
| Level1.RotBlock | src/level1.rs:60-69 | the fmadd/fmsub lanes of one register step are the rotated elements of that run |
| Level1.ScaleBlock | src/level1.rs:134-139 | the multiply lanes of one register step are the scaled elements of that run |
| Level1.AxpyBlock | src/level1.rs:185-194 | the fmadd lanes of one register step are the axpy elements of that run |
| Level1.Srot | src/level1.rs:46-93 | x becomes the rotated x and y the rotated y, both written through their views; the visited offsets are each view's offsets in order |
| Level1.SrotContiguous | src/level1.rs:55-80 | with unit strides, the block loop and then the tail write the rotated vectors over the contiguous runs |
| Level1.SrotBlock | src/level1.rs:60-69 | one unrolled block extends the rotated prefix of both buffers by 32 elements |
| Level1.SrotLanes | src/level1.rs:61-68 | one register step extends the rotated prefix of both buffers by 8 elements |
| Level1.SrotTail | src/level1.rs:71-80 | the scalar tail finishes the rotation of both buffers |
| Level1.SrotScalar | src/level1.rs:72-79 | one scalar step writes `c*x_i + s*y_i` and `c*y_i - s*x_i`, extending both rotated prefixes by one element |
| Level1.SrotStrided | src/level1.rs:81-92 | the strided loop writes the rotated vectors through both views |
| Level1.Sswap | src/level1.rs:95-129 | x receives y's logical vector and y receives x's; nothing outside the views changes |
| Level1.SswapContiguous | src/level1.rs:97-116 | with unit strides, the two contiguous runs are exchanged |
| Level1.SswapBlock | src/level1.rs:98-105 | one unrolled block exchanges 32 more elements |
| Level1.SswapLanes | src/level1.rs:99-104 | one register step exchanges 8 more elements of both runs |
| Level1.SswapTail | src/level1.rs:107-116 | the scalar tail finishes the exchange |
| Level1.SswapScalar | src/level1.rs:108-115 | one scalar step exchanges one more element of both runs |
| Level1.SswapStrided | src/level1.rs:117-128 | the strided loop exchanges the two views |
| Level1.Sscal | src/level1.rs:131-150 | x's view holds `a*x_i`; nothing outside the view changes |
| Level1.SscalContiguous | src/level1.rs:133-143 | with unit stride, the run holds the scaled vector |
| Level1.SscalBlock | src/level1.rs:134-139 | one unrolled block scales 32 more elements |
| Level1.SscalLanes | src/level1.rs:136-137 | one register step scales 8 more elements of the run |
| Level1.SscalTail | src/level1.rs:140-143 | the scalar tail finishes the scaling |
| Level1.SscalScalar | src/level1.rs:141-142 | one scalar step scales one more element of the run |
| Level1.SscalStrided | src/level1.rs:144-149 | the strided loop scales every element of the view |
| Level1.Scopy | src/level1.rs:152-173 | y's view holds x's logical vector; x is unchanged |
| Level1.ScopyContiguous | src/level1.rs:153-165 | with unit strides, y's run holds x's run |
| Level1.ScopyBlock | src/level1.rs:154-160 | one unrolled block copies 32 more elements |
| Level1.ScopyLanes | src/level1.rs:156-158 | one register step copies 8 more elements into y's run |
| Level1.ScopyTail | src/level1.rs:161-165 | the scalar tail finishes the copy |
| Level1.ScopyScalar | src/level1.rs:162-164 | one scalar step copies one more element into y's run |
| Level1.ScopyStrided | src/level1.rs:166-172 | the strided loop copies every element |
| Level1.Saxpy | src/level1.rs:175-207 | y's view holds `y_i + a*x_i`; x is unchanged |
| Level1.SaxpyContiguous | src/level1.rs:184-199 | with unit strides, y's run holds the axpy vector |
| Level1.SaxpyBlock | src/level1.rs:185-194 | one unrolled block updates 32 more elements |
| Level1.SaxpyLanes | src/level1.rs:187-192 | one fmadd register step updates 8 more elements of y's run to `y_i + a*x_i` |
| Level1.SaxpyTail | src/level1.rs:195-199 | the scalar tail finishes the update |
| Level1.SaxpyScalar | src/level1.rs:196-198 | one scalar step updates one more element of y's run to `y_i + a*x_i` |
| Level1.SaxpyStrided | src/level1.rs:200-206 | the strided loop updates every element of y's view |
| Reductions.Sdot | src/level1.rs:209-241 | the result is the dot product of the two logical vectors, on either path |
| Reductions.SdotContiguous | src/level1.rs:214-230 | the lane accumulator, reduced by `hadd_ps`, then the scalar tail give the dot product |
| Reductions.SdotBlock | src/level1.rs:218-224 | after one unrolled block the accumulator's lanes add up to the dot product of one more 32-element prefix |
| Reductions.SdotLanes | src/level1.rs:220-222 | one fmadd register step takes the accumulator's lane total from the dot product of a prefix to that of a prefix 8 elements longer |
| Reductions.SdotTail | src/level1.rs:226-230 | the scalar tail completes the running total to the whole dot product |
| Reductions.SdotStrided | src/level1.rs:232-240 | the strided loop's running total is the dot product |
| Reductions.Sdsdot | src/level1.rs:243-258 | the result is `b` plus the dot product |
| Reductions.Snrm2 | src/level1.rs:260-286 | the result is the sum of squares of the logical vector (the radicand of the norm) |
| Reductions.Snrm2Contiguous | src/level1.rs:262-275 | accumulator, `hadd_ps` and tail give the sum of squares |
| Reductions.Snrm2Block | src/level1.rs:263-269 | one unrolled block adds 32 more squares to the accumulator |
| Reductions.Snrm2Lanes | src/level1.rs:265-267 | one fmadd register step takes the accumulator's lane total from the sum of squares of a prefix to that of a prefix 8 elements longer |
| Reductions.Snrm2Tail | src/level1.rs:271-275 | the scalar tail completes the sum of squares |
| Reductions.Snrm2Strided | src/level1.rs:278-283 | the strided loop's running total is the sum of squares |
| Reductions.Sasum | src/level1.rs:288-312 | the result is the sum of the magnitudes of the logical vector |
| Reductions.SasumContiguous | src/level1.rs:290-303 | the sign-masked accumulator, `hadd_ps` and tail give the magnitude sum |
| Reductions.SasumBlock | src/level1.rs:292-297 | one unrolled block adds 32 more magnitudes |
| Reductions.SasumLanes | src/level1.rs:294-295 | one masked add register step takes the accumulator's lane total from the magnitude sum of a prefix to that of a prefix 8 elements longer |
| Reductions.SasumTail | src/level1.rs:299-302 | the scalar tail completes the magnitude sum |
| Reductions.SasumStrided | src/level1.rs:305-310 | the strided loop's running total is the magnitude sum |
| Reductions.Isamax | src/level1.rs:314-326 | for `n == 0` the result is 0; otherwise it is the first index whose magnitude is maximal: no later element is larger and every earlier one is strictly smaller |
| Reductions.FirstMaxIndexUnique | src/level1.rs:319 | the strict `>` makes the first maximal index unique |
| Reductions.AsumZero | src/level1.rs:288-312 | the magnitude sum is non-negative, and zero exactly for the zero vector |
| Reductions.SumOfSquaresZero | src/level1.rs:260-286 | the sum of squares is non-negative, so its square root is defined, and zero exactly for the zero vector |
| Reductions.SumZero | src/level1.rs:288-312 | a sum of non-negative terms is zero if and only if every term is zero |
| Reductions.Accumulate | src/level1.rs:218-224 | adding the next lanes to an accumulator for a prefix gives the accumulator for the longer prefix |
| Givens.Srotg | src/level1.rs:24-44 | `(0, 0)` gives `(0, 0, 1, 0)` exactly; otherwise `r != 0`, `c*r == a` and `s*r == b` |
| Givens.SrotgRadius | src/level1.rs:28-33 | `|r|` is the hypotenuse, and `r` takes the sign of whichever of `a`, `b` has the larger magnitude |
| Givens.SrotgRadiusSquare | src/level1.rs:28-33 | `r² == a² + b²` |
| Givens.SrotgUnit | src/level1.rs:34-35 | `c² + s² == 1` |
| Givens.SrotgAnnihilates | src/level1.rs:34-35 | rotating `(a, b)` by `(c, s)` as `srot` does gives `(r, 0)` |
| Givens.SrotgZ | src/level1.rs:36-42 | `z == s` when `|a| > |b|`, else `1/c` or 1 when `c == 0`; `z² < 1` exactly when `|a| > |b|` |
| Givens.HypotPositive | src/level1.rs:28 | away from `(0, 0)` the hypotenuse is positive |
| L2d.Addr | src/l2d.rs:29-34 | the pointer offset `o + c*inc` equals the stride-by-stride offset `Index` |
| L2d.IndexIsPos | src/l2d.rs:62-64 | the stride-by-stride offset equals the view offset `o + c*inc` |
| L2d.RowDotIsDot | src/l2d.rs:59-79 | the column-by-column row sum is the dot product of the matrix row with x |
| L2d.RowDotSplit | src/l2d.rs:21-22 | the row sum over `k + w` columns is the sum over the first `k` plus the sum over the next `w` from the shifted pointers |
| L2d.ColumnStep | src/l2d.rs:57-81 | one column with scale beta first and 1 afterwards moves a cell from `j` to `j + 1` columns of `beta*y + alpha*sum` |
| L2d.BlockStep | src/l2d.rs:19-38 | one column block with `beta_scale` beta first and 1 afterwards moves a cell from `j` to `j + jb` columns |
| L2d.ColumnsClosedForm | src/l2d.rs:57-81 | after `k >= 1` columns the kernel's column recurrence equals `beta*y + alpha*(row . x)`, with beta applied once; after 0 columns it is `y` itself |
| L2d.RowCellUnit | src/l2d.rs:63 | with unit stride each row updates its own cell |
| L2d.RowCellGroup | src/l2d.rs:61-72 | lane `l` of the group at row `i` writes cell `i*incy + l` |
| L2d.RowCellLess | src/l2d.rs:61-79 | for `incy >= 1`, distinct rows update distinct, increasing cells |
| L2d.TileCell | src/l2d.rs:23-36 | row `r` of the tile starting at row `i`, with pointer `y + i*incy`, is row `i + r` of the whole product |
| L2d.UntouchedUnit | src/l2d.rs:59-82 | with unit stride exactly the first `m` cells of y are written |
| L2d.ReadBounds | src/l2d.rs:62-78 | every matrix, x and y access of a valid call is in range |
| L2d.KernelGroup | src/l2d.rs:61-72 | one 4-row register step brings four more rows of column `j` to `Columns(K, r, j + 1)`; no other cell changes |
| L2d.KernelRow | src/l2d.rs:74-79 | one scalar tail step brings one more row of column `j` to `Columns(K, r, j + 1)`; no other cell changes |
| L2d.KernelColumn | src/l2d.rs:59-81 | one column brings every row from `j` to `j + 1` columns |
| L2d.InnerKernel | src/l2d.rs:41-83 | for `n >= 1`, every row's cell ends as `beta*y + alpha*(row . x)` over the call's columns, and with `n == 0` it is unchanged; every cell no row updates is unchanged |
| L2d.GroupStep | src/l2d.rs:61-72 | the fmadd register written by one group holds the next column's values of those four rows |
| L2d.RowStep | src/l2d.rs:74-79 | the tail update holds the next column's value of that row |
| L2d.Min | src/l2d.rs:22-24 | `min` is at most both arguments and equals one of them |
| L2d.TileValid | src/l2d.rs:23-36 | each tile's kernel call stays inside the buffers |
| L2d.TileValue | src/l2d.rs:25-38 | a row brought to `j` columns of the whole product, then through the tile's kernel with `beta_scale`, reaches `j + jb` columns |
| L2d.TileStep | src/l2d.rs:23-36 | after one tile the rows up to `i + ib` have `j + jb` columns and every other row keeps `j` |
| L2d.DgemvTile | src/l2d.rs:24-36 | one tile call advances the row progress from `i` to `i + ib` |
| L2d.DgemvBlock | src/l2d.rs:22-38 | the row-block loop of one column block advances every row from `j` to `j + jb` columns |
| L2d.Dgemv | src/l2d.rs:3-39 | for `n >= 1`, every row's cell ends as `beta*y + alpha*(row . x)` over all `n` columns, with beta applied exactly once; with `n == 0`, y is unchanged (`L2d.DoneNoColumns`); every other cell of y is unchanged |
| L2d.DoneNoColumns | src/l2d.rs:21 | with no columns, y is left exactly as it was, whatever beta is |
| L2d.DoneUnitStride | src/l2d.rs:3-39 | with `incy == 1` and `n > 0`: `y[r] == beta*y0[r] + alpha*(row r . x)` for every row; every cell past row `m` is unchanged |
| Properties.SwapTwice | src/level1.rs:95-129 | swapping the same two views twice restores both buffers |
| Properties.SswapTwice | src/level1.rs:95-129 | two `sswap` calls leave x and y as they were |
| Properties.CopyThenAsum | src/level1.rs:152-173 | after `scopy`, y's logical vector has the magnitude sum of x's |
| Properties.ScopyThenSasum | src/level1.rs:288-312 | `sasum` of the copy equals `sasum` of the source |

## Left out

- Floating point: values are reals, so rounding, overflow, NaN and infinities are not modelled. A fused multiply-add is a multiply followed by an add. Accumulation order is not modelled either: the vectorized and scalar paths are proved equal over the reals, not bit for bit.
- Givens.Srotg: `f32::hypot` has no algebraic definition, so the caller passes the hypotenuse `h` with `h >= 0` and `h² == a² + b²`.
- Reductions.Snrm2: returns the sum of squares; the final `sqrt` is not modelled, because square roots of reals cannot be computed here. `Reductions.SumOfSquaresZero` shows that the radicand is non-negative.
- Reductions.Sdsdot: the widening to `f64` and the final cast back to `f32` are not modelled, because over the reals both precisions are the same.
- The `SABS_MASK` sign-bit mask in `sasum`, and the `transmute` in `hadd_ps`, are modelled by their effect: the lane's absolute value, and indexing the lanes.
- Raw pointers are arrays with base offsets. The caller's guarantees become requires: every accessed offset is in range; the two vectors of `srot`, `sswap`, `scopy` and `saxpy` are distinct arrays; y is distinct from A and x in `dgemv`. Overlapping buffers are not modelled.
- Level1.Srot, Level1.Sswap, Level1.Sscal, Level1.Scopy, Level1.Saxpy: a written vector's stride must be non-zero. With stride 0 all elements alias one cell, which the source allows but the model does not.
- L2d.Dgemv: `incy >= 1` is required whenever `m > 0` and `n > 0`; with `incy == 0` distinct rows write the same cell. The matrix and the vectors start at offset 0 of their arrays.
- L2d.Dgemv: `usize` overflow in `i + j*lda` and `i*incy` is not modelled; integers are unbounded.
- L2d.Dgemv: the transpose argument is ignored, as it is in the code.
- `src/lib.rs` (module declarations and the choice of kernel set) is not part of this model.
- The other kernel files that `src/lib.rs` declares (`l2s`, `l3s`, `l3d`, `fma`, `generic`, `context`, `util`, `aligned_alloc`) are not part of this model.
- `Lanes.LoadU` and `L2d.At` read the contents of the array; `At` gives 0 outside the buffer, a case that a valid call never reaches (`L2d.ReadBounds`).
