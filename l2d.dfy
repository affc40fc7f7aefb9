/** The double-precision matrix-vector product `dgemv` of src/l2d.rs:
    y := beta*y + alpha*A*x for a column-major m-by-n matrix A with leading
    dimension `lda`.

    The public routine walks the matrix in tiles of at most MC rows by NC
    columns.  The first column block applies `beta`, and every later block
    uses 1 instead.  Each tile goes to the inner kernel.  The kernel processes
    one column at a time: it updates four rows at a time with one register of
    four lanes, then the remaining `m % 4` rows one by one.  It too applies its
    own `beta` with the first column only.

    The four rows of a register are consecutive cells of `y`, starting at the
    group's first row times `incy`.  Only the scalar tail rows follow the stride.
    `RowCell` gives the cell of y that each row updates; with `incy == 1` it is
    the row itself.

    Offsets into the buffers are counted one stride at a time (`Index`), which
    equals the products the code computes (`IndexIsPos`). */
module L2d {
  import opened Views
  import opened Lanes
  import opened Reductions

  /** Rows per tile. */
  const MC: nat := 256
  /** Columns per tile. */
  const NC: nat := 128

  /** `ptr.add(o + c*inc)`: the offset of element `c` of a strided view. */
  method Addr(o: int, inc: int, c: nat) returns (p: int)
    ensures p == Index(o, inc, c)
  {
    IndexIsPos(o, inc, c);
    p := o + c * inc;
  }

  /** The element at `i`, or 0 outside the sequence.  Under the kernels'
      preconditions every read is in range; the default only keeps the
      specification functions total. */
  function At(s: seq<real>, i: int): real
  {
    if 0 <= i < |s| then s[i] else 0.0
  }

  /** The offset of element `c` of a view that starts at `o` with stride `inc`:
      `Views.Pos(o, inc, c)` counted one stride at a time (`IndexIsPos`).  The
      recursive form keeps the kernel proofs linear: stepping to the next column
      or group is one unfolding, not a product of two variables. */
  function Index(o: int, inc: int, c: nat): int
  {
    if c == 0 then o else Index(o, inc, c - 1) + inc
  }

  /** Counting strides one at a time gives the pointer arithmetic `o + c*inc`. */
  lemma {:induction false} IndexIsPos(o: int, inc: int, c: nat)
    ensures Index(o, inc, c) == Pos(o, inc, c)
  {
    if c > 0 {
      IndexIsPos(o, inc, c - 1);
      PosNext(o, inc, c - 1);
    }
  }

  /** Element `k + c` of a view is element `c` of the view that starts at its
      element `k`. */
  lemma {:induction false} IndexShift(o: int, inc: int, k: nat, c: nat)
    ensures Index(o, inc, k + c) == Index(Index(o, inc, k), inc, c)
  {
    if c > 0 {
      IndexShift(o, inc, k, c - 1);
    }
  }

  /** Moving the base moves every element by the same amount. */
  lemma {:induction false} IndexBase(o: int, d: int, inc: int, c: nat)
    ensures Index(o + d, inc, c) == Index(o, inc, c) + d
  {
    if c > 0 {
      IndexBase(o, d, inc, c - 1);
    }
  }

  /** With a non-negative stride later elements are not earlier. */
  lemma {:induction false} IndexMono(o: int, inc: int, c: nat, e: nat)
    requires inc >= 0 && c <= e
    ensures Index(o, inc, c) <= Index(o, inc, e)
  {
    if c < e {
      IndexMono(o, inc, c, e - 1);
    }
  }

  /** Four strides further. */
  lemma {:induction false} IndexFour(o: int, inc: int, c: nat)
    ensures Index(o, inc, c + 4) == Index(o, inc, c) + 4 * inc
  {
    IndexShift(o, inc, c, 4);
    IndexIsPos(Index(o, inc, c), inc, 4);
  }

  /** The product `A[row, c] * x[c]` of column `c`.  The row is read from `a`
      with stride `lda` from `ao`, and x with stride `incx` from `xo`. */
  function Term(a: seq<real>, ao: int, lda: int, x: seq<real>, xo: int, incx: int, c: nat): real
  {
    At(a, Index(ao, lda, c)) * At(x, Index(xo, incx, c))
  }

  /** The sum over the first `k` columns of `A[row, c] * x[c]`. */
  function RowDot(a: seq<real>, ao: int, lda: int, x: seq<real>, xo: int, incx: int, k: nat): real
  {
    if k == 0 then 0.0 else RowDot(a, ao, lda, x, xo, incx, k - 1) + Term(a, ao, lda, x, xo, incx, k - 1)
  }

  /** Column `k + c` of a row is column `c` of the row that starts at column `k`. */
  lemma {:induction false} TermShift(a: seq<real>, ao: int, lda: int, x: seq<real>, xo: int, incx: int, k: nat, c: nat)
    ensures Term(a, ao, lda, x, xo, incx, k + c) == Term(a, Index(ao, lda, k), lda, x, Index(xo, incx, k), incx, c)
  {
    IndexShift(ao, lda, k, c);
    IndexShift(xo, incx, k, c);
  }

  /** Inside the buffers, the row sum is the dot product of the two strided
      views, as `sdot` computes it. */
  lemma {:induction false} RowDotIsDot(a: seq<real>, ao: int, lda: int, x: seq<real>, xo: int, incx: int, k: nat)
    requires Fits(|a|, ao, lda, k) && Fits(|x|, xo, incx, k)
    ensures RowDot(a, ao, lda, x, xo, incx, k) == Dot(Gather(a, ao, lda, k), Gather(x, xo, incx, k))
  {
    if k > 0 {
      RowDotIsDot(a, ao, lda, x, xo, incx, k - 1);
      IndexIsPos(ao, lda, k - 1);
      IndexIsPos(xo, incx, k - 1);
      var ga, gx := Gather(a, ao, lda, k), Gather(x, xo, incx, k);
      assert ga[..k - 1] == Gather(a, ao, lda, k - 1);
      assert gx[..k - 1] == Gather(x, xo, incx, k - 1);
      MulRun(ga, gx, 0, k - 1);
      MulAt(ga, gx, k - 1, ga[k - 1], gx[k - 1]);
      var p := Mul(ga, gx);
      assert p[0..k - 1] == p[..k - 1];
    }
  }

  /** Accumulating `k` columns and then the next `w` columns is accumulating the
      first `k + w` columns: the column blocks of the tiling compose. */
  lemma {:induction false} RowDotSplit(a: seq<real>, ao: int, lda: int, x: seq<real>, xo: int, incx: int,
                                       k: nat, w: nat)
    ensures RowDot(a, ao, lda, x, xo, incx, k + w)
         == RowDot(a, ao, lda, x, xo, incx, k) + RowDot(a, Index(ao, lda, k), lda, x, Index(xo, incx, k), incx, w)
  {
    if w > 0 {
      RowDotSplit(a, ao, lda, x, xo, incx, k, w - 1);
      TermShift(a, ao, lda, x, xo, incx, k, w - 1);
    }
  }

  /** The value of a cell of y, initially `y0c`, after `k` columns whose row sum
      is `s`.  Beta scales the initial value once, with the first column; with
      no columns the cell is as it was, whatever beta is. */
  function AfterColumns(beta: real, alpha: real, y0c: real, s: real, k: nat): real
  {
    if k == 0 then y0c else beta * y0c + alpha * s
  }

  /** One column: `(alpha*a)*x + scale*y` moves a cell from `j` columns to
      `j + 1`, as long as the scale is beta for the first column and 1
      afterwards. */
  lemma {:induction false} ColumnStep(beta: real, alpha: real, scale: real, y0c: real, s: real, j: nat, av: real, xv: real)
    requires scale == if j == 0 then beta else 1.0
    requires j == 0 ==> s == 0.0
    ensures (alpha * av) * xv + scale * AfterColumns(beta, alpha, y0c, s, j)
         == AfterColumns(beta, alpha, y0c, s + av * xv, j + 1)
  {
    assert (alpha * av) * xv == alpha * (av * xv);
  }

  /** One column block of `dgemv`: a kernel call with scale beta on the first
      block and 1 afterwards moves a cell from `j` columns to `j + jb`. */
  lemma {:induction false} BlockStep(beta: real, alpha: real, scale: real, y0c: real, s1: real, s2: real, j: nat, jb: nat)
    requires scale == if j == 0 then beta else 1.0
    requires j == 0 ==> s1 == 0.0
    requires jb > 0
    ensures scale * AfterColumns(beta, alpha, y0c, s1, j) + alpha * s2
         == AfterColumns(beta, alpha, y0c, s1 + s2, j + jb)
  {
    assert alpha * s1 + alpha * s2 == alpha * (s1 + s2);
  }

  /** The cell of y, relative to the kernel's y pointer, that the kernel updates
      for row `r` of an `m`-row call.  The first `m - m % 4` rows go in groups of
      four: the group's register is stored at the group's first row times `incy`,
      and its lanes are consecutive.  Each remaining row is at `r * incy`. */
  function RowCell(m: nat, incy: nat, r: nat): int
  {
    if r < m - m % 4 then Index(r % 4, incy, r - r % 4) else Index(0, incy, r)
  }

  /** With unit stride each row updates its own cell. */
  lemma {:induction false} RowCellUnit(m: nat, r: nat)
    ensures RowCell(m, 1, r) == r
  {
    IndexIsPos(r % 4, 1, r - r % 4);
    IndexIsPos(0, 1, r);
  }

  /** A row of a four-row group is at the group's start times `incy`, plus its
      lane. */
  lemma {:induction false} RowCellGroup(m: nat, incy: nat, i: nat, l: nat)
    requires i % 4 == 0 && l < 4 && i + l < m - m % 4
    ensures RowCell(m, incy, i + l) == Index(0, incy, i) + l
  {
    assert (i + l) % 4 == l;
    IndexBase(0, l, incy, i);
  }

  /** Every cell is at or after the kernel's y pointer. */
  lemma {:induction false} RowCellNonneg(m: nat, incy: nat, r: nat)
    ensures RowCell(m, incy, r) >= 0
  {
    IndexMono(r % 4, incy, 0, r - r % 4);
    IndexMono(0, incy, 0, r);
  }

  /** A group starting at `gg` ends before the one at `hh`, or before any tail
      row at `hh`, once `gg + 4 <= hh`. */
  lemma {:induction false} GroupBefore(incy: nat, gg: nat, s: nat, hh: nat)
    requires incy >= 1 && s < 4 && gg + 4 <= hh
    ensures Index(0, incy, gg) + s < Index(0, incy, hh)
  {
    IndexFour(0, incy, gg);
    IndexMono(0, incy, gg + 4, hh);
  }

  /** With a positive stride, later rows update strictly later cells, so no two
      rows share a cell. */
  lemma {:induction false} RowCellLess(m: nat, incy: nat, g: nat, h: nat)
    requires incy >= 1 && g < h < m
    ensures RowCell(m, incy, g) < RowCell(m, incy, h)
  {
    var mm := m - m % 4;
    var gg, hh := g - g % 4, h - h % 4;
    if g < mm {
      IndexBase(0, g % 4, incy, gg);
    }
    if h < mm {
      IndexBase(0, h % 4, incy, hh);
      if gg < hh {
        GroupBefore(incy, gg, g % 4, hh);
      }
    } else if g < mm {
      GroupBefore(incy, gg, g % 4, h);
    } else {
      IndexMono(0, incy, g + 1, h);
    }
  }

  /** The last row updates the last cell. */
  lemma {:induction false} RowCellMax(m: nat, incy: nat, r: nat)
    requires incy >= 1 && r < m
    ensures RowCell(m, incy, r) <= RowCell(m, incy, m - 1)
  {
    if r < m - 1 {
      RowCellLess(m, incy, r, m - 1);
    }
  }

  /** A tile starting at row `i`, a multiple of four, that is either the last tile
      or a whole number of groups, updates for its row `r` the cell that the
      whole product assigns to row `i + r`. */
  lemma {:induction false} TileCell(m: nat, incy: nat, i: nat, ib: nat, r: nat)
    requires i % 4 == 0 && r < ib && i + ib <= m
    requires ib == m - i || ib % 4 == 0
    ensures Index(0, incy, i) + RowCell(ib, incy, r) == RowCell(m, incy, i + r)
  {
    assert (i + r) % 4 == r % 4;
    if ib % 4 == 0 {
      assert i + ib <= m - m % 4;
    } else {
      assert ib % 4 == m % 4;
    }
    var d := Index(0, incy, i);
    if r < ib - ib % 4 {
      IndexShift(r % 4, incy, i, r - r % 4);
      IndexBase(0, r % 4, incy, i);
      IndexBase(r % 4, d, incy, r - r % 4);
      assert i + r - (i + r) % 4 == i + (r - r % 4);
    } else {
      IndexShift(0, incy, i, r);
      IndexBase(0, d, incy, r);
    }
  }

  /** No row of an `m`-row call with y pointer `yo` updates cell `c`. */
  predicate Untouched(m: nat, incy: nat, yo: int, c: int)
  {
    forall r {:trigger RowCell(m, incy, r)} :: 0 <= r < m ==> yo + RowCell(m, incy, r) != c
  }

  /** With unit stride the rows update exactly the first `m` cells. */
  lemma {:induction false} UntouchedUnit(m: nat, c: int)
    ensures Untouched(m, 1, 0, c) <==> !(0 <= c < m)
  {
    if 0 <= c < m {
      RowCellUnit(m, c);
    } else {
      forall r | 0 <= r < m
        ensures RowCell(m, 1, r) != c
      {
        RowCellUnit(m, r);
      }
    }
  }

  /** The parameters of one call of the inner kernel, and y as it was before the
      call: `m` rows, alpha and beta, the matrix `a` read from `ao` with leading
      dimension `lda`, x read from `xo` with stride `incx`, and y written from `yo`
      with stride `incy`. */
  datatype Kernel = Kernel(m: nat, alpha: real, beta: real,
                           a: seq<real>, ao: nat, lda: nat,
                           x: seq<real>, xo: nat, incx: nat,
                           y0: seq<real>, yo: nat, incy: nat)

  /** The cell of y for row `r` of the call. */
  function Cell(K: Kernel, r: nat): int
  {
    K.yo + RowCell(K.m, K.incy, r)
  }

  /** Row `r`'s cell after the first `k` columns: `beta*y + alpha*(row . x)`. */
  function Target(K: Kernel, r: nat, k: nat): real
  {
    AfterColumns(K.beta, K.alpha, At(K.y0, Cell(K, r)), RowDot(K.a, K.ao + r, K.lda, K.x, K.xo, K.incx, k), k)
  }

  /** Row `r`'s cell after the first `k` columns, as the kernel computes it:
      each column multiplies the cell by the scale (beta for the first column, 1
      afterwards) and adds `(alpha*a)*x`. */
  function Columns(K: Kernel, r: nat, k: nat): real
  {
    if k == 0 then At(K.y0, Cell(K, r))
    else (K.alpha * At(K.a, Index(K.ao + r, K.lda, k - 1))) * At(K.x, Index(K.xo, K.incx, k - 1))
         + (if k == 1 then K.beta else 1.0) * Columns(K, r, k - 1)
  }

  /** One more column multiplies the cell by the scale and adds
      `(alpha*a)*x`. */
  lemma {:induction false} ColumnsNext(K: Kernel, r: nat, k: nat, scale: real, av: real, xv: real)
    requires scale == (if k == 0 then K.beta else 1.0)
    requires av == At(K.a, Index(K.ao + r, K.lda, k)) && xv == At(K.x, Index(K.xo, K.incx, k))
    ensures Columns(K, r, k + 1) == (K.alpha * av) * xv + scale * Columns(K, r, k)
  {
  }

  /** Column by column, the kernel computes `beta*y + alpha*(row . x)`. */
  lemma {:induction false} ColumnsClosedForm(K: Kernel, r: nat, k: nat)
    ensures Columns(K, r, k) == Target(K, r, k)
  {
    if k > 0 {
      ColumnsClosedForm(K, r, k - 1);
      ColumnStep(K.beta, K.alpha, if k == 1 then K.beta else 1.0, At(K.y0, Cell(K, r)),
                 RowDot(K.a, K.ao + r, K.lda, K.x, K.xo, K.incx, k - 1), k - 1,
                 At(K.a, Index(K.ao + r, K.lda, k - 1)), At(K.x, Index(K.xo, K.incx, k - 1)));
    }
  }

  /** The reads and writes of an `n`-column call stay inside the buffers, and
      distinct rows update distinct cells.  A call with no rows or no columns
      touches nothing. */
  predicate Valid(K: Kernel, n: nat)
  {
    K.m == 0 || n == 0 ||
    (K.incy >= 1
     && Index(K.ao + K.m - 1, K.lda, n - 1) < |K.a|
     && Index(K.xo, K.incx, n - 1) < |K.x|
     && Cell(K, K.m - 1) < |K.y0|)
  }

  /** The element of `a` at row `r`, column `c` of a call, the element `c` of x
      and the cell of row `r` are in range. */
  lemma {:induction false} ReadBounds(K: Kernel, n: nat, r: nat, c: nat)
    requires Valid(K, n) && r < K.m && c < n
    ensures 0 <= Index(K.ao + r, K.lda, c) < |K.a|
    ensures 0 <= Index(K.xo, K.incx, c) < |K.x|
    ensures 0 <= Cell(K, r) < |K.y0|
  {
    IndexMono(K.ao + r, K.lda, 0, c);
    IndexMono(K.ao + r, K.lda, c, n - 1);
    IndexBase(K.ao + r, K.m - 1 - r, K.lda, n - 1);
    IndexMono(K.xo, K.incx, 0, c);
    IndexMono(K.xo, K.incx, c, n - 1);
    RowCellMax(K.m, K.incy, r);
    RowCellNonneg(K.m, K.incy, r);
  }

  /** y holds `vals[r]` in row `r`'s cell, and every cell no row updates is as it
      was before the call. */
  predicate Holds(K: Kernel, ys: seq<real>, vals: seq<real>)
  {
    && |ys| == |K.y0| && |vals| == K.m
    && (forall r :: 0 <= r < K.m ==> At(ys, Cell(K, r)) == vals[r])
    && (forall c :: 0 <= c < |ys| && Untouched(K.m, K.incy, K.yo, c) ==> ys[c] == K.y0[c])
  }

  /** The call has finished: row `r`'s cell holds `Target(K, r, n)`, and every
      cell no row updates is as it was. */
  predicate Done(K: Kernel, ys: seq<real>, n: nat)
  {
    && |ys| == |K.y0|
    && (forall r :: 0 <= r < K.m ==> At(ys, Cell(K, r)) == Target(K, r, n))
    && (forall c :: 0 <= c < |ys| && Untouched(K.m, K.incy, K.yo, c) ==> ys[c] == K.y0[c])
  }

  /** The rows before `i` have had `j2` columns, the others `j`. */
  predicate Reached(K: Kernel, vals: seq<real>, i: nat, j: nat, j2: nat)
  {
    |vals| == K.m && forall r :: 0 <= r < K.m ==> vals[r] == Columns(K, r, if r < i then j2 else j)
  }

  /** The rows of a group are the four cells from `p`. */
  lemma {:induction false} GroupCells(K: Kernel, i: nat, p: int)
    requires i % 4 == 0 && i + 4 <= K.m - K.m % 4 && p == K.yo + Index(0, K.incy, i)
    ensures forall r :: i <= r < i + 4 ==> Cell(K, r) == p + (r - i)
  {
    forall r | i <= r < i + 4
      ensures Cell(K, r) == p + (r - i)
    {
      RowCellGroup(K.m, K.incy, i, r - i);
    }
  }

  /** Loading the register at the cells of rows `i .. i + 4` reads those rows'
      values. */
  lemma {:induction false} GroupLoad(K: Kernel, i: nat, p: int, ys: seq<real>, vals: seq<real>)
    requires i % 4 == 0 && i + 4 <= K.m - K.m % 4 && p == K.yo + Index(0, K.incy, i)
    requires Holds(K, ys, vals) && 0 <= p && p + W4 <= |ys|
    ensures ys[p..p + W4] == vals[i..i + W4]
  {
    var ws, vs := ys[p..p + W4], vals[i..i + W4];
    forall l | 0 <= l < W4
      ensures ws[l] == vs[l]
    {
      RowCellGroup(K.m, K.incy, i, l);
      assert Cell(K, i + l) == p + l;
      assert At(ys, Cell(K, i + l)) == vals[i + l];
    }
  }

  /** Storing a register at the cells of rows `i .. i + 4` puts its lanes in those
      rows and changes nothing else. */
  lemma {:induction false} GroupPlace(K: Kernel, i: nat, p: int, ys: seq<real>, ys2: seq<real>, vals: seq<real>, lanes: seq<real>)
    requires K.incy >= 1 && i % 4 == 0 && i + 4 <= K.m - K.m % 4 && p == K.yo + Index(0, K.incy, i)
    requires Holds(K, ys, vals) && |lanes| == W4 && 0 <= p && p + W4 <= |ys|
    requires ys2 == ys[..p] + lanes + ys[p + W4..]
    ensures Holds(K, ys2, vals[..i] + lanes + vals[i + W4..])
  {
    GroupCells(K, i, p);
    var vals2 := vals[..i] + lanes + vals[i + W4..];
    forall r | 0 <= r < K.m
      ensures At(ys2, Cell(K, r)) == vals2[r]
    {
      var c := Cell(K, r);
      if r < i {
        RowCellLess(K.m, K.incy, r, i);
        RowCellNonneg(K.m, K.incy, r);
        assert 0 <= c < p;
        assert ys2[c] == ys[c] && vals2[r] == vals[r];
      } else if r >= i + 4 {
        RowCellLess(K.m, K.incy, i + 3, r);
        assert Cell(K, i + 3) == p + 3;
        assert c >= p + W4;
        assert c < |ys| ==> ys2[c] == ys[c];
        assert vals2[r] == vals[r];
      } else {
        assert c == p + (r - i);
        assert ys2[c] == lanes[r - i] && vals2[r] == lanes[r - i];
      }
    }
    forall c | p <= c < p + W4
      ensures !Untouched(K.m, K.incy, K.yo, c)
    {
      assert Cell(K, i + (c - p)) == c;
    }
  }

  /** Lane `r - i` of the register update of rows `i .. i + 4` in column `j` is
      row `r`'s value after `j + 1` columns. */
  lemma {:induction false} LaneValue(K: Kernel, j: nat, scale: real, i: nat, q: int, xv: real, vals: seq<real>,
                  av: seq<real>, yv: seq<real>, lanes: seq<real>, r: nat)
    requires scale == if j == 0 then K.beta else 1.0
    requires i <= r < i + 4 <= K.m && q == Index(K.ao + i, K.lda, j) && 0 <= q && q + W4 <= |K.a|
    requires av == K.a[q..q + W4] && xv == At(K.x, Index(K.xo, K.incx, j))
    requires Reached(K, vals, i, j, j + 1) && yv == vals[i..i + W4]
    requires lanes == Fmadd(Mul(Broadcast(K.alpha, W4), av), Broadcast(xv, W4), Mul(Broadcast(scale, W4), yv))
    ensures lanes[r - i] == Columns(K, r, j + 1)
  {
    var l := r - i;
    IndexBase(K.ao + i, l, K.lda, j);
    assert K.ao + i + l == K.ao + r;
    ColumnsNext(K, r, j, scale, av[l], xv);
    assert yv[l] == Columns(K, r, j);
    var ma, bx, my := Mul(Broadcast(K.alpha, W4), av), Broadcast(xv, W4), Mul(Broadcast(scale, W4), yv);
    assert ma[l] == K.alpha * av[l] && bx[l] == xv && my[l] == scale * yv[l];
    assert lanes[l] == Mul(ma, bx)[l] + my[l];
  }

  /** The lanes of the register update of rows `i .. i + 4` in column `j` are the
      rows' values after `j + 1` columns. */
  lemma {:induction false} GroupValues(K: Kernel, j: nat, scale: real, i: nat, q: int, xv: real, vals: seq<real>,
                    av: seq<real>, yv: seq<real>, lanes: seq<real>)
    requires scale == if j == 0 then K.beta else 1.0
    requires i + 4 <= K.m && q == Index(K.ao + i, K.lda, j) && 0 <= q && q + W4 <= |K.a|
    requires av == K.a[q..q + W4] && xv == At(K.x, Index(K.xo, K.incx, j))
    requires Reached(K, vals, i, j, j + 1) && yv == vals[i..i + W4]
    requires lanes == Fmadd(Mul(Broadcast(K.alpha, W4), av), Broadcast(xv, W4), Mul(Broadcast(scale, W4), yv))
    ensures Reached(K, vals[..i] + lanes + vals[i + W4..], i + 4, j, j + 1)
  {
    var vals2 := vals[..i] + lanes + vals[i + W4..];
    forall r | 0 <= r < K.m
      ensures vals2[r] == Columns(K, r, if r < i + 4 then j + 1 else j)
    {
      if i <= r < i + 4 {
        LaneValue(K, j, scale, i, q, xv, vals, av, yv, lanes, r);
      }
    }
  }

  /** The tail row `r` is the cell `p`. */
  lemma {:induction false} RowPlace(K: Kernel, r: nat, p: int, ys: seq<real>, vals: seq<real>, value: real)
    requires K.incy >= 1 && K.m - K.m % 4 <= r < K.m && p == K.yo + Index(0, K.incy, r)
    requires Holds(K, ys, vals) && 0 <= p < |ys|
    ensures ys[p] == vals[r]
    ensures Holds(K, ys[p := value], vals[r := value])
  {
    var ys2 := ys[p := value];
    forall t | 0 <= t < K.m
      ensures At(ys2, Cell(K, t)) == vals[r := value][t]
    {
      if t < r {
        RowCellLess(K.m, K.incy, t, r);
      } else if t > r {
        RowCellLess(K.m, K.incy, r, t);
      }
    }
    forall c | 0 <= c < |ys2| && Untouched(K.m, K.incy, K.yo, c)
      ensures ys2[c] == K.y0[c]
    {
      assert Cell(K, r) != c;
    }
  }

  /** The scalar update `scale*y + (a*alpha)*x` of tail row `r` in column `j` is
      the row's value after `j + 1` columns. */
  lemma {:induction false} RowValues(K: Kernel, j: nat, scale: real, r: nat, q: int, xv: real, vals: seq<real>, value: real)
    requires scale == if j == 0 then K.beta else 1.0
    requires r < K.m && q == Index(K.ao + r, K.lda, j) && 0 <= q < |K.a|
    requires 0 <= Index(K.xo, K.incx, j) < |K.x| && xv == K.x[Index(K.xo, K.incx, j)]
    requires Reached(K, vals, r, j, j + 1)
    requires value == scale * vals[r] + (K.a[q] * K.alpha) * xv
    ensures Reached(K, vals[r := value], r + 1, j, j + 1)
  {
    assert (K.a[q] * K.alpha) * xv == (K.alpha * K.a[q]) * xv;
    assert value == Columns(K, r, j + 1);
  }

  /** A tail row's cell is `r * incy` from the kernel's y pointer. */
  lemma {:induction false} TailCell(K: Kernel, r: nat)
    requires K.m - K.m % 4 <= r
    ensures Cell(K, r) == Index(K.yo, K.incy, r)
  {
    IndexBase(0, K.yo, K.incy, r);
  }

  /** The scalar update of tail row `r` in column `j`, at cell `p`, gives the
      row its value after `j + 1` columns and changes no other row. */
  lemma {:induction false} RowStep(K: Kernel, j: nat, scale: real, r: nat, q: int, p: int, xi: int,
                                   ys: seq<real>, vals: seq<real>, value: real, ys2: seq<real>)
    returns (vals2: seq<real>)
    requires K.incy >= 1 && scale == (if j == 0 then K.beta else 1.0)
    requires K.m - K.m % 4 <= r < K.m
    requires q == Index(K.ao + r, K.lda, j) && p == Index(K.yo, K.incy, r) && xi == Index(K.xo, K.incx, j)
    requires Holds(K, ys, vals) && Reached(K, vals, r, j, j + 1)
    requires 0 <= q < |K.a| && 0 <= xi < |K.x| && 0 <= p < |ys|
    requires value == scale * ys[p] + (K.a[q] * K.alpha) * K.x[xi] && ys2 == ys[p := value]
    ensures Holds(K, ys2, vals2) && Reached(K, vals2, r + 1, j, j + 1)
  {
    IndexBase(0, K.yo, K.incy, r);
    RowPlace(K, r, p, ys, vals, value);
    RowValues(K, j, scale, r, q, K.x[xi], vals, value);
    vals2 := vals[r := value];
  }

  /** The four lanes a register step reads and writes are in range. */
  lemma {:induction false} GroupBounds(K: Kernel, n: nat, i: nat, j: nat)
    requires Valid(K, n) && j < n && i % 4 == 0 && i + 4 <= K.m - K.m % 4
    ensures 0 <= Index(K.ao + i, K.lda, j) && Index(K.ao + i, K.lda, j) + W4 <= |K.a|
    ensures 0 <= Index(K.xo, K.incx, j) < |K.x|
    ensures Index(K.yo, K.incy, i) == K.yo + Index(0, K.incy, i)
    ensures 0 <= Index(K.yo, K.incy, i) && Index(K.yo, K.incy, i) + W4 <= |K.y0|
  {
    ReadBounds(K, n, i, j);
    ReadBounds(K, n, i + 3, j);
    IndexBase(K.ao + i, 3, K.lda, j);
    IndexBase(0, K.yo, K.incy, i);
    RowCellGroup(K.m, K.incy, i, 0);
    RowCellGroup(K.m, K.incy, i, 3);
  }

  /** The register update of rows `i .. i + 4` in column `j`, stored at cell
      `p`, gives those rows their values after `j + 1` columns and changes no
      other row. */
  lemma {:induction false} GroupStep(K: Kernel, n: nat, j: nat, scale: real, i: nat, q: int, p: int, xi: int,
                  ys: seq<real>, vals: seq<real>, ys2: seq<real>) returns (vals2: seq<real>)
    requires Valid(K, n) && j < n && scale == (if j == 0 then K.beta else 1.0)
    requires i % 4 == 0 && i + 4 <= K.m - K.m % 4
    requires q == Index(K.ao + i, K.lda, j) && p == Index(K.yo, K.incy, i) && xi == Index(K.xo, K.incx, j)
    requires Holds(K, ys, vals) && Reached(K, vals, i, j, j + 1)
    requires 0 <= q && q + W4 <= |K.a| && 0 <= xi < |K.x| && 0 <= p && p + W4 <= |ys|
    requires ys2 == ys[..p] + Fmadd(Mul(Broadcast(K.alpha, W4), K.a[q..q + W4]), Broadcast(K.x[xi], W4),
                                   Mul(Broadcast(scale, W4), ys[p..p + W4])) + ys[p + W4..]
    ensures Holds(K, ys2, vals2) && Reached(K, vals2, i + 4, j, j + 1)
  {
    GroupBounds(K, n, i, j);
    var av, yv := K.a[q..q + W4], ys[p..p + W4];
    var lanes := Fmadd(Mul(Broadcast(K.alpha, W4), av), Broadcast(K.x[xi], W4), Mul(Broadcast(scale, W4), yv));
    GroupLoad(K, i, p, ys, vals);
    GroupPlace(K, i, p, ys, ys2, vals, lanes);
    GroupValues(K, j, scale, i, q, K.x[xi], vals, av, yv, lanes);
    vals2 := vals[..i] + lanes + vals[i + W4..];
  }

  /** Before the first column every row holds its initial value. */
  lemma {:induction false} KernelStart(K: Kernel) returns (vals: seq<real>)
    ensures Holds(K, K.y0, vals) && Reached(K, vals, 0, 0, 0)
  {
    vals := seq(K.m, r requires 0 <= r < K.m => At(K.y0, Cell(K, r)));
  }

  /** After all `n` columns every row's cell holds `beta*y + alpha*(row . x)`. */
  lemma {:induction false} KernelDone(K: Kernel, n: nat, ys: seq<real>, vals: seq<real>)
    requires Holds(K, ys, vals) && Reached(K, vals, 0, n, n)
    ensures Done(K, ys, n)
  {
    forall r | 0 <= r < K.m
      ensures At(ys, Cell(K, r)) == Target(K, r, n)
    {
      ColumnsClosedForm(K, r, n);
    }
  }

  /** The kernel's parameters as the methods receive them. */
  predicate Binds(K: Kernel, m: nat, alpha: real, a: seq<real>, ao: nat, lda: nat,
                  x: seq<real>, xo: nat, incx: nat, yo: nat, incy: nat)
  {
    K == Kernel(m, alpha, K.beta, a, ao, lda, x, xo, incx, K.y0, yo, incy)
  }

  /** One register step of the inner kernel: rows `i .. i + 4` of column `j`
      get `(alpha*a)*x + scale*y` in one load and one store of four lanes. */
  method KernelGroup(m: nat, alpha: real, a: array<real>, ao: nat, lda: nat, x: array<real>, xo: nat, incx: nat,
                     y: array<real>, yo: nat, incy: nat, alphav: seq<real>, betav: seq<real>,
                     scale: real, i: nat, j: nat, ghost K: Kernel, ghost n: nat, ghost vals: seq<real>)
    returns (ghost vals2: seq<real>)
    requires y != a && y != x
    requires Binds(K, m, alpha, a[..], ao, lda, x[..], xo, incx, yo, incy)
    requires Valid(K, n) && j < n && scale == (if j == 0 then K.beta else 1.0)
    requires alphav == Broadcast(alpha, W4) && betav == Broadcast(scale, W4)
    requires i % 4 == 0 && i + 4 <= m - m % 4
    requires Holds(K, y[..], vals) && Reached(K, vals, i, j, j + 1)
    modifies y
    ensures Holds(K, y[..], vals2) && Reached(K, vals2, i + 4, j, j + 1)
  {
    GroupBounds(K, n, i, j);
    var q := Addr(ao + i, lda, j);
    var areg := Mul(alphav, LoadU(a, q, W4));
    var ybase := Addr(yo, incy, i);
    var xbase := Addr(xo, incx, j);
    ghost var ys := y[..];
    assert LoadU(a, q, W4) == K.a[q..q + W4] && LoadU(y, ybase, W4) == ys[ybase..ybase + W4];
    assert x[xbase] == K.x[xbase];
    StoreU(y, ybase, Fmadd(areg, Broadcast(x[xbase], W4), Mul(betav, LoadU(y, ybase, W4))));
    vals2 := GroupStep(K, n, j, scale, i, q, ybase, xbase, ys, vals, y[..]);
  }

  /** One scalar step of the inner kernel: tail row `r` of column `j` gets
      `scale*y + (a*alpha)*x`. */
  method KernelRow(m: nat, alpha: real, a: array<real>, ao: nat, lda: nat, x: array<real>, xo: nat, incx: nat,
                   y: array<real>, yo: nat, incy: nat, scale: real, r: nat, j: nat,
                   ghost K: Kernel, ghost n: nat, ghost vals: seq<real>)
    returns (ghost vals2: seq<real>)
    requires y != a && y != x
    requires Binds(K, m, alpha, a[..], ao, lda, x[..], xo, incx, yo, incy)
    requires Valid(K, n) && j < n && scale == (if j == 0 then K.beta else 1.0)
    requires m - m % 4 <= r < m
    requires Holds(K, y[..], vals) && Reached(K, vals, r, j, j + 1)
    modifies y
    ensures Holds(K, y[..], vals2) && Reached(K, vals2, r + 1, j, j + 1)
  {
    ReadBounds(K, n, r, j);
    TailCell(K, r);
    var q := Addr(ao + r, lda, j);
    var areg := a[q] * alpha;
    var ybase := Addr(yo, incy, r);
    var xbase := Addr(xo, incx, j);
    ghost var ys := y[..];
    assert areg == K.a[q] * K.alpha && x[xbase] == K.x[xbase];
    ghost var value := scale * ys[ybase] + (K.a[q] * K.alpha) * K.x[xbase];
    y[ybase] := scale * y[ybase] + areg * x[xbase];
    assert y[ybase] == value;
    assert y[..] == ys[ybase := value];
    vals2 := RowStep(K, j, scale, r, q, ybase, xbase, ys, vals, value, y[..]);
  }

  /** One column of the inner kernel: the groups of four rows, then the tail
      rows. */
  method KernelColumn(m: nat, alpha: real, a: array<real>, ao: nat, lda: nat, x: array<real>, xo: nat, incx: nat,
                      y: array<real>, yo: nat, incy: nat, mMain: nat, alphav: seq<real>,
                      scale: real, j: nat, ghost K: Kernel, ghost n: nat, ghost vals: seq<real>)
    returns (ghost vals2: seq<real>)
    requires y != a && y != x
    requires Binds(K, m, alpha, a[..], ao, lda, x[..], xo, incx, yo, incy)
    requires Valid(K, n) && j < n && scale == (if j == 0 then K.beta else 1.0)
    requires alphav == Broadcast(alpha, W4) && mMain == m - m % 4
    requires Holds(K, y[..], vals) && Reached(K, vals, 0, j, j)
    modifies y
    ensures Holds(K, y[..], vals2) && Reached(K, vals2, 0, j + 1, j + 1)
  {
    var betav := Broadcast(scale, W4);
    vals2 := vals;
    var i := 0;
    while i < mMain
      invariant i % 4 == 0 && i <= mMain
      invariant Holds(K, y[..], vals2) && Reached(K, vals2, i, j, j + 1)
    {
      vals2 := KernelGroup(m, alpha, a, ao, lda, x, xo, incx, y, yo, incy, alphav, betav, scale, i, j, K, n, vals2);
      i := i + 4;
    }
    for r := mMain to m
      invariant Holds(K, y[..], vals2) && Reached(K, vals2, r, j, j + 1)
    {
      vals2 := KernelRow(m, alpha, a, ao, lda, x, xo, incx, y, yo, incy, scale, r, j, K, n, vals2);
    }
  }

  /** `inner_kernel`: one tile of `m` rows and `n` columns.  Unless there are no
      columns, every row's cell becomes `beta*y + alpha*(row . x)`; no other cell
      changes. */
  method InnerKernel(m: nat, n: nat, alpha: real, a: array<real>, ao: nat, lda: nat,
                     x: array<real>, xo: nat, incx: nat, beta: real, y: array<real>, yo: nat, incy: nat)
    requires y != a && y != x
    requires Valid(Kernel(m, alpha, beta, a[..], ao, lda, x[..], xo, incx, y[..], yo, incy), n)
    modifies y
    ensures Done(Kernel(m, alpha, beta, a[..], ao, lda, x[..], xo, incx, old(y[..]), yo, incy), y[..], n)
  {
    ghost var y0 := y[..];
    ghost var K := Kernel(m, alpha, beta, a[..], ao, lda, x[..], xo, incx, y0, yo, incy);
    ghost var vals := KernelStart(K);
    var mLeft := m % 4;
    var mMain := m - mLeft;
    var alphav := Broadcast(alpha, W4);
    var scale := beta;
    for j := 0 to n
      invariant scale == if j == 0 then beta else 1.0
      invariant Holds(K, y[..], vals) && Reached(K, vals, 0, j, j)
    {
      vals := KernelColumn(m, alpha, a, ao, lda, x, xo, incx, y, yo, incy, mMain, alphav, scale, j, K, n, vals);
      scale := 1.0;
    }
    KernelDone(K, n, y[..], vals);
  }

  /** `std::cmp::min`. */
  function Min(a: nat, b: nat): (r: nat)
    ensures r <= a && r <= b && (r == a || r == b)
  {
    if a <= b then a else b
  }

  /** The rows of the whole product before `i` have had `j2` columns, the
      others `j`; every cell no row updates is as it was. */
  predicate Progress(K: Kernel, ys: seq<real>, i: nat, j: nat, j2: nat)
  {
    && |ys| == |K.y0|
    && (forall g :: 0 <= g < K.m ==> At(ys, Cell(K, g)) == Target(K, g, if g < i then j2 else j))
    && (forall c :: 0 <= c < |ys| && Untouched(K.m, K.incy, K.yo, c) ==> ys[c] == K.y0[c])
  }

  /** The inner-kernel call of `dgemv` for the tile at rows `i ..` and columns
      `j ..` of the whole product `K`: `ib` rows, scale `scale`, and y as `ys`
      before the call.  The tile's matrix starts at `i + j*lda`, its x at
      `j*incx` and its y at `i*incy`. */
  function Tile(K: Kernel, i: nat, j: nat, ib: nat, scale: real, ys: seq<real>): Kernel
  {
    IndexMono(i, K.lda, 0, j);
    IndexMono(0, K.incx, 0, j);
    IndexMono(0, K.incy, 0, i);
    Kernel(ib, K.alpha, scale, K.a, Index(i, K.lda, j), K.lda, K.x, Index(0, K.incx, j), K.incx,
           ys, Index(0, K.incy, i), K.incy)
  }

  /** The tiles `dgemv` cuts: rows from a multiple of four, and either the last
      rows or a multiple of four of them. */
  predicate TileShape(K: Kernel, n: nat, i: nat, j: nat, ib: nat, jb: nat)
  {
    && K.ao == 0 && K.xo == 0 && K.yo == 0
    && i % 4 == 0 && 0 < ib && i + ib <= K.m && (ib == K.m - i || ib % 4 == 0)
    && 0 < jb && j + jb <= n
  }

  /** Row `r` of a tile is row `i + r` of the whole product, in the same cell. */
  lemma {:induction false} TileRowCell(K: Kernel, n: nat, i: nat, j: nat, ib: nat, jb: nat, scale: real, ys: seq<real>, r: nat)
    requires TileShape(K, n, i, j, ib, jb) && r < ib
    ensures Cell(Tile(K, i, j, ib, scale, ys), r) == Cell(K, i + r)
  {
    TileCell(K.m, K.incy, i, ib, r);
  }

  /** The last element of `a` a tile reads is in range. */
  lemma {:induction false} TileReadsA(K: Kernel, n: nat, i: nat, j: nat, ib: nat, jb: nat)
    requires Valid(K, n) && TileShape(K, n, i, j, ib, jb)
    ensures Index(Index(i, K.lda, j) + ib - 1, K.lda, jb - 1) < |K.a|
  {
    var last, col := i + ib - 1, j + jb - 1;
    assert Index(K.m - 1, K.lda, n - 1) < |K.a|;
    IndexBase(i, ib - 1, K.lda, j);
    IndexShift(last, K.lda, j, jb - 1);
    IndexBase(last, K.m - 1 - last, K.lda, col);
    IndexMono(K.m - 1, K.lda, col, n - 1);
  }

  /** The last element of x a tile reads is in range. */
  lemma {:induction false} TileReadsX(K: Kernel, n: nat, i: nat, j: nat, ib: nat, jb: nat)
    requires Valid(K, n) && TileShape(K, n, i, j, ib, jb)
    ensures Index(Index(0, K.incx, j), K.incx, jb - 1) < |K.x|
  {
    assert Index(0, K.incx, n - 1) < |K.x|;
    IndexShift(0, K.incx, j, jb - 1);
    IndexMono(0, K.incx, j + jb - 1, n - 1);
  }

  /** A tile of a call whose reads and writes stay in the buffers reads and
      writes inside the buffers too. */
  lemma {:induction false} TileValid(K: Kernel, n: nat, i: nat, j: nat, ib: nat, jb: nat, scale: real, ys: seq<real>)
    requires Valid(K, n) && TileShape(K, n, i, j, ib, jb) && |ys| == |K.y0|
    ensures Valid(Tile(K, i, j, ib, scale, ys), jb)
  {
    var T := Tile(K, i, j, ib, scale, ys);
    assert K.incy >= 1 && Cell(K, K.m - 1) < |K.y0|;
    TileReadsA(K, n, i, j, ib, jb);
    TileReadsX(K, n, i, j, ib, jb);
    TileRowCell(K, n, i, j, ib, jb, scale, ys, ib - 1);
    RowCellMax(K.m, K.incy, i + ib - 1);
  }

  /** A row of the whole product that is not in the tile has a cell that no
      row of the tile updates. */
  lemma {:induction false} TileMisses(K: Kernel, n: nat, i: nat, j: nat, ib: nat, jb: nat, scale: real, ys: seq<real>, g: nat)
    requires K.incy >= 1 && TileShape(K, n, i, j, ib, jb) && g < K.m && !(i <= g < i + ib)
    ensures Untouched(ib, K.incy, Index(0, K.incy, i), Cell(K, g))
  {
    var T := Tile(K, i, j, ib, scale, ys);
    forall r | 0 <= r < ib
      ensures T.yo + RowCell(ib, K.incy, r) != Cell(K, g)
    {
      TileRowCell(K, n, i, j, ib, jb, scale, ys, r);
      if g < i + r {
        RowCellLess(K.m, K.incy, g, i + r);
      } else {
        RowCellLess(K.m, K.incy, i + r, g);
      }
    }
  }

  /** A cell with `j` columns of row `g` of the whole product, given the next
      `jb` columns with scale beta on the first column block and 1 afterwards,
      has `j + jb` columns. */
  lemma {:induction false} BlockValue(K: Kernel, g: nat, j: nat, jb: nat, scale: real, v: real, ao: int, xo: int)
    requires K.ao == 0 && K.xo == 0 && 0 < jb
    requires scale == if j == 0 then K.beta else 1.0
    requires v == Target(K, g, j) && ao == Index(g, K.lda, j) && xo == Index(0, K.incx, j)
    ensures AfterColumns(scale, K.alpha, v, RowDot(K.a, ao, K.lda, K.x, xo, K.incx, jb), jb) == Target(K, g, j + jb)
  {
    RowDotSplit(K.a, g, K.lda, K.x, 0, K.incx, j, jb);
    BlockStep(K.beta, K.alpha, scale, At(K.y0, Cell(K, g)), RowDot(K.a, g, K.lda, K.x, 0, K.incx, j),
              RowDot(K.a, ao, K.lda, K.x, xo, K.incx, jb), j, jb);
  }

  /** Row `i + r` after the tile call: the tile's `jb` columns follow the `j`
      columns the row had before. */
  lemma {:induction false} TileValue(K: Kernel, n: nat, i: nat, j: nat, ib: nat, jb: nat, scale: real, ys: seq<real>, r: nat)
    requires TileShape(K, n, i, j, ib, jb) && r < ib
    requires scale == if j == 0 then K.beta else 1.0
    requires At(ys, Cell(K, i + r)) == Target(K, i + r, j)
    ensures Target(Tile(K, i, j, ib, scale, ys), r, jb) == Target(K, i + r, j + jb)
  {
    var T := Tile(K, i, j, ib, scale, ys);
    TileRowCell(K, n, i, j, ib, jb, scale, ys, r);
    IndexBase(i, r, K.lda, j);
    assert T.ao + r == Index(i + r, K.lda, j);
    BlockValue(K, i + r, j, jb, scale, At(ys, Cell(T, r)), T.ao + r, T.xo);
  }

  /** Row `g` of the whole product, inside the tile, has `jb` more columns
      after the call for the tile. */
  lemma {:induction false} TileRowIn(K: Kernel, n: nat, i: nat, j: nat, ib: nat, jb: nat, scale: real,
                                     ys: seq<real>, ys2: seq<real>, g: nat)
    requires TileShape(K, n, i, j, ib, jb) && i <= g < i + ib
    requires scale == if j == 0 then K.beta else 1.0
    requires At(ys, Cell(K, g)) == Target(K, g, j)
    requires At(ys2, Cell(Tile(K, i, j, ib, scale, ys), g - i)) == Target(Tile(K, i, j, ib, scale, ys), g - i, jb)
    ensures At(ys2, Cell(K, g)) == Target(K, g, j + jb)
  {
    TileRowCell(K, n, i, j, ib, jb, scale, ys, g - i);
    TileValue(K, n, i, j, ib, jb, scale, ys, g - i);
  }

  /** Row `g` of the whole product, outside the tile, is as it was after the
      call for the tile. */
  lemma {:induction false} TileRowOut(K: Kernel, n: nat, i: nat, j: nat, ib: nat, jb: nat, scale: real,
                                      ys: seq<real>, ys2: seq<real>, g: nat)
    requires Valid(K, n) && TileShape(K, n, i, j, ib, jb) && g < K.m && !(i <= g < i + ib)
    requires |ys2| == |ys| == |K.y0|
    requires forall c :: 0 <= c < |ys2| && Untouched(ib, K.incy, Index(0, K.incy, i), c) ==> ys2[c] == ys[c]
    ensures At(ys2, Cell(K, g)) == At(ys, Cell(K, g))
  {
    ReadBounds(K, n, g, 0);
    TileMisses(K, n, i, j, ib, jb, scale, ys, g);
  }

  /** A cell no row of the whole product updates is not updated by a tile. */
  lemma {:induction false} TileFrame(K: Kernel, n: nat, i: nat, j: nat, ib: nat, jb: nat, scale: real, ys: seq<real>, c: int)
    requires TileShape(K, n, i, j, ib, jb) && Untouched(K.m, K.incy, K.yo, c)
    ensures Untouched(ib, K.incy, Index(0, K.incy, i), c)
  {
    var T := Tile(K, i, j, ib, scale, ys);
    forall r | 0 <= r < ib
      ensures T.yo + RowCell(ib, K.incy, r) != c
    {
      TileRowCell(K, n, i, j, ib, jb, scale, ys, r);
    }
  }

  /** After the call for a tile, the tile's rows have `jb` more columns, and the
      other rows and the cells no row updates are as they were. */
  lemma {:induction false} TileStep(K: Kernel, n: nat, i: nat, j: nat, ib: nat, jb: nat, scale: real,
                                    ys: seq<real>, ys2: seq<real>)
    requires Valid(K, n) && TileShape(K, n, i, j, ib, jb)
    requires scale == if j == 0 then K.beta else 1.0
    requires Progress(K, ys, i, j, j + jb) && Done(Tile(K, i, j, ib, scale, ys), ys2, jb)
    ensures Progress(K, ys2, i + ib, j, j + jb)
  {
    forall g | 0 <= g < K.m
      ensures At(ys2, Cell(K, g)) == Target(K, g, if g < i + ib then j + jb else j)
    {
      if i <= g < i + ib {
        TileRowIn(K, n, i, j, ib, jb, scale, ys, ys2, g);
      } else {
        TileRowOut(K, n, i, j, ib, jb, scale, ys, ys2, g);
        assert At(ys, Cell(K, g)) == Target(K, g, if g < i then j + jb else j);
      }
    }
    forall c | 0 <= c < |ys2| && Untouched(K.m, K.incy, K.yo, c)
      ensures ys2[c] == K.y0[c]
    {
      TileFrame(K, n, i, j, ib, jb, scale, ys, c);
    }
  }

  /** MC is a multiple of four, so every row tile starts at a multiple of four. */
  lemma {:induction false} TileStart(i: nat)
    requires i % 4 == 0
    ensures (i + MC) % 4 == 0
  {
    assert i + MC == i + 4 * 64;
  }

  /** Before the first column every cell is as it was. */
  lemma {:induction false} DgemvStart(K: Kernel)
    ensures Done(K, K.y0, 0)
  {
  }

  /** A column block starts with every row at the same column. */
  lemma {:induction false} BlockStart(K: Kernel, ys: seq<real>, j: nat, j2: nat)
    requires Done(K, ys, j)
    ensures Progress(K, ys, 0, j, j2)
  {
  }

  /** A column block ends once every row has been through it. */
  lemma {:induction false} BlockEnd(K: Kernel, ys: seq<real>, i: nat, j: nat, j2: nat)
    requires Progress(K, ys, i, j, j2) && K.m <= i
    ensures Done(K, ys, j2)
  {
  }

  /** A call with no columns leaves y exactly as it was, whatever beta is. */
  lemma {:induction false} DoneNoColumns(K: Kernel, ys: seq<real>)
    requires Done(K, ys, 0)
    ensures ys == K.y0
  {
    forall c | 0 <= c < |ys|
      ensures ys[c] == K.y0[c]
    {
      if !Untouched(K.m, K.incy, K.yo, c) {
        var r :| 0 <= r < K.m && K.yo + RowCell(K.m, K.incy, r) == c;
        assert At(ys, Cell(K, r)) == Target(K, r, 0);
      }
    }
  }

  /** Every row of a call whose reads stay in the buffers reads in range, so
      `RowDotIsDot` applies to it. */
  lemma {:induction false} RowFits(K: Kernel, n: nat, r: nat)
    requires Valid(K, n) && r < K.m
    ensures Fits(|K.a|, K.ao + r, K.lda, n) && Fits(|K.x|, K.xo, K.incx, n)
  {
    var o := K.ao + r;
    forall c | 0 <= c < n
      ensures 0 <= Pos(o, K.lda, c) < |K.a|
    {
      ReadBounds(K, n, r, c);
      IndexIsPos(o, K.lda, c);
    }
    forall c | 0 <= c < n
      ensures 0 <= Pos(K.xo, K.incx, c) < |K.x|
    {
      ReadBounds(K, n, r, c);
      IndexIsPos(K.xo, K.incx, c);
    }
  }

  /** With unit stride, row `r` of a finished call is in cell `r`, which holds
      `beta*y[r] + alpha*(A[r, ..] . x)`. */
  lemma {:induction false} DoneUnitRow(K: Kernel, n: nat, ys: seq<real>, r: nat)
    requires Valid(K, n) && |ys| == |K.y0| && K.yo == 0 && K.incy == 1 && 0 < n && r < K.m
    requires At(ys, Cell(K, r)) == Target(K, r, n)
    ensures r < |ys| && ys[r] == K.beta * K.y0[r] + K.alpha * RowDot(K.a, K.ao + r, K.lda, K.x, K.xo, K.incx, n)
  {
    ReadBounds(K, n, r, 0);
    RowCellUnit(K.m, r);
    assert Cell(K, r) == r;
  }

  /** With unit stride, a finished call leaves `beta*y[r] + alpha*(A[r, ..] . x)`
      in cell `r` of every row `r`, and every later cell as it was. */
  lemma {:induction false} DoneUnitStride(K: Kernel, n: nat, ys: seq<real>)
    requires Valid(K, n) && Done(K, ys, n) && K.yo == 0 && K.incy == 1 && 0 < n
    ensures K.m <= |ys|
    ensures forall r :: 0 <= r < K.m ==>
              ys[r] == K.beta * K.y0[r] + K.alpha * RowDot(K.a, K.ao + r, K.lda, K.x, K.xo, K.incx, n)
    ensures forall c :: K.m <= c < |ys| ==> ys[c] == K.y0[c]
  {
    if K.m > 0 {
      DoneUnitRow(K, n, ys, K.m - 1);
    }
    forall r | 0 <= r < K.m
      ensures ys[r] == K.beta * K.y0[r] + K.alpha * RowDot(K.a, K.ao + r, K.lda, K.x, K.xo, K.incx, n)
    {
      DoneUnitRow(K, n, ys, r);
    }
    forall c | K.m <= c < |ys|
      ensures ys[c] == K.y0[c]
    {
      UntouchedUnit(K.m, c);
    }
  }

  /** One tile of `dgemv`: rows `i .. i + ib` and columns `j .. j + jb` go to
      the inner kernel, with the matrix at `i + j*lda`, x at `j*incx` and y at
      `i*incy`. */
  method DgemvTile(m: nat, n: nat, alpha: real, a: array<real>, lda: nat, x: array<real>, incx: nat,
                   scale: real, y: array<real>, incy: nat, i: nat, ib: nat, j: nat, jb: nat, ghost K: Kernel)
    requires y != a && y != x
    requires K == Kernel(m, alpha, K.beta, a[..], 0, lda, x[..], 0, incx, K.y0, 0, incy)
    requires Valid(K, n) && TileShape(K, n, i, j, ib, jb) && scale == (if j == 0 then K.beta else 1.0)
    requires Progress(K, y[..], i, j, j + jb)
    modifies y
    ensures Progress(K, y[..], i + ib, j, j + jb)
  {
    var ao := Addr(i, lda, j);
    var xo := Addr(0, incx, j);
    var yo := Addr(0, incy, i);
    ghost var ys := y[..];
    ghost var T := Tile(K, i, j, ib, scale, ys);
    TileValid(K, n, i, j, ib, jb, scale, ys);
    InnerKernel(ib, jb, alpha, a, ao, lda, x, xo, incx, scale, y, yo, incy);
    TileStep(K, n, i, j, ib, jb, scale, ys, y[..]);
  }

  /** One column block of `dgemv`: columns `j .. j + jb` of every row tile, each
      tile of at most MC rows going to the inner kernel with scale `scale`. */
  method DgemvBlock(m: nat, n: nat, alpha: real, a: array<real>, lda: nat, x: array<real>, incx: nat,
                    scale: real, y: array<real>, incy: nat, j: nat, jb: nat, ghost K: Kernel)
    requires y != a && y != x
    requires K == Kernel(m, alpha, K.beta, a[..], 0, lda, x[..], 0, incx, K.y0, 0, incy)
    requires Valid(K, n) && 0 < jb && j + jb <= n && scale == (if j == 0 then K.beta else 1.0)
    requires Done(K, y[..], j)
    modifies y
    ensures Done(K, y[..], j + jb)
  {
    BlockStart(K, y[..], j, j + jb);
    var i := 0;
    while i < m
      invariant i % 4 == 0
      invariant Progress(K, y[..], Min(i, m), j, j + jb)
    {
      var ib := Min(m - i, MC);
      TileStart(i);
      DgemvTile(m, n, alpha, a, lda, x, incx, scale, y, incy, i, ib, j, jb, K);
      i := i + MC;
    }
    BlockEnd(K, y[..], Min(i, m), j, j + jb);
  }

  /** `dgemv`: y := beta*y + alpha*A*x, the m-by-n matrix walked in tiles of at
      most MC rows by NC columns.  Unless there are no columns, every row's cell
      becomes `beta*y + alpha*(row . x)`; no other cell changes.  The `trans`
      flag is ignored, as in the code. */
  method Dgemv(trans: bool, m: nat, n: nat, alpha: real, a: array<real>, lda: nat, x: array<real>, incx: nat,
               beta: real, y: array<real>, incy: nat)
    requires y != a && y != x
    requires Valid(Kernel(m, alpha, beta, a[..], 0, lda, x[..], 0, incx, y[..], 0, incy), n)
    modifies y
    ensures Done(Kernel(m, alpha, beta, a[..], 0, lda, x[..], 0, incx, old(y[..]), 0, incy), y[..], n)
  {
    ghost var K := Kernel(m, alpha, beta, a[..], 0, lda, x[..], 0, incx, y[..], 0, incy);
    DgemvStart(K);
    var scale := beta;
    var j := 0;
    while j < n
      invariant scale == if j == 0 then beta else 1.0
      invariant Done(K, y[..], Min(j, n))
    {
      var jb := Min(n - j, NC);
      DgemvBlock(m, n, alpha, a, lda, x, incx, scale, y, incy, j, jb, K);
      scale := 1.0;
      j := j + NC;
    }
  }
}
