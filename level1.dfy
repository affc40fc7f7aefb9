/** The Level-1 vector kernels of src/level1.rs over the reals.

    Every kernel with a vectorized path takes it when all strides are 1: `n / STEP`
    blocks, each four 8-lane register operations on consecutive cells, followed by
    `n % STEP` scalar steps.  Otherwise it walks logical element `i` at offset
    `o + i*inc`.  Both paths are modelled, and every contract holds whichever path
    runs.  A writing kernel also returns, as a ghost value, the offsets it visited
    in the order it visited them. */
module Level1 {
  import opened Reals
  import opened Views
  import opened Lanes

  /** The unroll factor of the vectorized loops (the `unroll4!` macro). */
  const UNROLL: nat := 4
  /** Elements handled by one iteration of a vectorized loop: `8 * 4`. */
  const STEP: nat := 32

  // ---------------------------------------------------------------------------
  // What the kernels compute, on logical vectors

  /** `a*x_i` for every element. */
  function Scaled(a: real, v: seq<real>): (r: seq<real>)
    ensures |r| == |v|
    ensures forall i {:trigger r[i]} :: 0 <= i < |v| ==> r[i] == a * v[i]
  {
    seq(|v|, i requires 0 <= i < |v| => a * v[i])
  }

  /** `y_i + a*x_i` for every element. */
  function Axpy(a: real, xv: seq<real>, yv: seq<real>): (r: seq<real>)
    requires |xv| == |yv|
    ensures |r| == |yv|
    ensures forall i {:trigger r[i]} :: 0 <= i < |yv| ==> r[i] == yv[i] + a * xv[i]
  {
    seq(|yv|, i requires 0 <= i < |yv| => yv[i] + a * xv[i])
  }

  /** The first component of a plane rotation by `(c, s)`: `c*x + s*y`. */
  function RotX(c: real, s: real, x: real, y: real): real
  {
    c * x + s * y
  }

  /** The second component of a plane rotation by `(c, s)`: `c*y - s*x`. */
  function RotY(c: real, s: real, x: real, y: real): real
  {
    c * y - s * x
  }

  /** The new `x` of a rotation, computed from the old `x` and the old `y`. */
  function RotatedX(c: real, s: real, xv: seq<real>, yv: seq<real>): (r: seq<real>)
    requires |xv| == |yv|
    ensures |r| == |xv|
    ensures forall i {:trigger r[i]} :: 0 <= i < |xv| ==> r[i] == RotX(c, s, xv[i], yv[i])
  {
    seq(|xv|, i requires 0 <= i < |xv| => RotX(c, s, xv[i], yv[i]))
  }

  /** The new `y` of a rotation, computed from the old `x` and the old `y`. */
  function RotatedY(c: real, s: real, xv: seq<real>, yv: seq<real>): (r: seq<real>)
    requires |xv| == |yv|
    ensures |r| == |xv|
    ensures forall i {:trigger r[i]} :: 0 <= i < |xv| ==> r[i] == RotY(c, s, xv[i], yv[i])
  {
    seq(|xv|, i requires 0 <= i < |xv| => RotY(c, s, xv[i], yv[i]))
  }

  // ---------------------------------------------------------------------------
  // Writing kernels

  /** The vectorized loop covers `n / STEP` whole blocks, the scalar loop the
      `n % STEP` elements that remain. */
  lemma BlockSplit(n: nat) returns (full: nat)
    ensures full == n / STEP * 32 && full + n % STEP == n
  {
    full := n / STEP * 32;
  }

  /** Block `blk` of the vectorized loop ends inside the whole blocks. */
  lemma BlockInside(n: nat, blk: nat)
    requires blk < n / STEP
    ensures blk * 32 + 32 <= n / STEP * 32
  {
  }

  /** `srot`: `x_i, y_i := c*x_i + s*y_i, c*y_i - s*x_i`, both new values from the
      old ones (each step loads `x` and `y` before it stores either). */
  method Srot(n: nat, x: array<real>, ox: int, incx: int, y: array<real>, oy: int, incy: int, c: real, s: real)
    returns (ghost xVisited: seq<int>, ghost yVisited: seq<int>)
    requires x != y
    requires incx != 0 && Fits(x.Length, ox, incx, n)
    requires incy != 0 && Fits(y.Length, oy, incy, n)
    modifies x, y
    ensures x[..] == Scatter(old(x[..]), ox, incx,
      RotatedX(c, s, Gather(old(x[..]), ox, incx, n), Gather(old(y[..]), oy, incy, n)))
    ensures y[..] == Scatter(old(y[..]), oy, incy,
      RotatedY(c, s, Gather(old(x[..]), ox, incx, n), Gather(old(y[..]), oy, incy, n)))
    ensures xVisited == Offsets(ox, incx, n) && yVisited == Offsets(oy, incy, n)
  {
    if incx == 1 && incy == 1 {
      ghost var x0, y0 := x[..], y[..];
      FitsWithin(x.Length, ox, n);
      FitsWithin(y.Length, oy, n);
      xVisited, yVisited := SrotContiguous(n, x, ox, y, oy, c, s);
      ghost var gx, gy := Gather(x0, ox, 1, n), Gather(y0, oy, 1, n);
      SpliceIsScatter(x0, ox, RotatedX(c, s, gx, gy));
      SpliceIsScatter(y0, oy, RotatedY(c, s, gx, gy));
    } else {
      xVisited, yVisited := SrotStrided(n, x, ox, incx, y, oy, incy, c, s);
    }
  }

  /** The unit-stride path of `srot`: blocks of four 8-lane rotations, then a
      scalar tail.  The rotated vectors end up in cells `o .. o+n`, and no other
      cell changes. */
  method SrotContiguous(n: nat, x: array<real>, ox: int, y: array<real>, oy: int, c: real, s: real)
    returns (ghost xVisited: seq<int>, ghost yVisited: seq<int>)
    requires x != y
    requires Fits(x.Length, ox, 1, n) && Within(x.Length, ox, n) && Fits(y.Length, oy, 1, n) && Within(y.Length, oy, n)
    modifies x, y
    ensures x[..] == Splice(old(x[..]), ox,
      RotatedX(c, s, Gather(old(x[..]), ox, 1, n), Gather(old(y[..]), oy, 1, n)))
    ensures y[..] == Splice(old(y[..]), oy,
      RotatedY(c, s, Gather(old(x[..]), ox, 1, n), Gather(old(y[..]), oy, 1, n)))
    ensures xVisited == Offsets(ox, 1, n) && yVisited == Offsets(oy, 1, n)
  {
    ghost var x0, y0 := x[..], y[..];
    ghost var gx, gy := Gather(x0, ox, 1, n), Gather(y0, oy, 1, n);
    ghost var vx, vy := RotatedX(c, s, gx, gy), RotatedY(c, s, gx, gy);
    var px, py := ox, oy;
    ghost var k: nat := 0;
    xVisited, yVisited := [], [];
    ghost var full := BlockSplit(n);
    var cv := Broadcast(c, W8);
    var sv := Broadcast(s, W8);
    for blk := 0 to n / STEP
      invariant px == ox + k && py == oy + k && k == blk * 32 <= full
      invariant x[..] == Splice(x0, ox, vx[..k]) && y[..] == Splice(y0, oy, vy[..k])
      invariant xVisited == Offsets(ox, 1, k) && yVisited == Offsets(oy, 1, k)
    {
      BlockInside(n, blk);
      var xb, yb := SrotBlock(x, px, y, py, c, s, cv, sv, x0, ox, y0, oy, n, k);
      OffsetsRunUnit(ox, k, px, STEP);
      OffsetsRunUnit(oy, k, py, STEP);
      xVisited, yVisited := xVisited + xb, yVisited + yb;
      px, py, k := px + STEP, py + STEP, k + STEP;
    }
    var xt, yt := SrotTail(n, n % STEP, x, px, y, py, c, s, x0, ox, y0, oy, k);
    OffsetsRunUnit(ox, k, px, n % STEP);
    OffsetsRunUnit(oy, k, py, n % STEP);
    xVisited, yVisited := xVisited + xt, yVisited + yt;
  }

  /** The scalar tail of the unit-stride `srot` path: the `n % STEP` elements
      after the whole blocks, one at a time. */
  method SrotTail(n: nat, m: nat, x: array<real>, px: int, y: array<real>, py: int, c: real, s: real,
                  ghost x0: seq<real>, ghost ox: int, ghost y0: seq<real>, ghost oy: int,
                  ghost k: nat)
    returns (ghost xVisited: seq<int>, ghost yVisited: seq<int>)
    requires x != y
    requires Fits(|x0|, ox, 1, n) && Within(|x0|, ox, n) && Fits(|y0|, oy, 1, n) && Within(|y0|, oy, n)
    requires px == ox + k && py == oy + k && k + m == n
    requires x[..] == Splice(x0, ox, RotatedX(c, s, Gather(x0, ox, 1, n), Gather(y0, oy, 1, n))[..k])
    requires y[..] == Splice(y0, oy, RotatedY(c, s, Gather(x0, ox, 1, n), Gather(y0, oy, 1, n))[..k])
    modifies x, y
    ensures x[..] == Splice(x0, ox, RotatedX(c, s, Gather(x0, ox, 1, n), Gather(y0, oy, 1, n)))
    ensures y[..] == Splice(y0, oy, RotatedY(c, s, Gather(x0, ox, 1, n), Gather(y0, oy, 1, n)))
    ensures xVisited == Offsets(px, 1, m) && yVisited == Offsets(py, 1, m)
  {
    ghost var gx, gy := Gather(x0, ox, 1, n), Gather(y0, oy, 1, n);
    ghost var vx, vy := RotatedX(c, s, gx, gy), RotatedY(c, s, gx, gy);
    var qx, qy := px, py;
    xVisited, yVisited := [], [];
    for t := 0 to m
      invariant qx == px + t && qy == py + t
      invariant x[..] == Splice(x0, ox, vx[..k + t]) && y[..] == Splice(y0, oy, vy[..k + t])
      invariant xVisited == Offsets(px, 1, t) && yVisited == Offsets(py, 1, t)
    {
      SrotScalar(x, qx, y, qy, c, s, x0, ox, y0, oy, n, k + t);
      OffsetsPushUnit(px, t, qx);
      OffsetsPushUnit(py, t, qy);
      xVisited, yVisited := xVisited + [qx], yVisited + [qy];
      qx, qy := qx + 1, qy + 1;
    }
    SpliceAll(x0, ox, vx);
    SpliceAll(y0, oy, vy);
  }

  /** One iteration of the blocked `srot` loop: four 8-lane steps.  It extends the
      contiguous store of the rotated vectors by `STEP` elements. */
  method SrotBlock(x: array<real>, px: int, y: array<real>, py: int, c: real, s: real,
                   cv: seq<real>, sv: seq<real>,
                   ghost x0: seq<real>, ghost ox: int, ghost y0: seq<real>, ghost oy: int,
                   ghost n: nat, ghost k: nat)
    returns (ghost xVisited: seq<int>, ghost yVisited: seq<int>)
    requires x != y && cv == Broadcast(c, W8) && sv == Broadcast(s, W8)
    requires Fits(|x0|, ox, 1, n) && Within(|x0|, ox, n) && Fits(|y0|, oy, 1, n) && Within(|y0|, oy, n)
    requires px == ox + k && py == oy + k && k + STEP <= n
    requires x[..] == Splice(x0, ox, RotatedX(c, s, Gather(x0, ox, 1, n), Gather(y0, oy, 1, n))[..k])
    requires y[..] == Splice(y0, oy, RotatedY(c, s, Gather(x0, ox, 1, n), Gather(y0, oy, 1, n))[..k])
    modifies x, y
    ensures x[..] == Splice(x0, ox, RotatedX(c, s, Gather(x0, ox, 1, n), Gather(y0, oy, 1, n))[..k + STEP])
    ensures y[..] == Splice(y0, oy, RotatedY(c, s, Gather(x0, ox, 1, n), Gather(y0, oy, 1, n))[..k + STEP])
    ensures xVisited == Offsets(px, 1, STEP) && yVisited == Offsets(py, 1, STEP)
  {
    var qx, qy := px, py;
    ghost var j: nat := k;
    xVisited, yVisited := [], [];
    for u := 0 to UNROLL
      invariant j == k + u * 8 && qx == ox + j && qy == oy + j && qx == px + u * 8 && qy == py + u * 8
      invariant x[..] == Splice(x0, ox, RotatedX(c, s, Gather(x0, ox, 1, n), Gather(y0, oy, 1, n))[..j])
      invariant y[..] == Splice(y0, oy, RotatedY(c, s, Gather(x0, ox, 1, n), Gather(y0, oy, 1, n))[..j])
      invariant xVisited == Offsets(px, 1, u * 8) && yVisited == Offsets(py, 1, u * 8)
    {
      SrotLanes(x, qx, y, qy, c, s, cv, sv, x0, ox, y0, oy, n, j);
      OffsetsRunUnit(px, u * 8, qx, W8);
      OffsetsRunUnit(py, u * 8, qy, W8);
      xVisited, yVisited := xVisited + Offsets(qx, 1, W8), yVisited + Offsets(qy, 1, W8);
      qx, qy, j := qx + W8, qy + W8, j + W8;
    }
  }

  /** One 8-lane step of the unit-stride `srot` loop (the body of `unroll4!`):
      load 8 elements of each vector, store their rotations.  It extends the
      contiguous store of the rotated vectors by 8 elements. */
  method SrotLanes(x: array<real>, px: int, y: array<real>, py: int, c: real, s: real,
                   cv: seq<real>, sv: seq<real>,
                   ghost x0: seq<real>, ghost ox: int, ghost y0: seq<real>, ghost oy: int,
                   ghost n: nat, ghost k: nat)
    requires x != y && cv == Broadcast(c, W8) && sv == Broadcast(s, W8)
    requires Fits(|x0|, ox, 1, n) && Within(|x0|, ox, n) && Fits(|y0|, oy, 1, n) && Within(|y0|, oy, n)
    requires px == ox + k && py == oy + k && k + W8 <= n
    requires x[..] == Splice(x0, ox, RotatedX(c, s, Gather(x0, ox, 1, n), Gather(y0, oy, 1, n))[..k])
    requires y[..] == Splice(y0, oy, RotatedY(c, s, Gather(x0, ox, 1, n), Gather(y0, oy, 1, n))[..k])
    modifies x, y
    ensures x[..] == Splice(x0, ox, RotatedX(c, s, Gather(x0, ox, 1, n), Gather(y0, oy, 1, n))[..k + W8])
    ensures y[..] == Splice(y0, oy, RotatedY(c, s, Gather(x0, ox, 1, n), Gather(y0, oy, 1, n))[..k + W8])
  {
    ghost var gx, gy := Gather(x0, ox, 1, n), Gather(y0, oy, 1, n);
    ghost var vx, vy := RotatedX(c, s, gx, gy), RotatedY(c, s, gx, gy);
    SpliceLoad(x0, ox, vx, k, px, W8);
    SpliceLoad(y0, oy, vy, k, py, W8);
    var xv := LoadU(x, px, W8);
    var yv := LoadU(y, py, W8);
    var lx, ly := Fmadd(cv, xv, Mul(sv, yv)), Fmsub(cv, yv, Mul(sv, xv));
    RotBlock(c, s, gx, gy, k, W8);
    StoreRun(x, px, lx, x0, ox, vx, k);
    StoreRun(y, py, ly, y0, oy, vy, k);
  }

  /** A unit-stride store of `lanes` at `p == o + k`, where `lanes` are elements
      `k ..` of the vector `v` being written over the view at `o`: the written
      prefix of `v` grows by `|lanes|`. */
  method StoreRun(a: array<real>, p: int, lanes: seq<real>,
                  ghost s0: seq<real>, ghost o: int, ghost v: seq<real>, ghost k: nat)
    requires Within(|s0|, o, |v|) && 0 < |lanes| && k + |lanes| <= |v| && p == o + k
    requires lanes == v[k..k + |lanes|]
    requires a[..] == Splice(s0, o, v[..k])
    modifies a
    ensures a[..] == Splice(s0, o, v[..k + |lanes|])
  {
    SpliceBlock(s0, o, v, k, p, |lanes|);
    StoreU(a, p, lanes);
  }

  /** One step of the scalar tail of the unit-stride `srot` loop.  It extends the
      contiguous store of the rotated vectors by one element. */
  method SrotScalar(x: array<real>, px: int, y: array<real>, py: int, c: real, s: real,
                    ghost x0: seq<real>, ghost ox: int, ghost y0: seq<real>, ghost oy: int,
                    ghost n: nat, ghost k: nat)
    requires x != y
    requires Fits(|x0|, ox, 1, n) && Within(|x0|, ox, n) && Fits(|y0|, oy, 1, n) && Within(|y0|, oy, n)
    requires px == ox + k && py == oy + k && k < n
    requires x[..] == Splice(x0, ox, RotatedX(c, s, Gather(x0, ox, 1, n), Gather(y0, oy, 1, n))[..k])
    requires y[..] == Splice(y0, oy, RotatedY(c, s, Gather(x0, ox, 1, n), Gather(y0, oy, 1, n))[..k])
    modifies x, y
    ensures x[..] == Splice(x0, ox, RotatedX(c, s, Gather(x0, ox, 1, n), Gather(y0, oy, 1, n))[..k + 1])
    ensures y[..] == Splice(y0, oy, RotatedY(c, s, Gather(x0, ox, 1, n), Gather(y0, oy, 1, n))[..k + 1])
  {
    ghost var gx, gy := Gather(x0, ox, 1, n), Gather(y0, oy, 1, n);
    ghost var vx, vy := RotatedX(c, s, gx, gy), RotatedY(c, s, gx, gy);
    SpliceLoadOne(x0, ox, vx, k, px);
    SpliceLoadOne(y0, oy, vy, k, py);
    var xi := x[px];
    var yi := y[py];
    StoreOne(x, px, RotX(c, s, xi, yi), x0, ox, vx, k);
    StoreOne(y, py, RotY(c, s, xi, yi), y0, oy, vy, k);
  }

  /** A scalar store `*p = value` at `p == o + k`, where `value` is element `k`
      of the vector `v` being written over the view at `o`: the written prefix of
      `v` grows by one. */
  method StoreOne(a: array<real>, p: int, value: real,
                  ghost s0: seq<real>, ghost o: int, ghost v: seq<real>, ghost k: nat)
    requires Within(|s0|, o, |v|) && k < |v| && p == o + k && value == v[k]
    requires a[..] == Splice(s0, o, v[..k])
    modifies a
    ensures a[..] == Splice(s0, o, v[..k + 1])
  {
    SpliceStep(s0, o, v, k, p);
    a[p] := value;
  }

  /** One vectorized step of `srot` computes the next `w` elements of both
      rotated vectors. */
  lemma RotBlock(c: real, s: real, gx: seq<real>, gy: seq<real>, k: nat, w: nat)
    requires |gx| == |gy| && k + w <= |gx|
    ensures Fmadd(Broadcast(c, w), gx[k..k + w], Mul(Broadcast(s, w), gy[k..k + w]))
      == RotatedX(c, s, gx, gy)[k..k + w]
    ensures Fmsub(Broadcast(c, w), gy[k..k + w], Mul(Broadcast(s, w), gx[k..k + w]))
      == RotatedY(c, s, gx, gy)[k..k + w]
  {
    var xv, yv := gx[k..k + w], gy[k..k + w];
    var cv, sv := Broadcast(c, w), Broadcast(s, w);
    forall i | 0 <= i < w
      ensures Fmadd(cv, xv, Mul(sv, yv))[i] == RotatedX(c, s, gx, gy)[k + i]
      ensures Fmsub(cv, yv, Mul(sv, xv))[i] == RotatedY(c, s, gx, gy)[k + i]
    {
    }
  }

  /** The strided path of `srot`: logical element `i` at `ox + i*incx` and
      `oy + i*incy`. */
  method SrotStrided(n: nat, x: array<real>, ox: int, incx: int, y: array<real>, oy: int, incy: int, c: real, s: real)
    returns (ghost xVisited: seq<int>, ghost yVisited: seq<int>)
    requires x != y
    requires incx != 0 && Fits(x.Length, ox, incx, n)
    requires incy != 0 && Fits(y.Length, oy, incy, n)
    modifies x, y
    ensures x[..] == Scatter(old(x[..]), ox, incx,
      RotatedX(c, s, Gather(old(x[..]), ox, incx, n), Gather(old(y[..]), oy, incy, n)))
    ensures y[..] == Scatter(old(y[..]), oy, incy,
      RotatedY(c, s, Gather(old(x[..]), ox, incx, n), Gather(old(y[..]), oy, incy, n)))
    ensures xVisited == Offsets(ox, incx, n) && yVisited == Offsets(oy, incy, n)
  {
    ghost var x0, y0 := x[..], y[..];
    ghost var gx, gy := Gather(x0, ox, incx, n), Gather(y0, oy, incy, n);
    ghost var vx, vy := RotatedX(c, s, gx, gy), RotatedY(c, s, gx, gy);
    var px, py := ox, oy;
    xVisited, yVisited := [], [];
    for i := 0 to n
      invariant px == Pos(ox, incx, i) && py == Pos(oy, incy, i)
      invariant x[..] == Scatter(x0, ox, incx, vx[..i]) && y[..] == Scatter(y0, oy, incy, vy[..i])
      invariant xVisited == Offsets(ox, incx, i) && yVisited == Offsets(oy, incy, i)
    {
      ScatterStep(x0, ox, incx, vx, i);
      ScatterStep(y0, oy, incy, vy, i);
      var xi := x[px];
      var yi := y[py];
      assert xi == gx[i] && yi == gy[i];
      x[px] := RotX(c, s, xi, yi);
      y[py] := RotY(c, s, xi, yi);
      OffsetsStep(ox, incx, i);
      OffsetsStep(oy, incy, i);
      xVisited, yVisited := xVisited + [px], yVisited + [py];
      PosNext(ox, incx, i);
      PosNext(oy, incy, i);
      px, py := px + incx, py + incy;
    }
    assert vx[..n] == vx && vy[..n] == vy;
  }

  /** `sswap`: `x_i, y_i := y_i, x_i` for every `i < n`. */
  method Sswap(n: nat, x: array<real>, ox: int, incx: int, y: array<real>, oy: int, incy: int)
    returns (ghost xVisited: seq<int>, ghost yVisited: seq<int>)
    requires x != y
    requires incx != 0 && Fits(x.Length, ox, incx, n)
    requires incy != 0 && Fits(y.Length, oy, incy, n)
    modifies x, y
    ensures x[..] == Scatter(old(x[..]), ox, incx, Gather(old(y[..]), oy, incy, n))
    ensures y[..] == Scatter(old(y[..]), oy, incy, Gather(old(x[..]), ox, incx, n))
    ensures xVisited == Offsets(ox, incx, n) && yVisited == Offsets(oy, incy, n)
  {
    if incx == 1 && incy == 1 {
      ghost var x0, y0 := x[..], y[..];
      FitsWithin(x.Length, ox, n);
      FitsWithin(y.Length, oy, n);
      xVisited, yVisited := SswapContiguous(n, x, ox, y, oy);
      SpliceIsScatter(x0, ox, Gather(y0, oy, 1, n));
      SpliceIsScatter(y0, oy, Gather(x0, ox, 1, n));
    } else {
      xVisited, yVisited := SswapStrided(n, x, ox, incx, y, oy, incy);
    }
  }

  /** The unit-stride path of `sswap`: blocks of four 8-lane exchanges, then a
      scalar tail.  Each vector ends up holding the other's old `n` elements in
      its cells `o .. o+n`, and no other cell changes. */
  method SswapContiguous(n: nat, x: array<real>, ox: int, y: array<real>, oy: int)
    returns (ghost xVisited: seq<int>, ghost yVisited: seq<int>)
    requires x != y
    requires Fits(x.Length, ox, 1, n) && Within(x.Length, ox, n) && Fits(y.Length, oy, 1, n) && Within(y.Length, oy, n)
    modifies x, y
    ensures x[..] == Splice(old(x[..]), ox, Gather(old(y[..]), oy, 1, n))
    ensures y[..] == Splice(old(y[..]), oy, Gather(old(x[..]), ox, 1, n))
    ensures xVisited == Offsets(ox, 1, n) && yVisited == Offsets(oy, 1, n)
  {
    ghost var x0, y0 := x[..], y[..];
    ghost var gx, gy := Gather(x0, ox, 1, n), Gather(y0, oy, 1, n);
    var px, py := ox, oy;
    ghost var k: nat := 0;
    xVisited, yVisited := [], [];
    ghost var full := BlockSplit(n);
    for blk := 0 to n / STEP
      invariant px == ox + k && py == oy + k && k == blk * 32 <= full
      invariant x[..] == Splice(x0, ox, gy[..k]) && y[..] == Splice(y0, oy, gx[..k])
      invariant xVisited == Offsets(ox, 1, k) && yVisited == Offsets(oy, 1, k)
    {
      BlockInside(n, blk);
      var xb, yb := SswapBlock(x, px, y, py, x0, ox, y0, oy, n, k);
      OffsetsRunUnit(ox, k, px, STEP);
      OffsetsRunUnit(oy, k, py, STEP);
      xVisited, yVisited := xVisited + xb, yVisited + yb;
      px, py, k := px + STEP, py + STEP, k + STEP;
    }
    var xt, yt := SswapTail(n, n % STEP, x, px, y, py, x0, ox, y0, oy, k);
    OffsetsRunUnit(ox, k, px, n % STEP);
    OffsetsRunUnit(oy, k, py, n % STEP);
    xVisited, yVisited := xVisited + xt, yVisited + yt;
  }

  /** One iteration of the blocked `sswap` loop: four 8-lane exchanges. */
  method SswapBlock(x: array<real>, px: int, y: array<real>, py: int,
                    ghost x0: seq<real>, ghost ox: int, ghost y0: seq<real>, ghost oy: int,
                    ghost n: nat, ghost k: nat)
    returns (ghost xVisited: seq<int>, ghost yVisited: seq<int>)
    requires x != y
    requires Fits(|x0|, ox, 1, n) && Within(|x0|, ox, n) && Fits(|y0|, oy, 1, n) && Within(|y0|, oy, n)
    requires px == ox + k && py == oy + k && k + STEP <= n
    requires x[..] == Splice(x0, ox, Gather(y0, oy, 1, n)[..k])
    requires y[..] == Splice(y0, oy, Gather(x0, ox, 1, n)[..k])
    modifies x, y
    ensures x[..] == Splice(x0, ox, Gather(y0, oy, 1, n)[..k + STEP])
    ensures y[..] == Splice(y0, oy, Gather(x0, ox, 1, n)[..k + STEP])
    ensures xVisited == Offsets(px, 1, STEP) && yVisited == Offsets(py, 1, STEP)
  {
    var qx, qy := px, py;
    ghost var j: nat := k;
    xVisited, yVisited := [], [];
    for u := 0 to UNROLL
      invariant j == k + u * 8 && qx == ox + j && qy == oy + j && qx == px + u * 8 && qy == py + u * 8
      invariant x[..] == Splice(x0, ox, Gather(y0, oy, 1, n)[..j])
      invariant y[..] == Splice(y0, oy, Gather(x0, ox, 1, n)[..j])
      invariant xVisited == Offsets(px, 1, u * 8) && yVisited == Offsets(py, 1, u * 8)
    {
      SswapLanes(x, qx, y, qy, x0, ox, y0, oy, n, j);
      OffsetsRunUnit(px, u * 8, qx, W8);
      OffsetsRunUnit(py, u * 8, qy, W8);
      xVisited, yVisited := xVisited + Offsets(qx, 1, W8), yVisited + Offsets(qy, 1, W8);
      qx, qy, j := qx + W8, qy + W8, j + W8;
    }
  }

  /** One 8-lane step of the unit-stride `sswap` loop: load 8 elements of each
      vector, store each register into the other vector. */
  method SswapLanes(x: array<real>, px: int, y: array<real>, py: int,
                    ghost x0: seq<real>, ghost ox: int, ghost y0: seq<real>, ghost oy: int,
                    ghost n: nat, ghost k: nat)
    requires x != y
    requires Fits(|x0|, ox, 1, n) && Within(|x0|, ox, n) && Fits(|y0|, oy, 1, n) && Within(|y0|, oy, n)
    requires px == ox + k && py == oy + k && k + W8 <= n
    requires x[..] == Splice(x0, ox, Gather(y0, oy, 1, n)[..k])
    requires y[..] == Splice(y0, oy, Gather(x0, ox, 1, n)[..k])
    modifies x, y
    ensures x[..] == Splice(x0, ox, Gather(y0, oy, 1, n)[..k + W8])
    ensures y[..] == Splice(y0, oy, Gather(x0, ox, 1, n)[..k + W8])
  {
    ghost var gx, gy := Gather(x0, ox, 1, n), Gather(y0, oy, 1, n);
    SpliceLoad(x0, ox, gy, k, px, W8);
    SpliceLoad(y0, oy, gx, k, py, W8);
    var xv := LoadU(x, px, W8);
    var yv := LoadU(y, py, W8);
    StoreRun(x, px, yv, x0, ox, gy, k);
    StoreRun(y, py, xv, y0, oy, gx, k);
  }

  /** The scalar tail of the unit-stride `sswap` path: the `n % STEP` elements
      after the whole blocks, one at a time. */
  method SswapTail(n: nat, m: nat, x: array<real>, px: int, y: array<real>, py: int,
                   ghost x0: seq<real>, ghost ox: int, ghost y0: seq<real>, ghost oy: int,
                   ghost k: nat)
    returns (ghost xVisited: seq<int>, ghost yVisited: seq<int>)
    requires x != y
    requires Fits(|x0|, ox, 1, n) && Within(|x0|, ox, n) && Fits(|y0|, oy, 1, n) && Within(|y0|, oy, n)
    requires px == ox + k && py == oy + k && k + m == n
    requires x[..] == Splice(x0, ox, Gather(y0, oy, 1, n)[..k])
    requires y[..] == Splice(y0, oy, Gather(x0, ox, 1, n)[..k])
    modifies x, y
    ensures x[..] == Splice(x0, ox, Gather(y0, oy, 1, n))
    ensures y[..] == Splice(y0, oy, Gather(x0, ox, 1, n))
    ensures xVisited == Offsets(px, 1, m) && yVisited == Offsets(py, 1, m)
  {
    var qx, qy := px, py;
    xVisited, yVisited := [], [];
    for t := 0 to m
      invariant qx == px + t && qy == py + t
      invariant x[..] == Splice(x0, ox, Gather(y0, oy, 1, n)[..k + t])
      invariant y[..] == Splice(y0, oy, Gather(x0, ox, 1, n)[..k + t])
      invariant xVisited == Offsets(px, 1, t) && yVisited == Offsets(py, 1, t)
    {
      SswapScalar(x, qx, y, qy, x0, ox, y0, oy, n, k + t);
      OffsetsPushUnit(px, t, qx);
      OffsetsPushUnit(py, t, qy);
      xVisited, yVisited := xVisited + [qx], yVisited + [qy];
      qx, qy := qx + 1, qy + 1;
    }
    SpliceAll(x0, ox, Gather(y0, oy, 1, n));
    SpliceAll(y0, oy, Gather(x0, ox, 1, n));
  }

  /** One step of the scalar tail of the unit-stride `sswap` loop. */
  method SswapScalar(x: array<real>, px: int, y: array<real>, py: int,
                     ghost x0: seq<real>, ghost ox: int, ghost y0: seq<real>, ghost oy: int,
                     ghost n: nat, ghost k: nat)
    requires x != y
    requires Fits(|x0|, ox, 1, n) && Within(|x0|, ox, n) && Fits(|y0|, oy, 1, n) && Within(|y0|, oy, n)
    requires px == ox + k && py == oy + k && k < n
    requires x[..] == Splice(x0, ox, Gather(y0, oy, 1, n)[..k])
    requires y[..] == Splice(y0, oy, Gather(x0, ox, 1, n)[..k])
    modifies x, y
    ensures x[..] == Splice(x0, ox, Gather(y0, oy, 1, n)[..k + 1])
    ensures y[..] == Splice(y0, oy, Gather(x0, ox, 1, n)[..k + 1])
  {
    ghost var gx, gy := Gather(x0, ox, 1, n), Gather(y0, oy, 1, n);
    SpliceLoadOne(x0, ox, gy, k, px);
    SpliceLoadOne(y0, oy, gx, k, py);
    var xi := x[px];
    var yi := y[py];
    StoreOne(x, px, yi, x0, ox, gy, k);
    StoreOne(y, py, xi, y0, oy, gx, k);
  }

  /** The strided path of `sswap`. */
  method SswapStrided(n: nat, x: array<real>, ox: int, incx: int, y: array<real>, oy: int, incy: int)
    returns (ghost xVisited: seq<int>, ghost yVisited: seq<int>)
    requires x != y
    requires incx != 0 && Fits(x.Length, ox, incx, n)
    requires incy != 0 && Fits(y.Length, oy, incy, n)
    modifies x, y
    ensures x[..] == Scatter(old(x[..]), ox, incx, Gather(old(y[..]), oy, incy, n))
    ensures y[..] == Scatter(old(y[..]), oy, incy, Gather(old(x[..]), ox, incx, n))
    ensures xVisited == Offsets(ox, incx, n) && yVisited == Offsets(oy, incy, n)
  {
    ghost var x0, y0 := x[..], y[..];
    ghost var gx, gy := Gather(x0, ox, incx, n), Gather(y0, oy, incy, n);
    var px, py := ox, oy;
    xVisited, yVisited := [], [];
    for i := 0 to n
      invariant px == Pos(ox, incx, i) && py == Pos(oy, incy, i)
      invariant x[..] == Scatter(x0, ox, incx, gy[..i]) && y[..] == Scatter(y0, oy, incy, gx[..i])
      invariant xVisited == Offsets(ox, incx, i) && yVisited == Offsets(oy, incy, i)
    {
      ScatterStep(x0, ox, incx, gy, i);
      ScatterStep(y0, oy, incy, gx, i);
      var xi := x[px];
      var yi := y[py];
      assert xi == gx[i] && yi == gy[i];
      x[px] := yi;
      y[py] := xi;
      OffsetsStep(ox, incx, i);
      OffsetsStep(oy, incy, i);
      xVisited, yVisited := xVisited + [px], yVisited + [py];
      PosNext(ox, incx, i);
      PosNext(oy, incy, i);
      px, py := px + incx, py + incy;
    }
    assert gx[..n] == gx && gy[..n] == gy;
  }

  /** `sscal`: `x_i := a*x_i` for every `i < n`. */
  method Sscal(n: nat, a: real, x: array<real>, ox: int, incx: int) returns (ghost visited: seq<int>)
    requires incx != 0 && Fits(x.Length, ox, incx, n)
    modifies x
    ensures x[..] == Scatter(old(x[..]), ox, incx, Scaled(a, Gather(old(x[..]), ox, incx, n)))
    ensures visited == Offsets(ox, incx, n)
  {
    if incx == 1 {
      ghost var x0 := x[..];
      FitsWithin(x.Length, ox, n);
      visited := SscalContiguous(n, a, x, ox);
      SpliceIsScatter(x0, ox, Scaled(a, Gather(x0, ox, 1, n)));
    } else {
      visited := SscalStrided(n, a, x, ox, incx);
    }
  }

  /** The unit-stride path of `sscal`: blocks of four 8-lane products, then a
      scalar tail.  The scaled vector ends up in cells `o .. o+n`, and no other
      cell changes. */
  method SscalContiguous(n: nat, a: real, x: array<real>, ox: int) returns (ghost visited: seq<int>)
    requires Fits(x.Length, ox, 1, n) && Within(x.Length, ox, n)
    modifies x
    ensures x[..] == Splice(old(x[..]), ox, Scaled(a, Gather(old(x[..]), ox, 1, n)))
    ensures visited == Offsets(ox, 1, n)
  {
    ghost var x0 := x[..];
    ghost var vx := Scaled(a, Gather(x0, ox, 1, n));
    var px := ox;
    ghost var k: nat := 0;
    visited := [];
    ghost var full := BlockSplit(n);
    var av := Broadcast(a, W8);
    for blk := 0 to n / STEP
      invariant px == ox + k && k == blk * 32 <= full
      invariant x[..] == Splice(x0, ox, vx[..k])
      invariant visited == Offsets(ox, 1, k)
    {
      BlockInside(n, blk);
      var b := SscalBlock(x, px, a, av, x0, ox, n, k);
      OffsetsRunUnit(ox, k, px, STEP);
      visited := visited + b;
      px, k := px + STEP, k + STEP;
    }
    var t := SscalTail(n, n % STEP, x, px, a, x0, ox, k);
    OffsetsRunUnit(ox, k, px, n % STEP);
    visited := visited + t;
  }

  /** One iteration of the blocked `sscal` loop: four 8-lane products. */
  method SscalBlock(x: array<real>, px: int, a: real, av: seq<real>,
                    ghost x0: seq<real>, ghost ox: int, ghost n: nat, ghost k: nat)
    returns (ghost visited: seq<int>)
    requires av == Broadcast(a, W8) && Fits(|x0|, ox, 1, n) && Within(|x0|, ox, n)
    requires px == ox + k && k + STEP <= n
    requires x[..] == Splice(x0, ox, Scaled(a, Gather(x0, ox, 1, n))[..k])
    modifies x
    ensures x[..] == Splice(x0, ox, Scaled(a, Gather(x0, ox, 1, n))[..k + STEP])
    ensures visited == Offsets(px, 1, STEP)
  {
    var q := px;
    visited := [];
    for u := 0 to UNROLL
      invariant q == px + u * 8
      invariant x[..] == Splice(x0, ox, Scaled(a, Gather(x0, ox, 1, n))[..k + u * 8])
      invariant visited == Offsets(px, 1, u * 8)
    {
      SscalLanes(x, q, a, av, x0, ox, n, k + u * 8);
      OffsetsRunUnit(px, u * 8, q, W8);
      visited := visited + Offsets(q, 1, W8);
      q := q + W8;
    }
  }

  /** One 8-lane step of the unit-stride `sscal` loop: load 8 elements, store
      their products with `a`. */
  method SscalLanes(x: array<real>, px: int, a: real, av: seq<real>,
                    ghost x0: seq<real>, ghost ox: int, ghost n: nat, ghost k: nat)
    requires av == Broadcast(a, W8) && Fits(|x0|, ox, 1, n) && Within(|x0|, ox, n)
    requires px == ox + k && k + W8 <= n
    requires x[..] == Splice(x0, ox, Scaled(a, Gather(x0, ox, 1, n))[..k])
    modifies x
    ensures x[..] == Splice(x0, ox, Scaled(a, Gather(x0, ox, 1, n))[..k + W8])
  {
    ghost var gx := Gather(x0, ox, 1, n);
    ghost var vx := Scaled(a, gx);
    SpliceLoad(x0, ox, vx, k, px, W8);
    var xv := LoadU(x, px, W8);
    ScaleBlock(a, gx, k, W8);
    StoreRun(x, px, Mul(av, xv), x0, ox, vx, k);
  }

  /** One vectorized step of `sscal` computes the next `w` elements of the
      scaled vector. */
  lemma ScaleBlock(a: real, gx: seq<real>, k: nat, w: nat)
    requires k + w <= |gx|
    ensures Mul(Broadcast(a, w), gx[k..k + w]) == Scaled(a, gx)[k..k + w]
  {
    var xv, av := gx[k..k + w], Broadcast(a, w);
    forall i | 0 <= i < w
      ensures Mul(av, xv)[i] == Scaled(a, gx)[k + i]
    {
    }
  }

  /** The scalar form of `ScaleBlock`: `x_i * a`, as the scalar loops compute it,
      is element `i` of the scaled vector. */
  lemma ScaleAt(a: real, gx: seq<real>, i: nat, xi: real)
    requires i < |gx| && xi == gx[i]
    ensures xi * a == Scaled(a, gx)[i]
  {
  }

  /** The scalar tail of the unit-stride `sscal` path. */
  method SscalTail(n: nat, m: nat, x: array<real>, px: int, a: real,
                   ghost x0: seq<real>, ghost ox: int, ghost k: nat)
    returns (ghost visited: seq<int>)
    requires Fits(|x0|, ox, 1, n) && Within(|x0|, ox, n)
    requires px == ox + k && k + m == n
    requires x[..] == Splice(x0, ox, Scaled(a, Gather(x0, ox, 1, n))[..k])
    modifies x
    ensures x[..] == Splice(x0, ox, Scaled(a, Gather(x0, ox, 1, n)))
    ensures visited == Offsets(px, 1, m)
  {
    ghost var vx := Scaled(a, Gather(x0, ox, 1, n));
    var q := px;
    visited := [];
    for t := 0 to m
      invariant q == px + t
      invariant x[..] == Splice(x0, ox, vx[..k + t])
      invariant visited == Offsets(px, 1, t)
    {
      SscalScalar(x, q, a, x0, ox, n, k + t);
      OffsetsPushUnit(px, t, q);
      visited := visited + [q];
      q := q + 1;
    }
    SpliceAll(x0, ox, vx);
  }

  /** One step of the scalar tail of the unit-stride `sscal` loop: `*x *= a`. */
  method SscalScalar(x: array<real>, px: int, a: real,
                     ghost x0: seq<real>, ghost ox: int, ghost n: nat, ghost k: nat)
    requires Fits(|x0|, ox, 1, n) && Within(|x0|, ox, n)
    requires px == ox + k && k < n
    requires x[..] == Splice(x0, ox, Scaled(a, Gather(x0, ox, 1, n))[..k])
    modifies x
    ensures x[..] == Splice(x0, ox, Scaled(a, Gather(x0, ox, 1, n))[..k + 1])
  {
    ghost var vx := Scaled(a, Gather(x0, ox, 1, n));
    SpliceLoadOne(x0, ox, vx, k, px);
    var xi := x[px];
    ScaleAt(a, Gather(x0, ox, 1, n), k, xi);
    StoreOne(x, px, xi * a, x0, ox, vx, k);
  }

  /** The strided path of `sscal`. */
  method SscalStrided(n: nat, a: real, x: array<real>, ox: int, incx: int) returns (ghost visited: seq<int>)
    requires incx != 0 && Fits(x.Length, ox, incx, n)
    modifies x
    ensures x[..] == Scatter(old(x[..]), ox, incx, Scaled(a, Gather(old(x[..]), ox, incx, n)))
    ensures visited == Offsets(ox, incx, n)
  {
    ghost var x0 := x[..];
    ghost var gx := Gather(x0, ox, incx, n);
    ghost var vx := Scaled(a, gx);
    var px := ox;
    visited := [];
    for i := 0 to n
      invariant px == Pos(ox, incx, i)
      invariant x[..] == Scatter(x0, ox, incx, vx[..i])
      invariant visited == Offsets(ox, incx, i)
    {
      ScatterStep(x0, ox, incx, vx, i);
      var xi := x[px];
      assert xi == gx[i];
      ScaleAt(a, gx, i, xi);
      x[px] := xi * a;
      OffsetsStep(ox, incx, i);
      visited := visited + [px];
      PosNext(ox, incx, i);
      px := px + incx;
    }
    assert vx[..n] == vx;
  }

  /** `scopy`: `y_i := x_i` for every `i < n`; `x` is only read. */
  method Scopy(n: nat, x: array<real>, ox: int, incx: int, y: array<real>, oy: int, incy: int)
    returns (ghost yVisited: seq<int>)
    requires x != y
    requires Fits(x.Length, ox, incx, n)
    requires incy != 0 && Fits(y.Length, oy, incy, n)
    modifies y
    ensures y[..] == Scatter(old(y[..]), oy, incy, Gather(x[..], ox, incx, n))
    ensures x[..] == old(x[..])
    ensures yVisited == Offsets(oy, incy, n)
  {
    if incx == 1 && incy == 1 {
      ghost var y0 := y[..];
      FitsWithin(x.Length, ox, n);
      FitsWithin(y.Length, oy, n);
      yVisited := ScopyContiguous(n, x, ox, y, oy);
      SpliceIsScatter(y0, oy, Gather(x[..], ox, 1, n));
    } else {
      yVisited := ScopyStrided(n, x, ox, incx, y, oy, incy);
    }
  }

  /** The unit-stride path of `scopy`: blocks of four 8-lane copies, then a
      scalar tail. */
  method ScopyContiguous(n: nat, x: array<real>, ox: int, y: array<real>, oy: int)
    returns (ghost yVisited: seq<int>)
    requires x != y
    requires Fits(x.Length, ox, 1, n) && Within(x.Length, ox, n) && Fits(y.Length, oy, 1, n) && Within(y.Length, oy, n)
    modifies y
    ensures y[..] == Splice(old(y[..]), oy, Gather(x[..], ox, 1, n))
    ensures yVisited == Offsets(oy, 1, n)
  {
    ghost var xs, y0 := x[..], y[..];
    ghost var gx := Gather(xs, ox, 1, n);
    var px, py := ox, oy;
    ghost var k: nat := 0;
    yVisited := [];
    ghost var full := BlockSplit(n);
    for blk := 0 to n / STEP
      invariant px == ox + k && py == oy + k && k == blk * 32 <= full
      invariant y[..] == Splice(y0, oy, gx[..k]) && x[..] == xs
      invariant yVisited == Offsets(oy, 1, k)
    {
      BlockInside(n, blk);
      var yb := ScopyBlock(x, px, y, py, xs, ox, y0, oy, n, k);
      OffsetsRunUnit(oy, k, py, STEP);
      yVisited := yVisited + yb;
      px, py, k := px + STEP, py + STEP, k + STEP;
    }
    var yt := ScopyTail(n, n % STEP, x, px, y, py, xs, ox, y0, oy, k);
    OffsetsRunUnit(oy, k, py, n % STEP);
    yVisited := yVisited + yt;
  }

  /** One iteration of the blocked `scopy` loop: four 8-lane copies. */
  method ScopyBlock(x: array<real>, px: int, y: array<real>, py: int,
                    ghost xs: seq<real>, ghost ox: int, ghost y0: seq<real>, ghost oy: int,
                    ghost n: nat, ghost k: nat)
    returns (ghost yVisited: seq<int>)
    requires x != y && x[..] == xs
    requires Fits(|xs|, ox, 1, n) && Fits(|y0|, oy, 1, n) && Within(|y0|, oy, n)
    requires px == ox + k && py == oy + k && k + STEP <= n
    requires y[..] == Splice(y0, oy, Gather(xs, ox, 1, n)[..k])
    modifies y
    ensures y[..] == Splice(y0, oy, Gather(xs, ox, 1, n)[..k + STEP])
    ensures yVisited == Offsets(py, 1, STEP)
  {
    var qx, qy := px, py;
    yVisited := [];
    for u := 0 to UNROLL
      invariant qx == px + u * 8 && qy == py + u * 8
      invariant y[..] == Splice(y0, oy, Gather(xs, ox, 1, n)[..k + u * 8])
      invariant yVisited == Offsets(py, 1, u * 8)
    {
      ScopyLanes(x, qx, y, qy, xs, ox, y0, oy, n, k + u * 8);
      OffsetsRunUnit(py, u * 8, qy, W8);
      yVisited := yVisited + Offsets(qy, 1, W8);
      qx, qy := qx + W8, qy + W8;
    }
  }

  /** One 8-lane step of the unit-stride `scopy` loop: load 8 elements of `x`,
      store them into `y`. */
  method ScopyLanes(x: array<real>, px: int, y: array<real>, py: int,
                    ghost xs: seq<real>, ghost ox: int, ghost y0: seq<real>, ghost oy: int,
                    ghost n: nat, ghost k: nat)
    requires x != y && x[..] == xs
    requires Fits(|xs|, ox, 1, n) && Fits(|y0|, oy, 1, n) && Within(|y0|, oy, n)
    requires px == ox + k && py == oy + k && k + W8 <= n
    requires y[..] == Splice(y0, oy, Gather(xs, ox, 1, n)[..k])
    modifies y
    ensures y[..] == Splice(y0, oy, Gather(xs, ox, 1, n)[..k + W8])
  {
    GatherUnitRun(xs, ox, n, k, px, W8);
    var xv := LoadU(x, px, W8);
    StoreRun(y, py, xv, y0, oy, Gather(xs, ox, 1, n), k);
  }

  /** The scalar tail of the unit-stride `scopy` path. */
  method ScopyTail(n: nat, m: nat, x: array<real>, px: int, y: array<real>, py: int,
                  ghost xs: seq<real>, ghost ox: int, ghost y0: seq<real>, ghost oy: int,
                  ghost k: nat)
    returns (ghost yVisited: seq<int>)
    requires x != y && x[..] == xs
    requires Fits(|xs|, ox, 1, n) && Fits(|y0|, oy, 1, n) && Within(|y0|, oy, n)
    requires px == ox + k && py == oy + k && k + m == n
    requires y[..] == Splice(y0, oy, Gather(xs, ox, 1, n)[..k])
    modifies y
    ensures y[..] == Splice(y0, oy, Gather(xs, ox, 1, n))
    ensures yVisited == Offsets(py, 1, m)
  {
    ghost var gx := Gather(xs, ox, 1, n);
    var qx, qy := px, py;
    yVisited := [];
    for t := 0 to m
      invariant qx == px + t && qy == py + t
      invariant y[..] == Splice(y0, oy, gx[..k + t])
      invariant yVisited == Offsets(py, 1, t)
    {
      ScopyScalar(x, qx, y, qy, xs, ox, y0, oy, n, k + t);
      OffsetsPushUnit(py, t, qy);
      yVisited := yVisited + [qy];
      qx, qy := qx + 1, qy + 1;
    }
    SpliceAll(y0, oy, gx);
  }

  /** One step of the scalar tail of the unit-stride `scopy` loop: `*y = *x`. */
  method ScopyScalar(x: array<real>, px: int, y: array<real>, py: int,
                     ghost xs: seq<real>, ghost ox: int, ghost y0: seq<real>, ghost oy: int,
                     ghost n: nat, ghost k: nat)
    requires x != y && x[..] == xs
    requires Fits(|xs|, ox, 1, n) && Fits(|y0|, oy, 1, n) && Within(|y0|, oy, n)
    requires px == ox + k && py == oy + k && k < n
    requires y[..] == Splice(y0, oy, Gather(xs, ox, 1, n)[..k])
    modifies y
    ensures y[..] == Splice(y0, oy, Gather(xs, ox, 1, n)[..k + 1])
  {
    GatherUnitRun(xs, ox, n, k, px, 1);
    var xi := x[px];
    assert xi == xs[px..px + 1][0];
    StoreOne(y, py, xi, y0, oy, Gather(xs, ox, 1, n), k);
  }

  /** The strided path of `scopy`. */
  method ScopyStrided(n: nat, x: array<real>, ox: int, incx: int, y: array<real>, oy: int, incy: int)
    returns (ghost yVisited: seq<int>)
    requires x != y
    requires Fits(x.Length, ox, incx, n)
    requires incy != 0 && Fits(y.Length, oy, incy, n)
    modifies y
    ensures y[..] == Scatter(old(y[..]), oy, incy, Gather(x[..], ox, incx, n))
    ensures yVisited == Offsets(oy, incy, n)
  {
    ghost var y0 := y[..];
    ghost var gx := Gather(x[..], ox, incx, n);
    var px, py := ox, oy;
    yVisited := [];
    for i := 0 to n
      invariant px == Pos(ox, incx, i) && py == Pos(oy, incy, i)
      invariant y[..] == Scatter(y0, oy, incy, gx[..i])
      invariant yVisited == Offsets(oy, incy, i)
    {
      ScatterStep(y0, oy, incy, gx, i);
      y[py] := x[px];
      OffsetsStep(oy, incy, i);
      yVisited := yVisited + [py];
      PosNext(ox, incx, i);
      PosNext(oy, incy, i);
      px, py := px + incx, py + incy;
    }
    assert gx[..n] == gx;
  }

  /** `saxpy`: `y_i := y_i + a*x_i` for every `i < n`; `x` is only read. */
  method Saxpy(n: nat, a: real, x: array<real>, ox: int, incx: int, y: array<real>, oy: int, incy: int)
    returns (ghost yVisited: seq<int>)
    requires x != y
    requires Fits(x.Length, ox, incx, n)
    requires incy != 0 && Fits(y.Length, oy, incy, n)
    modifies y
    ensures y[..] == Scatter(old(y[..]), oy, incy,
      Axpy(a, Gather(x[..], ox, incx, n), Gather(old(y[..]), oy, incy, n)))
    ensures x[..] == old(x[..])
    ensures yVisited == Offsets(oy, incy, n)
  {
    if incx == 1 && incy == 1 {
      ghost var y0 := y[..];
      FitsWithin(x.Length, ox, n);
      FitsWithin(y.Length, oy, n);
      yVisited := SaxpyContiguous(n, a, x, ox, y, oy);
      SpliceIsScatter(y0, oy, Axpy(a, Gather(x[..], ox, 1, n), Gather(y0, oy, 1, n)));
    } else {
      yVisited := SaxpyStrided(n, a, x, ox, incx, y, oy, incy);
    }
  }

  /** The unit-stride path of `saxpy`: blocks of four 8-lane fused
      multiply-adds, then a scalar tail. */
  method SaxpyContiguous(n: nat, a: real, x: array<real>, ox: int, y: array<real>, oy: int)
    returns (ghost yVisited: seq<int>)
    requires x != y
    requires Fits(x.Length, ox, 1, n) && Within(x.Length, ox, n) && Fits(y.Length, oy, 1, n) && Within(y.Length, oy, n)
    modifies y
    ensures y[..] == Splice(old(y[..]), oy, Axpy(a, Gather(x[..], ox, 1, n), Gather(old(y[..]), oy, 1, n)))
    ensures yVisited == Offsets(oy, 1, n)
  {
    ghost var xs, y0 := x[..], y[..];
    ghost var vy := Axpy(a, Gather(xs, ox, 1, n), Gather(y0, oy, 1, n));
    var px, py := ox, oy;
    ghost var k: nat := 0;
    yVisited := [];
    ghost var full := BlockSplit(n);
    var av := Broadcast(a, W8);
    for blk := 0 to n / STEP
      invariant px == ox + k && py == oy + k && k == blk * 32 <= full
      invariant y[..] == Splice(y0, oy, vy[..k]) && x[..] == xs
      invariant yVisited == Offsets(oy, 1, k)
    {
      BlockInside(n, blk);
      var yb := SaxpyBlock(x, px, y, py, a, av, xs, ox, y0, oy, n, k);
      OffsetsRunUnit(oy, k, py, STEP);
      yVisited := yVisited + yb;
      px, py, k := px + STEP, py + STEP, k + STEP;
    }
    var yt := SaxpyTail(n, n % STEP, x, px, y, py, a, xs, ox, y0, oy, k);
    OffsetsRunUnit(oy, k, py, n % STEP);
    yVisited := yVisited + yt;
  }

  /** One iteration of the blocked `saxpy` loop: four 8-lane fused
      multiply-adds. */
  method SaxpyBlock(x: array<real>, px: int, y: array<real>, py: int, a: real, av: seq<real>,
                    ghost xs: seq<real>, ghost ox: int, ghost y0: seq<real>, ghost oy: int,
                    ghost n: nat, ghost k: nat)
    returns (ghost yVisited: seq<int>)
    requires x != y && x[..] == xs && av == Broadcast(a, W8)
    requires Fits(|xs|, ox, 1, n) && Fits(|y0|, oy, 1, n) && Within(|y0|, oy, n)
    requires px == ox + k && py == oy + k && k + STEP <= n
    requires y[..] == Splice(y0, oy, Axpy(a, Gather(xs, ox, 1, n), Gather(y0, oy, 1, n))[..k])
    modifies y
    ensures y[..] == Splice(y0, oy, Axpy(a, Gather(xs, ox, 1, n), Gather(y0, oy, 1, n))[..k + STEP])
    ensures yVisited == Offsets(py, 1, STEP)
  {
    var qx, qy := px, py;
    yVisited := [];
    for u := 0 to UNROLL
      invariant qx == px + u * 8 && qy == py + u * 8
      invariant y[..] == Splice(y0, oy, Axpy(a, Gather(xs, ox, 1, n), Gather(y0, oy, 1, n))[..k + u * 8])
      invariant yVisited == Offsets(py, 1, u * 8)
    {
      SaxpyLanes(x, qx, y, qy, a, av, xs, ox, y0, oy, n, k + u * 8);
      OffsetsRunUnit(py, u * 8, qy, W8);
      yVisited := yVisited + Offsets(qy, 1, W8);
      qx, qy := qx + W8, qy + W8;
    }
  }

  /** One 8-lane step of the unit-stride `saxpy` loop: `y := a*x + y` on 8
      consecutive elements. */
  method SaxpyLanes(x: array<real>, px: int, y: array<real>, py: int, a: real, av: seq<real>,
                    ghost xs: seq<real>, ghost ox: int, ghost y0: seq<real>, ghost oy: int,
                    ghost n: nat, ghost k: nat)
    requires x != y && x[..] == xs && av == Broadcast(a, W8)
    requires Fits(|xs|, ox, 1, n) && Fits(|y0|, oy, 1, n) && Within(|y0|, oy, n)
    requires px == ox + k && py == oy + k && k + W8 <= n
    requires y[..] == Splice(y0, oy, Axpy(a, Gather(xs, ox, 1, n), Gather(y0, oy, 1, n))[..k])
    modifies y
    ensures y[..] == Splice(y0, oy, Axpy(a, Gather(xs, ox, 1, n), Gather(y0, oy, 1, n))[..k + W8])
  {
    ghost var gx, gy := Gather(xs, ox, 1, n), Gather(y0, oy, 1, n);
    ghost var vy := Axpy(a, gx, gy);
    GatherUnitRun(xs, ox, n, k, px, W8);
    SpliceLoad(y0, oy, vy, k, py, W8);
    var xv := LoadU(x, px, W8);
    var yv := LoadU(y, py, W8);
    AxpyBlock(a, gx, gy, k, W8);
    StoreRun(y, py, Fmadd(av, xv, yv), y0, oy, vy, k);
  }

  /** One vectorized step of `saxpy` computes the next `w` elements of the
      updated `y`. */
  lemma AxpyBlock(a: real, gx: seq<real>, gy: seq<real>, k: nat, w: nat)
    requires |gx| == |gy| && k + w <= |gx|
    ensures Fmadd(Broadcast(a, w), gx[k..k + w], gy[k..k + w]) == Axpy(a, gx, gy)[k..k + w]
  {
    var xv, yv, av := gx[k..k + w], gy[k..k + w], Broadcast(a, w);
    forall i | 0 <= i < w
      ensures Fmadd(av, xv, yv)[i] == Axpy(a, gx, gy)[k + i]
    {
    }
  }

  /** The scalar form of `AxpyBlock`. */
  lemma AxpyAt(a: real, gx: seq<real>, gy: seq<real>, i: nat, xi: real, yi: real)
    requires |gx| == |gy| && i < |gx| && xi == gx[i] && yi == gy[i]
    ensures yi + a * xi == Axpy(a, gx, gy)[i]
  {
  }

  /** The scalar tail of the unit-stride `saxpy` path. */
  method SaxpyTail(n: nat, m: nat, x: array<real>, px: int, y: array<real>, py: int, a: real,
                   ghost xs: seq<real>, ghost ox: int, ghost y0: seq<real>, ghost oy: int,
                   ghost k: nat)
    returns (ghost yVisited: seq<int>)
    requires x != y && x[..] == xs
    requires Fits(|xs|, ox, 1, n) && Fits(|y0|, oy, 1, n) && Within(|y0|, oy, n)
    requires px == ox + k && py == oy + k && k + m == n
    requires y[..] == Splice(y0, oy, Axpy(a, Gather(xs, ox, 1, n), Gather(y0, oy, 1, n))[..k])
    modifies y
    ensures y[..] == Splice(y0, oy, Axpy(a, Gather(xs, ox, 1, n), Gather(y0, oy, 1, n)))
    ensures yVisited == Offsets(py, 1, m)
  {
    ghost var gx, gy := Gather(xs, ox, 1, n), Gather(y0, oy, 1, n);
    ghost var vy := Axpy(a, gx, gy);
    var qx, qy := px, py;
    yVisited := [];
    for t := 0 to m
      invariant qx == px + t && qy == py + t
      invariant y[..] == Splice(y0, oy, vy[..k + t])
      invariant yVisited == Offsets(py, 1, t)
    {
      SaxpyScalar(x, qx, y, qy, a, xs, ox, y0, oy, n, k + t);
      OffsetsPushUnit(py, t, qy);
      yVisited := yVisited + [qy];
      qx, qy := qx + 1, qy + 1;
    }
    SpliceAll(y0, oy, vy);
  }

  /** One step of the scalar tail of the unit-stride `saxpy` loop:
      `*y += a * *x`. */
  method SaxpyScalar(x: array<real>, px: int, y: array<real>, py: int, a: real,
                     ghost xs: seq<real>, ghost ox: int, ghost y0: seq<real>, ghost oy: int,
                     ghost n: nat, ghost k: nat)
    requires x != y && x[..] == xs
    requires Fits(|xs|, ox, 1, n) && Fits(|y0|, oy, 1, n) && Within(|y0|, oy, n)
    requires px == ox + k && py == oy + k && k < n
    requires y[..] == Splice(y0, oy, Axpy(a, Gather(xs, ox, 1, n), Gather(y0, oy, 1, n))[..k])
    modifies y
    ensures y[..] == Splice(y0, oy, Axpy(a, Gather(xs, ox, 1, n), Gather(y0, oy, 1, n))[..k + 1])
  {
    ghost var vy := Axpy(a, Gather(xs, ox, 1, n), Gather(y0, oy, 1, n));
    GatherUnitRun(xs, ox, n, k, px, 1);
    SpliceLoadOne(y0, oy, vy, k, py);
    var xi := x[px];
    var yi := y[py];
    assert xi == xs[px..px + 1][0];
    AxpyAt(a, Gather(xs, ox, 1, n), Gather(y0, oy, 1, n), k, xi, yi);
    StoreOne(y, py, yi + a * xi, y0, oy, vy, k);
  }

  /** The strided path of `saxpy`. */
  method SaxpyStrided(n: nat, a: real, x: array<real>, ox: int, incx: int, y: array<real>, oy: int, incy: int)
    returns (ghost yVisited: seq<int>)
    requires x != y
    requires Fits(x.Length, ox, incx, n)
    requires incy != 0 && Fits(y.Length, oy, incy, n)
    modifies y
    ensures y[..] == Scatter(old(y[..]), oy, incy,
      Axpy(a, Gather(x[..], ox, incx, n), Gather(old(y[..]), oy, incy, n)))
    ensures yVisited == Offsets(oy, incy, n)
  {
    ghost var x0, y0 := x[..], y[..];
    ghost var gx, gy := Gather(x0, ox, incx, n), Gather(y0, oy, incy, n);
    ghost var vy := Axpy(a, gx, gy);
    var px, py := ox, oy;
    yVisited := [];
    for i := 0 to n
      invariant px == Pos(ox, incx, i) && py == Pos(oy, incy, i)
      invariant x[..] == x0 && y[..] == Scatter(y0, oy, incy, vy[..i])
      invariant yVisited == Offsets(oy, incy, i)
    {
      ScatterStep(y0, oy, incy, vy, i);
      var xi := x[px];
      var yi := y[py];
      assert xi == gx[i] && yi == gy[i];
      AxpyAt(a, gx, gy, i, xi, yi);
      y[py] := yi + a * xi;
      OffsetsStep(oy, incy, i);
      yVisited := yVisited + [py];
      PosNext(ox, incx, i);
      PosNext(oy, incy, i);
      px, py := px + incx, py + incy;
    }
    assert vy[..n] == vy;
  }
}
