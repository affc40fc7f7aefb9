/** The reductions of src/level1.rs over the reals: `sdot`, `sdsdot`, `snrm2`,
    `sasum` and `isamax`.

    `sdot`, `snrm2` and `sasum` have the same two paths as the writing kernels.
    Their unit-stride path keeps an 8-lane accumulator over the `n / STEP` whole
    blocks, reduces it with `hadd_ps`, and continues the same running total over
    the `n % STEP` scalar tail.  Every other path keeps one scalar running total.
    The result is stated as a function of the logical vectors, whichever path runs;
    over the reals the order of the additions does not matter. */
module Reductions {
  import opened Reals
  import opened Views
  import opened Lanes
  import opened Level1

  // ---------------------------------------------------------------------------
  // What the reductions compute, on logical vectors

  /** `Σ x_i*y_i`. */
  function Dot(xv: seq<real>, yv: seq<real>): real
    requires |xv| == |yv|
  {
    Sum(Mul(xv, yv))
  }

  /** `Σ |x_i|`. */
  function Asum(v: seq<real>): real
  {
    Sum(AbsEach(v))
  }

  /** `Σ x_i²`, the radicand of the Euclidean norm. */
  function SumOfSquares(v: seq<real>): real
  {
    Sum(Mul(v, v))
  }

  /** `i` is the first index at which `|v_i|` is largest. */
  predicate FirstMaxIndex(v: seq<real>, i: nat)
  {
    && i < |v|
    && (forall k :: 0 <= k < |v| ==> Abs(v[k]) <= Abs(v[i]))
    && (forall k :: 0 <= k < i ==> Abs(v[k]) < Abs(v[i]))
  }

  // ---------------------------------------------------------------------------
  // Properties of the specifications

  /** A sum of non-negative terms is zero exactly when every term is zero. */
  lemma {:induction false} SumZero(s: seq<real>)
    requires forall i :: 0 <= i < |s| ==> s[i] >= 0.0
    ensures Sum(s) == 0.0 <==> forall i :: 0 <= i < |s| ==> s[i] == 0.0
    decreases |s|
  {
    if |s| > 0 {
      var k := |s| - 1;
      var front := s[..k];
      SumZero(front);
      SumNonneg(front);
      if Sum(s) == 0.0 {
        forall i | 0 <= i < |s|
          ensures s[i] == 0.0
        {
          if i < k {
            assert front[i] == s[i];
          }
        }
      }
      if forall i :: 0 <= i < |s| ==> s[i] == 0.0 {
        assert forall i :: 0 <= i < |front| ==> front[i] == 0.0;
      }
    }
  }

  /** `Σ |x_i|` is never negative, and is zero exactly for the zero vector. */
  lemma AsumZero(v: seq<real>)
    ensures Asum(v) >= 0.0
    ensures Asum(v) == 0.0 <==> forall i :: 0 <= i < |v| ==> v[i] == 0.0
  {
    var a := AbsEach(v);
    SumNonneg(a);
    SumZero(a);
    assert forall i :: 0 <= i < |v| ==> (a[i] == 0.0 <==> v[i] == 0.0);
  }

  /** `Σ x_i²` is never negative, so its square root is defined, and it is zero
      exactly for the zero vector. */
  lemma SumOfSquaresZero(v: seq<real>)
    ensures SumOfSquares(v) >= 0.0
    ensures SumOfSquares(v) == 0.0 <==> forall i :: 0 <= i < |v| ==> v[i] == 0.0
  {
    var q := Mul(v, v);
    forall i | 0 <= i < |v|
      ensures q[i] >= 0.0 && (q[i] == 0.0 <==> v[i] == 0.0)
    {
      SquareNonneg(v[i]);
      if v[i] != 0.0 {
        SquarePositive(v[i]);
      }
    }
    SumNonneg(q);
    SumZero(q);
  }

  /** At most one index is the first index of largest magnitude. */
  lemma FirstMaxIndexUnique(v: seq<real>, i: nat, j: nat)
    requires FirstMaxIndex(v, i) && FirstMaxIndex(v, j)
    ensures i == j
  {
    assert Abs(v[i]) == Abs(v[j]);
  }

  // ---------------------------------------------------------------------------
  // Steps shared by the accumulating loops

  /** Adding the next `|lanes|` terms of `p` lanewise into an accumulator whose
      lanes add up to the first `k` terms gives an accumulator whose lanes add up
      to the first `k + |lanes|` terms. */
  lemma Accumulate(p: seq<real>, k: nat, lanes: seq<real>, acc: seq<real>)
    requires |lanes| == |acc| && k + |lanes| <= |p| && lanes == p[k..k + |lanes|]
    requires Sum(acc) == Sum(p[..k])
    ensures Sum(Add(lanes, acc)) == Sum(p[..k + |lanes|])
  {
    SumAdd(lanes, acc);
    SumPrefixExtend(p, k, |lanes|);
  }

  /** A run of a lanewise product is the product of the runs. */
  lemma MulRun(a: seq<real>, b: seq<real>, k: nat, w: nat)
    requires |a| == |b| && k + w <= |a|
    ensures Mul(a[k..k + w], b[k..k + w]) == Mul(a, b)[k..k + w]
  {
    var lhs, rhs := Mul(a[k..k + w], b[k..k + w]), Mul(a, b)[k..k + w];
    forall i | 0 <= i < w
      ensures lhs[i] == rhs[i]
    {
    }
  }

  /** A run of lanewise absolute values is the absolute values of the run. */
  lemma AbsRun(a: seq<real>, k: nat, w: nat)
    requires k + w <= |a|
    ensures AbsEach(a[k..k + w]) == AbsEach(a)[k..k + w]
  {
  }

  /** The scalar form of `MulRun`. */
  lemma MulAt(a: seq<real>, b: seq<real>, i: nat, ai: real, bi: real)
    requires |a| == |b| && i < |a| && ai == a[i] && bi == b[i]
    ensures ai * bi == Mul(a, b)[i]
  {
  }

  /** The scalar form of `AbsRun`. */
  lemma AbsAt(a: seq<real>, i: nat, ai: real)
    requires i < |a| && ai == a[i]
    ensures Abs(ai) == AbsEach(a)[i]
  {
  }

  /** The accumulator `_mm256_setzero_ps` starts from adds up to nothing. */
  lemma ZeroLanes(p: seq<real>)
    ensures Sum(Broadcast(0.0, W8)) == Sum(p[..0])
  {
    SumEight(Broadcast(0.0, W8));
    assert p[..0] == [];
  }

  /** Element `k` of a unit-stride view that fits is the cell at `o + k`. */
  lemma UnitAt(s: seq<real>, o: int, n: nat, k: nat, p: int)
    requires Fits(|s|, o, 1, n) && k < n && p == o + k
    ensures 0 <= p < |s| && Gather(s, o, 1, n)[k] == s[p]
  {
    assert Pos(o, 1, k) == p;
  }

  // ---------------------------------------------------------------------------
  // sdot

  /** `sdot`: `Σ x_i*y_i`.  Neither vector is written, so they may overlap and
      either stride may be zero. */
  method Sdot(n: nat, x: array<real>, ox: int, incx: int, y: array<real>, oy: int, incy: int)
    returns (r: real)
    requires Fits(x.Length, ox, incx, n) && Fits(y.Length, oy, incy, n)
    ensures r == Dot(Gather(x[..], ox, incx, n), Gather(y[..], oy, incy, n))
  {
    if incx == 1 && incy == 1 {
      FitsWithin(x.Length, ox, n);
      FitsWithin(y.Length, oy, n);
      r := SdotContiguous(n, x, ox, y, oy);
    } else {
      r := SdotStrided(n, x, ox, incx, y, oy, incy);
    }
  }

  /** The unit-stride path of `sdot`. */
  method SdotContiguous(n: nat, x: array<real>, ox: int, y: array<real>, oy: int)
    returns (r: real)
    requires Fits(x.Length, ox, 1, n) && Within(x.Length, ox, n)
    requires Fits(y.Length, oy, 1, n) && Within(y.Length, oy, n)
    ensures r == Dot(Gather(x[..], ox, 1, n), Gather(y[..], oy, 1, n))
  {
    ghost var p := Mul(Gather(x[..], ox, 1, n), Gather(y[..], oy, 1, n));
    var acc := Broadcast(0.0, W8);
    ZeroLanes(p);
    var px, py := ox, oy;
    ghost var k: nat := 0;
    ghost var full := BlockSplit(n);
    for blk := 0 to n / STEP
      invariant px == ox + k && py == oy + k && k == blk * 32 <= full
      invariant |acc| == W8 && Sum(acc) == Sum(p[..k])
    {
      BlockInside(n, blk);
      acc := SdotBlock(x, px, y, py, acc, ox, oy, n, k);
      px, py, k := px + STEP, py + STEP, k + STEP;
    }
    var total := HaddPs(acc);
    r := SdotTail(n, n % STEP, x, px, y, py, total, ox, oy, k);
  }

  /** One iteration of the blocked `sdot` loop: four 8-lane multiply-adds into
      the accumulator. */
  method SdotBlock(x: array<real>, px: int, y: array<real>, py: int, acc: seq<real>,
                   ghost ox: int, ghost oy: int, ghost n: nat, ghost k: nat)
    returns (r: seq<real>)
    requires Fits(x.Length, ox, 1, n) && Fits(y.Length, oy, 1, n)
    requires px == ox + k && py == oy + k && k + STEP <= n
    requires |acc| == W8
    requires Sum(acc) == Sum(Mul(Gather(x[..], ox, 1, n), Gather(y[..], oy, 1, n))[..k])
    ensures |r| == W8
    ensures Sum(r) == Sum(Mul(Gather(x[..], ox, 1, n), Gather(y[..], oy, 1, n))[..k + STEP])
  {
    r := acc;
    var qx, qy := px, py;
    ghost var j: nat := k;
    for u := 0 to UNROLL
      invariant j == k + u * 8 && qx == ox + j && qy == oy + j
      invariant |r| == W8
      invariant Sum(r) == Sum(Mul(Gather(x[..], ox, 1, n), Gather(y[..], oy, 1, n))[..j])
    {
      r := SdotLanes(x, qx, y, qy, r, ox, oy, n, j);
      qx, qy, j := qx + W8, qy + W8, j + W8;
    }
  }

  /** One 8-lane step of `sdot` (the body of `unroll4!`):
      `acc = fmadd(loadu(x), loadu(y), acc)`. */
  method SdotLanes(x: array<real>, px: int, y: array<real>, py: int, acc: seq<real>,
                   ghost ox: int, ghost oy: int, ghost n: nat, ghost k: nat)
    returns (r: seq<real>)
    requires Fits(x.Length, ox, 1, n) && Fits(y.Length, oy, 1, n)
    requires px == ox + k && py == oy + k && k + W8 <= n
    requires |acc| == W8
    requires Sum(acc) == Sum(Mul(Gather(x[..], ox, 1, n), Gather(y[..], oy, 1, n))[..k])
    ensures |r| == W8
    ensures Sum(r) == Sum(Mul(Gather(x[..], ox, 1, n), Gather(y[..], oy, 1, n))[..k + W8])
  {
    ghost var gx, gy := Gather(x[..], ox, 1, n), Gather(y[..], oy, 1, n);
    GatherUnitRun(x[..], ox, n, k, px, W8);
    GatherUnitRun(y[..], oy, n, k, py, W8);
    var xv := LoadU(x, px, W8);
    var yv := LoadU(y, py, W8);
    r := Fmadd(xv, yv, acc);
    MulRun(gx, gy, k, W8);
    Accumulate(Mul(gx, gy), k, Mul(xv, yv), acc);
  }

  /** The scalar tail of the unit-stride `sdot` path: `acc += *x * *y`, carrying
      on the total of the whole blocks. */
  method SdotTail(n: nat, m: nat, x: array<real>, px: int, y: array<real>, py: int, acc: real,
                  ghost ox: int, ghost oy: int, ghost k: nat)
    returns (r: real)
    requires Fits(x.Length, ox, 1, n) && Fits(y.Length, oy, 1, n)
    requires px == ox + k && py == oy + k && k + m == n
    requires acc == Sum(Mul(Gather(x[..], ox, 1, n), Gather(y[..], oy, 1, n))[..k])
    ensures r == Dot(Gather(x[..], ox, 1, n), Gather(y[..], oy, 1, n))
  {
    ghost var gx, gy := Gather(x[..], ox, 1, n), Gather(y[..], oy, 1, n);
    ghost var p := Mul(gx, gy);
    r := acc;
    var qx, qy := px, py;
    for t := 0 to m
      invariant qx == px + t && qy == py + t
      invariant r == Sum(p[..k + t])
    {
      UnitAt(x[..], ox, n, k + t, qx);
      UnitAt(y[..], oy, n, k + t, qy);
      var xi, yi := x[qx], y[qy];
      MulAt(gx, gy, k + t, xi, yi);
      SumStep(p, k + t);
      r := r + xi * yi;
      qx, qy := qx + 1, qy + 1;
    }
    assert p[..n] == p;
  }

  /** The strided path of `sdot`. */
  method SdotStrided(n: nat, x: array<real>, ox: int, incx: int, y: array<real>, oy: int, incy: int)
    returns (r: real)
    requires Fits(x.Length, ox, incx, n) && Fits(y.Length, oy, incy, n)
    ensures r == Dot(Gather(x[..], ox, incx, n), Gather(y[..], oy, incy, n))
  {
    ghost var gx, gy := Gather(x[..], ox, incx, n), Gather(y[..], oy, incy, n);
    ghost var p := Mul(gx, gy);
    r := 0.0;
    var px, py := ox, oy;
    for i := 0 to n
      invariant px == Pos(ox, incx, i) && py == Pos(oy, incy, i)
      invariant r == Sum(p[..i])
    {
      var xi, yi := x[px], y[py];
      assert xi == gx[i] && yi == gy[i];
      MulAt(gx, gy, i, xi, yi);
      SumStep(p, i);
      r := r + xi * yi;
      PosNext(ox, incx, i);
      PosNext(oy, incy, i);
      px, py := px + incx, py + incy;
    }
    assert p[..n] == p;
  }

  // ---------------------------------------------------------------------------
  // sdsdot

  /** `sdsdot`: `b + Σ x_i*y_i`, one strided loop for every stride (the
      accumulation in double precision changes nothing over the reals). */
  method Sdsdot(n: nat, b: real, x: array<real>, ox: int, incx: int, y: array<real>, oy: int, incy: int)
    returns (r: real)
    requires Fits(x.Length, ox, incx, n) && Fits(y.Length, oy, incy, n)
    ensures r == b + Dot(Gather(x[..], ox, incx, n), Gather(y[..], oy, incy, n))
  {
    ghost var gx, gy := Gather(x[..], ox, incx, n), Gather(y[..], oy, incy, n);
    ghost var p := Mul(gx, gy);
    r := b;
    var px, py := ox, oy;
    assert p[..0] == [];
    for i := 0 to n
      invariant px == Pos(ox, incx, i) && py == Pos(oy, incy, i)
      invariant r == b + Sum(p[..i])
    {
      var xi, yi := x[px], y[py];
      assert xi == gx[i] && yi == gy[i];
      MulAt(gx, gy, i, xi, yi);
      SumStep(p, i);
      r := r + xi * yi;
      PosNext(ox, incx, i);
      PosNext(oy, incy, i);
      px, py := px + incx, py + incy;
    }
    assert p[..n] == p;
  }

  // ---------------------------------------------------------------------------
  // snrm2

  /** `snrm2` up to its final square root: `Σ x_i²`. */
  method Snrm2(n: nat, x: array<real>, ox: int, incx: int) returns (r: real)
    requires Fits(x.Length, ox, incx, n)
    ensures r == SumOfSquares(Gather(x[..], ox, incx, n))
  {
    if incx == 1 {
      FitsWithin(x.Length, ox, n);
      r := Snrm2Contiguous(n, x, ox);
    } else {
      r := Snrm2Strided(n, x, ox, incx);
    }
  }

  /** The unit-stride path of `snrm2`. */
  method Snrm2Contiguous(n: nat, x: array<real>, ox: int) returns (r: real)
    requires Fits(x.Length, ox, 1, n) && Within(x.Length, ox, n)
    ensures r == SumOfSquares(Gather(x[..], ox, 1, n))
  {
    ghost var p := Mul(Gather(x[..], ox, 1, n), Gather(x[..], ox, 1, n));
    var acc := Broadcast(0.0, W8);
    ZeroLanes(p);
    var px := ox;
    ghost var k: nat := 0;
    ghost var full := BlockSplit(n);
    for blk := 0 to n / STEP
      invariant px == ox + k && k == blk * 32 <= full
      invariant |acc| == W8 && Sum(acc) == Sum(p[..k])
    {
      BlockInside(n, blk);
      acc := Snrm2Block(x, px, acc, ox, n, k);
      px, k := px + STEP, k + STEP;
    }
    var total := HaddPs(acc);
    r := Snrm2Tail(n, n % STEP, x, px, total, ox, k);
  }

  /** One iteration of the blocked `snrm2` loop. */
  method Snrm2Block(x: array<real>, px: int, acc: seq<real>, ghost ox: int, ghost n: nat, ghost k: nat)
    returns (r: seq<real>)
    requires Fits(x.Length, ox, 1, n) && px == ox + k && k + STEP <= n
    requires |acc| == W8
    requires Sum(acc) == Sum(Mul(Gather(x[..], ox, 1, n), Gather(x[..], ox, 1, n))[..k])
    ensures |r| == W8
    ensures Sum(r) == Sum(Mul(Gather(x[..], ox, 1, n), Gather(x[..], ox, 1, n))[..k + STEP])
  {
    r := acc;
    var q := px;
    ghost var j: nat := k;
    for u := 0 to UNROLL
      invariant j == k + u * 8 && q == ox + j
      invariant |r| == W8
      invariant Sum(r) == Sum(Mul(Gather(x[..], ox, 1, n), Gather(x[..], ox, 1, n))[..j])
    {
      r := Snrm2Lanes(x, q, r, ox, n, j);
      q, j := q + W8, j + W8;
    }
  }

  /** One 8-lane step of `snrm2`: `acc = fmadd(xv, xv, acc)`. */
  method Snrm2Lanes(x: array<real>, px: int, acc: seq<real>, ghost ox: int, ghost n: nat, ghost k: nat)
    returns (r: seq<real>)
    requires Fits(x.Length, ox, 1, n) && px == ox + k && k + W8 <= n
    requires |acc| == W8
    requires Sum(acc) == Sum(Mul(Gather(x[..], ox, 1, n), Gather(x[..], ox, 1, n))[..k])
    ensures |r| == W8
    ensures Sum(r) == Sum(Mul(Gather(x[..], ox, 1, n), Gather(x[..], ox, 1, n))[..k + W8])
  {
    ghost var gx := Gather(x[..], ox, 1, n);
    GatherUnitRun(x[..], ox, n, k, px, W8);
    var xv := LoadU(x, px, W8);
    r := Fmadd(xv, xv, acc);
    MulRun(gx, gx, k, W8);
    Accumulate(Mul(gx, gx), k, Mul(xv, xv), acc);
  }

  /** The scalar tail of the unit-stride `snrm2` path: `acc += xi * xi`. */
  method Snrm2Tail(n: nat, m: nat, x: array<real>, px: int, acc: real, ghost ox: int, ghost k: nat)
    returns (r: real)
    requires Fits(x.Length, ox, 1, n) && px == ox + k && k + m == n
    requires acc == Sum(Mul(Gather(x[..], ox, 1, n), Gather(x[..], ox, 1, n))[..k])
    ensures r == SumOfSquares(Gather(x[..], ox, 1, n))
  {
    ghost var gx := Gather(x[..], ox, 1, n);
    ghost var p := Mul(gx, gx);
    r := acc;
    var q := px;
    for t := 0 to m
      invariant q == px + t
      invariant r == Sum(p[..k + t])
    {
      UnitAt(x[..], ox, n, k + t, q);
      var xi := x[q];
      MulAt(gx, gx, k + t, xi, xi);
      SumStep(p, k + t);
      r := r + xi * xi;
      q := q + 1;
    }
    assert p[..n] == p;
  }

  /** The strided path of `snrm2`. */
  method Snrm2Strided(n: nat, x: array<real>, ox: int, incx: int) returns (r: real)
    requires Fits(x.Length, ox, incx, n)
    ensures r == SumOfSquares(Gather(x[..], ox, incx, n))
  {
    ghost var gx := Gather(x[..], ox, incx, n);
    ghost var p := Mul(gx, gx);
    r := 0.0;
    var px := ox;
    for i := 0 to n
      invariant px == Pos(ox, incx, i)
      invariant r == Sum(p[..i])
    {
      var xi := x[px];
      assert xi == gx[i];
      MulAt(gx, gx, i, xi, xi);
      SumStep(p, i);
      r := r + xi * xi;
      PosNext(ox, incx, i);
      px := px + incx;
    }
    assert p[..n] == p;
  }

  // ---------------------------------------------------------------------------
  // sasum

  /** `sasum`: `Σ |x_i|`. */
  method Sasum(n: nat, x: array<real>, ox: int, incx: int) returns (r: real)
    requires Fits(x.Length, ox, incx, n)
    ensures r == Asum(Gather(x[..], ox, incx, n))
  {
    if incx == 1 {
      FitsWithin(x.Length, ox, n);
      r := SasumContiguous(n, x, ox);
    } else {
      r := SasumStrided(n, x, ox, incx);
    }
  }

  /** The unit-stride path of `sasum`. */
  method SasumContiguous(n: nat, x: array<real>, ox: int) returns (r: real)
    requires Fits(x.Length, ox, 1, n) && Within(x.Length, ox, n)
    ensures r == Asum(Gather(x[..], ox, 1, n))
  {
    ghost var p := AbsEach(Gather(x[..], ox, 1, n));
    var acc := Broadcast(0.0, W8);
    ZeroLanes(p);
    var px := ox;
    ghost var k: nat := 0;
    ghost var full := BlockSplit(n);
    for blk := 0 to n / STEP
      invariant px == ox + k && k == blk * 32 <= full
      invariant |acc| == W8 && Sum(acc) == Sum(p[..k])
    {
      BlockInside(n, blk);
      acc := SasumBlock(x, px, acc, ox, n, k);
      px, k := px + STEP, k + STEP;
    }
    var total := HaddPs(acc);
    r := SasumTail(n, n % STEP, x, px, total, ox, k);
  }

  /** One iteration of the blocked `sasum` loop. */
  method SasumBlock(x: array<real>, px: int, acc: seq<real>, ghost ox: int, ghost n: nat, ghost k: nat)
    returns (r: seq<real>)
    requires Fits(x.Length, ox, 1, n) && px == ox + k && k + STEP <= n
    requires |acc| == W8 && Sum(acc) == Sum(AbsEach(Gather(x[..], ox, 1, n))[..k])
    ensures |r| == W8 && Sum(r) == Sum(AbsEach(Gather(x[..], ox, 1, n))[..k + STEP])
  {
    r := acc;
    var q := px;
    ghost var j: nat := k;
    for u := 0 to UNROLL
      invariant j == k + u * 8 && q == ox + j
      invariant |r| == W8 && Sum(r) == Sum(AbsEach(Gather(x[..], ox, 1, n))[..j])
    {
      r := SasumLanes(x, q, r, ox, n, j);
      q, j := q + W8, j + W8;
    }
  }

  /** One 8-lane step of `sasum`: `acc = add(and(mask, loadu(x)), acc)`, the mask
      clearing every sign bit. */
  method SasumLanes(x: array<real>, px: int, acc: seq<real>, ghost ox: int, ghost n: nat, ghost k: nat)
    returns (r: seq<real>)
    requires Fits(x.Length, ox, 1, n) && px == ox + k && k + W8 <= n
    requires |acc| == W8 && Sum(acc) == Sum(AbsEach(Gather(x[..], ox, 1, n))[..k])
    ensures |r| == W8 && Sum(r) == Sum(AbsEach(Gather(x[..], ox, 1, n))[..k + W8])
  {
    ghost var gx := Gather(x[..], ox, 1, n);
    GatherUnitRun(x[..], ox, n, k, px, W8);
    var xv := LoadU(x, px, W8);
    r := Add(AbsEach(xv), acc);
    AbsRun(gx, k, W8);
    Accumulate(AbsEach(gx), k, AbsEach(xv), acc);
  }

  /** The scalar tail of the unit-stride `sasum` path: `acc += |x|`. */
  method SasumTail(n: nat, m: nat, x: array<real>, px: int, acc: real, ghost ox: int, ghost k: nat)
    returns (r: real)
    requires Fits(x.Length, ox, 1, n) && px == ox + k && k + m == n
    requires acc == Sum(AbsEach(Gather(x[..], ox, 1, n))[..k])
    ensures r == Asum(Gather(x[..], ox, 1, n))
  {
    ghost var gx := Gather(x[..], ox, 1, n);
    ghost var p := AbsEach(gx);
    r := acc;
    var q := px;
    for t := 0 to m
      invariant q == px + t
      invariant r == Sum(p[..k + t])
    {
      UnitAt(x[..], ox, n, k + t, q);
      var xi := x[q];
      AbsAt(gx, k + t, xi);
      SumStep(p, k + t);
      r := r + Abs(xi);
      q := q + 1;
    }
    assert p[..n] == p;
  }

  /** The strided path of `sasum`. */
  method SasumStrided(n: nat, x: array<real>, ox: int, incx: int) returns (r: real)
    requires Fits(x.Length, ox, incx, n)
    ensures r == Asum(Gather(x[..], ox, incx, n))
  {
    ghost var gx := Gather(x[..], ox, incx, n);
    ghost var p := AbsEach(gx);
    r := 0.0;
    var px := ox;
    for i := 0 to n
      invariant px == Pos(ox, incx, i)
      invariant r == Sum(p[..i])
    {
      var xi := x[px];
      assert xi == gx[i];
      AbsAt(gx, i, xi);
      SumStep(p, i);
      r := r + Abs(xi);
      PosNext(ox, incx, i);
      px := px + incx;
    }
    assert p[..n] == p;
  }

  // ---------------------------------------------------------------------------
  // isamax

  /** `isamax`: the first index of largest magnitude, found with a strict `>`
      against a running maximum that starts at `0`; `0` when `n == 0`. */
  method Isamax(n: nat, x: array<real>, ox: int, incx: int) returns (imax: nat)
    requires Fits(x.Length, ox, incx, n)
    ensures n == 0 ==> imax == 0
    ensures n > 0 ==> FirstMaxIndex(Gather(x[..], ox, incx, n), imax)
  {
    ghost var g := Gather(x[..], ox, incx, n);
    var max := 0.0;
    imax := 0;
    var px := ox;
    for i := 0 to n
      invariant px == Pos(ox, incx, i)
      invariant i == 0 ==> imax == 0 && max == 0.0
      invariant i > 0 ==> imax < i && max == Abs(g[imax])
      invariant forall k :: 0 <= k < i ==> Abs(g[k]) <= max
      invariant forall k :: 0 <= k < imax ==> Abs(g[k]) < max
    {
      var xi := Abs(x[px]);
      assert xi == Abs(g[i]);
      if xi > max {
        max := xi;
        imax := i;
      }
      PosNext(ox, incx, i);
      px := px + incx;
    }
  }
}
