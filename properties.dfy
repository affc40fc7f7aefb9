/** Properties that relate several calls of the Level-1 kernels to each other. */
module Properties {
  import opened Views
  import opened Level1
  import opened Reductions

  /** Swapping two views twice restores both buffers: the second `sswap` stores
      back exactly what the first one took away. */
  lemma SwapTwice(x0: seq<real>, ox: int, incx: int, y0: seq<real>, oy: int, incy: int, n: nat)
    requires incx != 0 && Fits(|x0|, ox, incx, n)
    requires incy != 0 && Fits(|y0|, oy, incy, n)
    ensures var x1, y1 := Scatter(x0, ox, incx, Gather(y0, oy, incy, n)), Scatter(y0, oy, incy, Gather(x0, ox, incx, n));
            Scatter(x1, ox, incx, Gather(y1, oy, incy, n)) == x0
            && Scatter(y1, oy, incy, Gather(x1, ox, incx, n)) == y0
  {
    var gx, gy := Gather(x0, ox, incx, n), Gather(y0, oy, incy, n);
    var x1, y1 := Scatter(x0, ox, incx, gy), Scatter(y0, oy, incy, gx);
    GatherScatter(x0, ox, incx, gy);
    GatherScatter(y0, oy, incy, gx);
    ScatterOverwrite(x0, ox, incx, gy, gx);
    ScatterOverwrite(y0, oy, incy, gx, gy);
    ScatterGather(x0, ox, incx, n);
    ScatterGather(y0, oy, incy, n);
  }

  /** Two calls of `sswap` on the same views leave both buffers as they were. */
  method SswapTwice(n: nat, x: array<real>, ox: int, incx: int, y: array<real>, oy: int, incy: int)
    requires x != y
    requires incx != 0 && Fits(x.Length, ox, incx, n)
    requires incy != 0 && Fits(y.Length, oy, incy, n)
    modifies x, y
    ensures x[..] == old(x[..]) && y[..] == old(y[..])
  {
    SwapTwice(x[..], ox, incx, y[..], oy, incy, n);
    var _, _ := Sswap(n, x, ox, incx, y, oy, incy);
    var _, _ := Sswap(n, x, ox, incx, y, oy, incy);
  }

  /** After `scopy` the destination view holds the source's elements, so its
      `sasum` is the source's. */
  lemma CopyThenAsum(x0: seq<real>, ox: int, incx: int, y0: seq<real>, oy: int, incy: int, n: nat)
    requires Fits(|x0|, ox, incx, n)
    requires incy != 0 && Fits(|y0|, oy, incy, n)
    ensures Asum(Gather(Scatter(y0, oy, incy, Gather(x0, ox, incx, n)), oy, incy, n)) == Asum(Gather(x0, ox, incx, n))
  {
    GatherScatter(y0, oy, incy, Gather(x0, ox, incx, n));
  }

  /** `scopy` followed by `sasum` of the destination and of the source: the two
      sums agree. */
  method ScopyThenSasum(n: nat, x: array<real>, ox: int, incx: int, y: array<real>, oy: int, incy: int)
    returns (sx: real, sy: real)
    requires x != y
    requires Fits(x.Length, ox, incx, n)
    requires incy != 0 && Fits(y.Length, oy, incy, n)
    modifies y
    ensures sy == sx && sx == Asum(Gather(x[..], ox, incx, n))
  {
    CopyThenAsum(x[..], ox, incx, y[..], oy, incy, n);
    var _ := Scopy(n, x, ox, incx, y, oy, incy);
    sx := Sasum(n, x, ox, incx);
    sy := Sasum(n, y, oy, incy);
  }
}
