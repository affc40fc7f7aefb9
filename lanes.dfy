/** A scalar model of the AVX register operations the kernels use.

    A 256-bit register is a sequence of lanes: 8 lanes of single precision in the
    Level-1 kernels, 4 lanes of double precision in the matrix-vector kernel.  Each
    intrinsic is the equivalent sequence of scalar operations on consecutive
    lanes; unaligned loads and stores read and write consecutive buffer cells.
    Lane values are reals, so a fused multiply-add is a multiply followed by an
    add. */
module Lanes {
  import opened Reals

  /** Lanes of a single-precision register. */
  const W8: nat := 8
  /** Lanes of a double-precision register. */
  const W4: nat := 4

  /** The sum of a sequence of reals, accumulated from the front. */
  function Sum(s: seq<real>): real
  {
    if |s| == 0 then 0.0 else Sum(s[..|s| - 1]) + s[|s| - 1]
  }

  /** Summing a concatenation is summing the parts. */
  lemma {:induction false} SumAppend(a: seq<real>, b: seq<real>)
    ensures Sum(a + b) == Sum(a) + Sum(b)
    decreases |b|
  {
    if |b| > 0 {
      assert (a + b)[..|a + b| - 1] == a + b[..|b| - 1];
      SumAppend(a, b[..|b| - 1]);
    } else {
      assert a + b == a;
    }
  }

  /** Summing one more element adds it to the running total. */
  lemma SumStep(s: seq<real>, k: nat)
    requires k < |s|
    ensures Sum(s[..k + 1]) == Sum(s[..k]) + s[k]
  {
    assert s[..k + 1][..k] == s[..k];
  }

  /** Summing a prefix and then the next `w` elements sums the longer prefix. */
  lemma SumPrefixExtend(s: seq<real>, k: nat, w: nat)
    requires k + w <= |s|
    ensures Sum(s[..k + w]) == Sum(s[..k]) + Sum(s[k..k + w])
  {
    assert s[..k + w] == s[..k] + s[k..k + w];
    SumAppend(s[..k], s[k..k + w]);
  }

  /** A sum of non-negative terms is non-negative. */
  lemma {:induction false} SumNonneg(s: seq<real>)
    requires forall i :: 0 <= i < |s| ==> s[i] >= 0.0
    ensures Sum(s) >= 0.0
    decreases |s|
  {
    if |s| > 0 {
      SumNonneg(s[..|s| - 1]);
    }
  }

  /** `_mm256_setzero_ps` / `_mm256_broadcast_ss` / `_mm256_broadcast_sd`: every
      lane holds `v`. */
  function Broadcast(v: real, w: nat): (r: seq<real>)
    ensures |r| == w
  {
    seq(w, _ => v)
  }

  /** Lanewise product (`_mm256_mul_ps`, `_mm256_mul_pd`). */
  function Mul(a: seq<real>, b: seq<real>): (r: seq<real>)
    requires |a| == |b|
    ensures |r| == |a|
  {
    seq(|a|, k requires 0 <= k < |a| => a[k] * b[k])
  }

  /** Lanewise sum (`_mm256_add_ps`). */
  function Add(a: seq<real>, b: seq<real>): (r: seq<real>)
    requires |a| == |b|
    ensures |r| == |a|
  {
    seq(|a|, k requires 0 <= k < |a| => a[k] + b[k])
  }

  /** Lanewise difference. */
  function Sub(a: seq<real>, b: seq<real>): (r: seq<real>)
    requires |a| == |b|
    ensures |r| == |a|
  {
    seq(|a|, k requires 0 <= k < |a| => a[k] - b[k])
  }

  /** `_mm256_fmadd_ps` / `_mm256_fmadd_pd`: `a*b + c` in every lane. */
  function Fmadd(a: seq<real>, b: seq<real>, c: seq<real>): (r: seq<real>)
    requires |a| == |b| == |c|
    ensures |r| == |a|
  {
    Add(Mul(a, b), c)
  }

  /** `_mm256_fmsub_ps`: `a*b - c` in every lane. */
  function Fmsub(a: seq<real>, b: seq<real>, c: seq<real>): (r: seq<real>)
    requires |a| == |b| == |c|
    ensures |r| == |a|
  {
    Sub(Mul(a, b), c)
  }

  /** `_mm256_and_ps` with the mask `0x7FFF_FFFF` in every lane clears each sign
      bit, that is, takes each lane's absolute value. */
  function AbsEach(a: seq<real>): (r: seq<real>)
    ensures |r| == |a|
  {
    seq(|a|, k requires 0 <= k < |a| => Abs(a[k]))
  }

  /** The lanes of a lanewise sum add up to the two lanes' totals. */
  lemma {:induction false} SumAdd(a: seq<real>, b: seq<real>)
    requires |a| == |b|
    ensures Sum(Add(a, b)) == Sum(a) + Sum(b)
    decreases |a|
  {
    if |a| > 0 {
      var k := |a| - 1;
      assert Add(a, b)[..k] == Add(a[..k], b[..k]);
      SumAdd(a[..k], b[..k]);
    }
  }

  /** `_mm256_hadd_ps(a, b)`: within each 128-bit half, the pairwise sums of `a`
      followed by the pairwise sums of `b`. */
  function HorizontalAdd(a: seq<real>, b: seq<real>): (r: seq<real>)
    requires |a| == W8 && |b| == W8
    ensures |r| == W8
  {
    [a[0] + a[1], a[2] + a[3], b[0] + b[1], b[2] + b[3],
     a[4] + a[5], a[6] + a[7], b[4] + b[5], b[6] + b[7]]
  }

  /** The horizontal reduction `hadd_ps` (src/level1.rs): two horizontal adds of
      the register with itself, then lane 0 plus lane 4.  It returns the sum of the
      eight lanes. */
  function HaddPs(v: seq<real>): (r: real)
    requires |v| == W8
    ensures r == Sum(v)
  {
    SumEight(v);
    var h := HorizontalAdd(v, v);
    var g := HorizontalAdd(h, h);
    g[0] + g[4]
  }

  /** The sum of eight lanes written out. */
  lemma SumEight(v: seq<real>)
    requires |v| == W8
    ensures Sum(v) == v[0] + v[1] + v[2] + v[3] + v[4] + v[5] + v[6] + v[7]
  {
    assert v[..0] == [];
    SumStep(v, 0); SumStep(v, 1); SumStep(v, 2); SumStep(v, 3);
    SumStep(v, 4); SumStep(v, 5); SumStep(v, 6); SumStep(v, 7);
    assert v[..8] == v;
  }

  /** `_mm256_loadu_ps` / `_mm256_loadu_pd`: `w` consecutive cells from `p`. */
  function LoadU(a: array<real>, p: int, w: nat): (r: seq<real>)
    requires 0 <= p && p + w <= a.Length
    reads a
    ensures |r| == w
  {
    a[p..p + w]
  }

  /** `_mm256_storeu_ps` / `_mm256_storeu_pd`: the lanes of `v` go to the
      consecutive cells from `p`; no other cell changes. */
  method StoreU(a: array<real>, p: int, v: seq<real>)
    requires 0 <= p && p + |v| <= a.Length
    modifies a
    ensures a[..] == old(a[..])[..p] + v + old(a[..])[p + |v|..]
  {
    ghost var a0 := a[..];
    for k := 0 to |v|
      invariant a[..] == a0[..p] + v[..k] + a0[p + k..]
    {
      assert v[..k + 1] == v[..k] + [v[k]];
      a[p + k] := v[k];
    }
    assert v[..|v|] == v;
  }
}
