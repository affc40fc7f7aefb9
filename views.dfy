/** Strided views of a flat buffer.

    A kernel receives a raw pointer into a caller-owned buffer together with a
    stride.  Here the buffer is a sequence (the contents of an array), the pointer
    is a base offset `o` into it, and logical element `i` of an `n`-element view
    with stride `inc` lives at offset `o + i*inc`.  The stride may have any sign. */
module Views {

  /** Offset of logical element `i` of the view with base `o` and stride `inc`. */
  function Pos(o: int, inc: int, i: int): int
  {
    o + i * inc
  }

  /** Advancing the pointer by one stride moves to the next logical element. */
  lemma PosNext(o: int, inc: int, i: int)
    ensures Pos(o, inc, i) + inc == Pos(o, inc, i + 1)
  {
  }

  /** Every element of the `n`-element view lies inside a buffer of length `len`. */
  predicate Fits(len: int, o: int, inc: int, n: nat)
  {
    forall i :: 0 <= i < n ==> 0 <= Pos(o, inc, i) < len
  }

  /** With a non-zero stride different logical elements live at different offsets. */
  lemma PosDistinct(o: int, inc: int, k: int)
    requires inc != 0
    ensures forall i :: i != k ==> Pos(o, inc, i) != Pos(o, inc, k)
  {
    forall i | i != k
      ensures Pos(o, inc, i) != Pos(o, inc, k)
    {
      assert Pos(o, inc, i) - Pos(o, inc, k) == (i - k) * inc;
    }
  }

  /** The offsets the view visits, in increasing logical order. */
  function Offsets(o: int, inc: int, n: nat): (r: seq<int>)
    ensures |r| == n
    ensures forall i {:trigger r[i]} :: 0 <= i < n ==> r[i] == Pos(o, inc, i)
  {
    seq(n, i => Pos(o, inc, i))
  }

  /** Visiting `k` offsets and then `w` more from where the first run stopped is
      visiting the first `k + w` offsets. */
  lemma OffsetsAppend(o: int, inc: int, k: nat, w: nat)
    ensures Offsets(o, inc, k) + Offsets(Pos(o, inc, k), inc, w) == Offsets(o, inc, k + w)
  {
    var lhs := Offsets(o, inc, k) + Offsets(Pos(o, inc, k), inc, w);
    forall i | 0 <= i < k + w
      ensures lhs[i] == Pos(o, inc, i)
    {
      if i >= k {
        assert lhs[i] == Pos(Pos(o, inc, k), inc, i - k);
        assert Pos(Pos(o, inc, k), inc, i - k) == o + k * inc + (i - k) * inc;
        assert k * inc + (i - k) * inc == i * inc;
      }
    }
  }

  /** The unit-stride form of `OffsetsAppend`, with the second run starting at
      `p == o + k`. */
  lemma OffsetsRunUnit(o: int, k: nat, p: int, w: nat)
    requires p == o + k
    ensures Offsets(o, 1, k) + Offsets(p, 1, w) == Offsets(o, 1, k + w)
  {
    OffsetsAppend(o, 1, k, w);
  }

  /** The unit-stride form of `OffsetsStep`, with the next offset `p == o + k`. */
  lemma OffsetsPushUnit(o: int, k: nat, p: int)
    requires p == o + k
    ensures Offsets(o, 1, k) + [p] == Offsets(o, 1, k + 1)
  {
    OffsetsStep(o, 1, k);
  }

  /** Visiting one more offset extends the visit by that offset. */
  lemma OffsetsStep(o: int, inc: int, k: nat)
    ensures Offsets(o, inc, k) + [Pos(o, inc, k)] == Offsets(o, inc, k + 1)
  {
  }

  /** The logical contents of a view. */
  function Gather(s: seq<real>, o: int, inc: int, n: nat): (r: seq<real>)
    requires Fits(|s|, o, inc, n)
    ensures |r| == n
    ensures forall i {:trigger r[i]} :: 0 <= i < n ==> r[i] == s[Pos(o, inc, i)]
  {
    seq(n, i requires 0 <= i < n => s[Pos(o, inc, i)])
  }

  /** The buffer `s` after storing `v[0], v[1], ...` one after the other at the
      offsets of the view: this is what the strided loop of every writing kernel
      does.  The view then holds `v`; `ScatterFrame` says that nothing else
      changes. */
  function Scatter(s: seq<real>, o: int, inc: int, v: seq<real>): (r: seq<real>)
    requires inc != 0 && Fits(|s|, o, inc, |v|)
    ensures |r| == |s|
    ensures forall i {:trigger r[Pos(o, inc, i)]} :: 0 <= i < |v| ==> r[Pos(o, inc, i)] == v[i]
    decreases |v|
  {
    if |v| == 0 then s
    else
      var k := |v| - 1;
      PosDistinct(o, inc, k);
      Scatter(s, o, inc, v[..k])[Pos(o, inc, k) := v[k]]
  }

  /** Every offset the view does not visit keeps its value. */
  lemma {:induction false} ScatterFrame(s: seq<real>, o: int, inc: int, v: seq<real>, j: int)
    requires inc != 0 && Fits(|s|, o, inc, |v|)
    requires 0 <= j < |s| && forall i :: 0 <= i < |v| ==> Pos(o, inc, i) != j
    ensures Scatter(s, o, inc, v)[j] == s[j]
    decreases |v|
  {
    if |v| > 0 {
      ScatterFrame(s, o, inc, v[..|v| - 1], j);
    }
  }

  /** Storing one more element extends the sequential store by one step, and the
      cell it overwrites still holds its original value. */
  lemma ScatterStep(s: seq<real>, o: int, inc: int, v: seq<real>, k: nat)
    requires inc != 0 && k < |v| && Fits(|s|, o, inc, |v|)
    ensures Scatter(s, o, inc, v[..k])[Pos(o, inc, k)] == s[Pos(o, inc, k)]
    ensures Scatter(s, o, inc, v[..k + 1]) == Scatter(s, o, inc, v[..k])[Pos(o, inc, k) := v[k]]
  {
    PosDistinct(o, inc, k);
    ScatterFrame(s, o, inc, v[..k], Pos(o, inc, k));
    assert v[..k + 1][..k] == v[..k];
  }

  /** Reading a view right after storing `v` into it gives back `v`. */
  lemma GatherScatter(s: seq<real>, o: int, inc: int, v: seq<real>)
    requires inc != 0 && Fits(|s|, o, inc, |v|)
    ensures Gather(Scatter(s, o, inc, v), o, inc, |v|) == v
  {
  }

  /** Storing a view's own contents back into it changes nothing. */
  lemma ScatterGather(s: seq<real>, o: int, inc: int, n: nat)
    requires inc != 0 && Fits(|s|, o, inc, n)
    ensures Scatter(s, o, inc, Gather(s, o, inc, n)) == s
  {
    var g := Gather(s, o, inc, n);
    var r := Scatter(s, o, inc, g);
    forall j | 0 <= j < |s|
      ensures r[j] == s[j]
    {
      if i :| 0 <= i < n && Pos(o, inc, i) == j {
        assert r[Pos(o, inc, i)] == g[i];
      } else {
        ScatterFrame(s, o, inc, g, j);
      }
    }
  }

  /** A second store into the same view overwrites the first completely. */
  lemma ScatterOverwrite(s: seq<real>, o: int, inc: int, v: seq<real>, w: seq<real>)
    requires inc != 0 && |v| == |w| && Fits(|s|, o, inc, |v|)
    ensures Scatter(Scatter(s, o, inc, v), o, inc, w) == Scatter(s, o, inc, w)
  {
    var lhs := Scatter(Scatter(s, o, inc, v), o, inc, w);
    var rhs := Scatter(s, o, inc, w);
    forall j | 0 <= j < |s|
      ensures lhs[j] == rhs[j]
    {
      if i :| 0 <= i < |w| && Pos(o, inc, i) == j {
        assert lhs[Pos(o, inc, i)] == w[i] == rhs[Pos(o, inc, i)];
      } else {
        ScatterFrame(Scatter(s, o, inc, v), o, inc, w, j);
        ScatterFrame(s, o, inc, v, j);
        ScatterFrame(s, o, inc, w, j);
      }
    }
  }

  /** With unit stride the view is the contiguous slice `s[o..o+n]`. */
  lemma GatherUnit(s: seq<real>, o: int, n: nat)
    requires Fits(|s|, o, 1, n)
    ensures n > 0 ==> 0 <= o && o + n <= |s|
    ensures n > 0 ==> Gather(s, o, 1, n) == s[o..o + n]
  {
    if n > 0 {
      assert 0 <= Pos(o, 1, 0) && Pos(o, 1, n - 1) < |s|;
    }
  }

  /** A run of `w` elements of a unit-stride view, from logical element `k`, is the
      slice of the buffer at offset `o + k`. */
  lemma GatherUnitRun(s: seq<real>, o: int, n: nat, k: nat, p: int, w: nat)
    requires Fits(|s|, o, 1, n) && 0 < w && k + w <= n && p == o + k
    ensures 0 <= p && p + w <= |s|
    ensures Gather(s, o, 1, n)[k..k + w] == s[p..p + w]
  {
    assert 0 <= Pos(o, 1, 0) && Pos(o, 1, n - 1) < |s|;
  }

  /** With unit stride the sequential store writes the slice `[o, o+|v|)` and
      nothing else. */
  lemma ScatterUnit(s: seq<real>, o: int, v: seq<real>)
    requires Fits(|s|, o, 1, |v|)
    ensures forall j :: 0 <= j < |s| ==>
      Scatter(s, o, 1, v)[j] == if o <= j < o + |v| then v[j - o] else s[j]
  {
    forall j | 0 <= j < |s|
      ensures Scatter(s, o, 1, v)[j] == if o <= j < o + |v| then v[j - o] else s[j]
    {
      ScatterUnitAt(s, o, v, j);
    }
  }

  /** One cell of `ScatterUnit`. */
  lemma ScatterUnitAt(s: seq<real>, o: int, v: seq<real>, j: int)
    requires Fits(|s|, o, 1, |v|) && 0 <= j < |s|
    ensures Scatter(s, o, 1, v)[j] == if o <= j < o + |v| then v[j - o] else s[j]
  {
    if o <= j < o + |v| {
      var i := j - o;
      assert Pos(o, 1, i) == j;
      assert Scatter(s, o, 1, v)[Pos(o, 1, i)] == v[i];
    } else {
      forall i | 0 <= i < |v|
        ensures Pos(o, 1, i) != j
      {
        assert Pos(o, 1, i) == o + i;
      }
      ScatterFrame(s, o, 1, v, j);
    }
  }

  /** The cells `o .. o+n` lie inside a buffer of length `len`: the unit-stride
      form of `Fits`, stated without a quantifier. */
  predicate Within(len: int, o: int, n: nat)
  {
    n == 0 || (0 <= o && o + n <= len)
  }

  /** A unit-stride view that fits occupies a contiguous run of cells. */
  lemma FitsWithin(len: int, o: int, n: nat)
    requires Fits(len, o, 1, n)
    ensures Within(len, o, n)
  {
    if n > 0 {
      assert 0 <= Pos(o, 1, 0) && Pos(o, 1, n - 1) < len;
    }
  }

  /** `s` with the cells from offset `o` replaced by `v`: the buffer after a
      unit-stride kernel has stored `v` contiguously from `o`. */
  function Splice(s: seq<real>, o: int, v: seq<real>): (r: seq<real>)
    requires Within(|s|, o, |v|)
    ensures |r| == |s|
    ensures forall j {:trigger r[j]} :: 0 <= j < |s| ==>
      r[j] == if o <= j < o + |v| then v[j - o] else s[j]
  {
    seq(|s|, j requires 0 <= j < |s| => if o <= j < o + |v| then v[j - o] else s[j])
  }

  /** The next `w` cells after a splice of `k` elements (from offset `p == o + k`)
      still hold their original values, and overwriting them with the next `w`
      elements of `v` extends the splice: one vectorized step of a unit-stride
      kernel. */
  lemma SpliceBlock(s: seq<real>, o: int, v: seq<real>, k: nat, p: int, w: nat)
    requires Within(|s|, o, |v|) && 0 < w && k + w <= |v| && p == o + k
    ensures 0 <= p && p + w <= |s|
    ensures Splice(s, o, v[..k])[p..p + w] == s[p..p + w]
    ensures var cur := Splice(s, o, v[..k]);
      cur[..p] + v[k..k + w] + cur[p + w..] == Splice(s, o, v[..k + w])
  {
    var cur := Splice(s, o, v[..k]);
    var next := cur[..p] + v[k..k + w] + cur[p + w..];
    var goal := Splice(s, o, v[..k + w]);
    forall j | 0 <= j < |s|
      ensures next[j] == goal[j]
    {
      if j < p {
        assert next[j] == cur[j];
      } else if j < p + w {
        assert next[j] == v[k..k + w][j - p];
      } else {
        assert next[j] == cur[p + w..][j - p - w];
      }
    }
  }

  /** Before the run of `w` elements at `p == o + k` is overwritten, it still
      holds the view's original elements `k .. k+w`. */
  lemma SpliceLoad(s: seq<real>, o: int, v: seq<real>, k: nat, p: int, w: nat)
    requires Fits(|s|, o, 1, |v|) && Within(|s|, o, |v|) && 0 < w && k + w <= |v| && p == o + k
    ensures 0 <= p && p + w <= |s|
    ensures Splice(s, o, v[..k])[p..p + w] == Gather(s, o, 1, |v|)[k..k + w]
  {
    SpliceBlock(s, o, v, k, p, w);
    GatherUnitRun(s, o, |v|, k, p, w);
  }

  /** The scalar form of `SpliceLoad`. */
  lemma SpliceLoadOne(s: seq<real>, o: int, v: seq<real>, k: nat, p: int)
    requires Fits(|s|, o, 1, |v|) && Within(|s|, o, |v|) && k < |v| && p == o + k
    ensures 0 <= p < |s|
    ensures Splice(s, o, v[..k])[p] == Gather(s, o, 1, |v|)[k]
  {
    assert Pos(o, 1, k) == p;
  }

  /** The scalar form of `SpliceBlock`: one element at offset `p == o + k`. */
  lemma SpliceStep(s: seq<real>, o: int, v: seq<real>, k: nat, p: int)
    requires Within(|s|, o, |v|) && k < |v| && p == o + k
    ensures 0 <= p < |s|
    ensures Splice(s, o, v[..k])[p] == s[p]
    ensures Splice(s, o, v[..k])[p := v[k]] == Splice(s, o, v[..k + 1])
  {
    var next := Splice(s, o, v[..k])[p := v[k]];
    var goal := Splice(s, o, v[..k + 1]);
    forall j | 0 <= j < |s|
      ensures next[j] == goal[j]
    {
    }
  }

  /** Storing the whole of `v` is storing its full prefix. */
  lemma SpliceAll(s: seq<real>, o: int, v: seq<real>)
    requires Within(|s|, o, |v|)
    ensures Splice(s, o, v[..|v|]) == Splice(s, o, v)
  {
    assert v[..|v|] == v;
  }

  /** A unit-stride kernel that has stored all of `v` contiguously has done what
      the strided loop does with stride 1. */
  lemma SpliceIsScatter(s: seq<real>, o: int, v: seq<real>)
    requires Fits(|s|, o, 1, |v|) && Within(|s|, o, |v|)
    ensures Splice(s, o, v) == Scatter(s, o, 1, v)
  {
    var r, t := Splice(s, o, v), Scatter(s, o, 1, v);
    ScatterUnit(s, o, v);
    forall j | 0 <= j < |s|
      ensures r[j] == t[j]
    {
    }
  }
}
