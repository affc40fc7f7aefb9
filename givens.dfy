/** `srotg` of src/level1.rs: the parameters `(r, z, c, s)` of the Givens
    rotation that maps `(a, b)` to `(r, 0)`. */
module Givens {
  import opened Reals
  import opened Level1

  /** Givens rotation parameters `(r, z, c, s)`. */
  datatype Rotation = Rotation(r: real, z: real, c: real, s: real)

  /** `f32::signum` on a real: `-1` for negatives, `1` otherwise (Rust gives `1`
      for `+0.0`). */
  function Signum(v: real): real
  {
    if v < 0.0 then -1.0 else 1.0
  }

  /** `h` is the hypotenuse of `(a, b)`. */
  predicate IsHypot(a: real, b: real, h: real)
  {
    h >= 0.0 && Sq(h) == Sq(a) + Sq(b)
  }

  /** `srotg(a, b)`.  The hypotenuse `a.hypot(b)` is not algebraic; it is passed in
      as `h`, characterised by `IsHypot`.  Away from `(0, 0)` the result satisfies
      `c*r == a` and `s*r == b`. */
  function Srotg(a: real, b: real, h: real): (g: Rotation)
    requires IsHypot(a, b, h)
    ensures a == 0.0 && b == 0.0 ==> g == Rotation(0.0, 0.0, 1.0, 0.0)
    ensures !(a == 0.0 && b == 0.0) ==> g.r != 0.0 && Prod(g.c, g.r) == a && Prod(g.s, g.r) == b
  {
    if a == 0.0 && b == 0.0 then Rotation(0.0, 0.0, 1.0, 0.0)
    else
      HypotPositive(a, b, h);
      var r := if Abs(a) > Abs(b) then h * Signum(a) else h * Signum(b);
      var c := a / r;
      var s := b / r;
      var z := if Abs(a) > Abs(b) then s else if c != 0.0 then 1.0 / c else 1.0;
      Rotation(r, z, c, s)
  }

  /** The hypotenuse of a non-zero pair is positive, so `srotg` never divides by
      zero. */
  lemma HypotPositive(a: real, b: real, h: real)
    requires IsHypot(a, b, h) && !(a == 0.0 && b == 0.0)
    ensures h > 0.0
  {
    if a != 0.0 { SquarePositive(a); } else { SquarePositive(b); }
    SquareNonneg(a);
    SquareNonneg(b);
  }

  /** `|r| == h`, and `r` carries the sign of whichever of `a`, `b` is larger in
      magnitude (`b` on a tie). */
  lemma SrotgRadius(a: real, b: real, h: real)
    requires IsHypot(a, b, h) && !(a == 0.0 && b == 0.0)
    ensures Abs(Srotg(a, b, h).r) == h
    ensures var m := if Abs(a) > Abs(b) then a else b; (Srotg(a, b, h).r < 0.0 <==> m < 0.0)
  {
    HypotPositive(a, b, h);
  }

  /** `r² == a² + b²`. */
  lemma SrotgRadiusSquare(a: real, b: real, h: real)
    requires IsHypot(a, b, h) && !(a == 0.0 && b == 0.0)
    ensures Sq(Srotg(a, b, h).r) == Sq(a) + Sq(b)
  {
    if Abs(a) > Abs(b) { SqSign(h, Signum(a)); } else { SqSign(h, Signum(b)); }
  }

  /** `c² + s² == 1`: the parameters describe a rotation. */
  lemma SrotgUnit(a: real, b: real, h: real)
    requires IsHypot(a, b, h)
    ensures var g := Srotg(a, b, h); Sq(g.c) + Sq(g.s) == 1.0
  {
    var g := Srotg(a, b, h);
    if a == 0.0 && b == 0.0 {
      assert Sq(1.0) == 1.0 && Sq(0.0) == 0.0;
    } else {
      SrotgRadiusSquare(a, b, h);
      SqProd(g.c, g.r);
      SqProd(g.s, g.r);
      SquarePositive(g.r);
      SharesOfOne(Sq(g.c), Sq(g.s), Sq(g.r));
    }
  }

  /** Applying `srot`'s update with the computed `(c, s)` to `(a, b)` gives
      `(r, 0)`. */
  lemma SrotgAnnihilates(a: real, b: real, h: real)
    requires IsHypot(a, b, h)
    ensures var g := Srotg(a, b, h); RotX(g.c, g.s, a, b) == g.r && RotY(g.c, g.s, a, b) == 0.0
  {
    var g := Srotg(a, b, h);
    if !(a == 0.0 && b == 0.0) {
      SrotgUnit(a, b, h);
      Annihilate(g.c, g.s, g.r, a, b);
    }
  }

  /** A unit `(c, s)` rotates `(c*r, s*r)` to `(r, 0)`. */
  lemma Annihilate(c: real, s: real, r: real, a: real, b: real)
    requires Prod(c, r) == a && Prod(s, r) == b && Sq(c) + Sq(s) == 1.0
    ensures RotX(c, s, a, b) == r && RotY(c, s, a, b) == 0.0
  {
    assert c * (c * r) == Prod(Sq(c), r);
    assert s * (s * r) == Prod(Sq(s), r);
    Distrib(Sq(c), Sq(s), r);
    assert c * (s * r) == s * (c * r);
    assert Prod(1.0, r) == r;
  }

  /** `z` encodes the rotation in one number, and `(c, s)` can be read back from it:
      - `z² < 1` exactly when `|a| > |b|`; then `s == z` and `c == +sqrt(1 - z²)`;
      - `z² > 1`: then `c == 1/z` and `s > 0`, so `s == +sqrt(1 - c²)`;
      - `z² == 1`: then `z == 1`, `c == 0` and `s == 1`. */
  lemma SrotgZ(a: real, b: real, h: real)
    requires IsHypot(a, b, h)
    ensures var g := Srotg(a, b, h);
      && (Sq(g.z) < 1.0 ==> g.s == g.z && g.c > 0.0 && Sq(g.c) == 1.0 - Sq(g.z))
      && (Sq(g.z) > 1.0 ==> Prod(g.c, g.z) == 1.0 && g.s > 0.0)
      && (Sq(g.z) == 1.0 ==> g.z == 1.0 && g.c == 0.0 && g.s == 1.0)
    ensures !(a == 0.0 && b == 0.0) ==> (Sq(Srotg(a, b, h).z) < 1.0 <==> Abs(a) > Abs(b))
  {
    var g := Srotg(a, b, h);
    if a == 0.0 && b == 0.0 {
      assert Sq(0.0) == 0.0 && Sq(1.0) == 1.0;
    } else {
      SrotgUnit(a, b, h);
      SrotgRadiusSquare(a, b, h);
      SrotgRadius(a, b, h);
      if Abs(a) > Abs(b) {
        SineCase(a, b, g.r, g.c, g.s);
      } else if g.c != 0.0 {
        assert Prod(g.c, g.z) == 1.0;
        ReciprocalCase(a, b, g.r, g.c, g.s, g.z);
      } else {
        assert a == 0.0 by { assert Prod(g.c, g.r) == 0.0; }
        UnitCase(b, h, g.r, g.s);
        assert Sq(1.0) == 1.0;
      }
    }
  }

  /** The case `|a| > |b|` of `SrotgZ`. */
  lemma SineCase(a: real, b: real, r: real, c: real, s: real)
    requires Prod(c, r) == a && Prod(s, r) == b && Sq(r) == Sq(a) + Sq(b)
    requires Abs(a) > Abs(b) && (r < 0.0 <==> a < 0.0) && Sq(c) + Sq(s) == 1.0
    ensures Sq(s) < 1.0 && c > 0.0
  {
    SqMono(b, a);
    SquareNonneg(b);
    SqProd(s, r);
    CompareWithOne(Sq(s), Sq(r));
    SameSignQuotient(c, r, a);
  }

  /** The case `|a| <= |b|`, `c != 0` of `SrotgZ`. */
  lemma ReciprocalCase(a: real, b: real, r: real, c: real, s: real, z: real)
    requires Prod(c, r) == a && Prod(s, r) == b && r != 0.0 && Sq(r) == Sq(a) + Sq(b)
    requires Abs(a) <= Abs(b) && c != 0.0 && Prod(c, z) == 1.0 && (r < 0.0 <==> b < 0.0)
    ensures Sq(z) > 1.0 && s > 0.0
  {
    NonzeroProduct(c, r);
    SqMono(a, b);
    SquarePositive(a);
    SquarePositive(b);
    SqProd(c, r);
    CompareWithOne(Sq(c), Sq(r));
    SquarePositive(c);
    SqProd(c, z);
    assert Sq(1.0) == 1.0;
    assert Prod(Sq(z), Sq(c)) == Prod(Sq(c), Sq(z));
    CompareWithOne(Sq(z), Sq(c));
    SameSignQuotient(s, r, b);
  }

  /** The case `c == 0` of `SrotgZ`: then `a == 0`, `r == b` and `s == 1`. */
  lemma UnitCase(b: real, h: real, r: real, s: real)
    requires IsHypot(0.0, b, h) && b != 0.0 && r == h * Signum(b) && Prod(s, r) == b
    ensures s == 1.0
  {
    assert Sq(0.0) == 0.0;
    SqAbs(b);
    SqNonnegInjective(h, Abs(b));
    assert r == b;
    assert Prod(1.0, b) == b;
    Cancel(s, 1.0, b);
  }
}
