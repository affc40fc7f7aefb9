/** Facts about products of reals used by the Givens rotation proofs.

    Products are written through `Prod` and squares through `Sq`, and every
    step of sign reasoning is a small lemma of its own, so that each proof
    obligation stays linear in the products it mentions. */
module Reals {

  /** Absolute value of a real. */
  function Abs(v: real): real
  {
    if v < 0.0 then -v else v
  }

  /** `x*y`. */
  function Prod(x: real, y: real): real
  {
    x * y
  }

  /** `v²`. */
  function Sq(v: real): real
  {
    Prod(v, v)
  }

  lemma MulPos(x: real, y: real)
    requires x > 0.0 && y > 0.0
    ensures Prod(x, y) > 0.0
  {
  }

  lemma MulNonneg(x: real, y: real)
    requires x >= 0.0 && y >= 0.0
    ensures Prod(x, y) >= 0.0
  {
    if x > 0.0 && y > 0.0 {
      MulPos(x, y);
    }
  }

  lemma NegNeg(x: real, y: real)
    ensures Prod(-x, -y) == Prod(x, y)
  {
  }

  lemma Distrib(u: real, v: real, q: real)
    ensures Prod(u + v, q) == Prod(u, q) + Prod(v, q)
  {
  }

  /** A product of non-zero factors is non-zero. */
  lemma NonzeroProduct(d: real, q: real)
    requires d != 0.0 && q != 0.0
    ensures Prod(d, q) != 0.0
  {
    if d > 0.0 && q > 0.0 {
      MulPos(d, q);
    } else if d < 0.0 && q < 0.0 {
      MulPos(-d, -q);
      NegNeg(d, q);
    } else if d < 0.0 {
      MulPos(-d, q);
      assert Prod(-d, q) == -Prod(d, q);
    } else {
      MulPos(d, -q);
      assert Prod(d, -q) == -Prod(d, q);
    }
  }

  /** A non-zero factor cancels. */
  lemma Cancel(x: real, y: real, q: real)
    requires q != 0.0 && Prod(x, q) == Prod(y, q)
    ensures x == y
  {
    Distrib(x, -y, q);
    assert Prod(-y, q) == -Prod(y, q);
    if x != y {
      NonzeroProduct(x - y, q);
    }
  }

  /** If two shares of a non-zero `q` add up to `q`, the share factors add up to 1. */
  lemma SharesOfOne(u: real, v: real, q: real)
    requires q != 0.0 && Prod(u, q) + Prod(v, q) == q
    ensures u + v == 1.0
  {
    Distrib(u, v, q);
    Cancel(u + v, 1.0, q);
  }

  lemma SquarePositive(w: real)
    requires w != 0.0
    ensures Sq(w) > 0.0
  {
    if w > 0.0 {
      MulPos(w, w);
    } else {
      MulPos(-w, -w);
      NegNeg(w, w);
    }
  }

  lemma SquareNonneg(v: real)
    ensures Sq(v) >= 0.0
  {
    if v != 0.0 {
      SquarePositive(v);
    }
  }

  lemma SqAbs(x: real)
    ensures Sq(Abs(x)) == Sq(x)
  {
    if x < 0.0 {
      NegNeg(x, x);
    }
  }

  /** Squaring is monotone in the magnitude. */
  lemma SqMono(x: real, y: real)
    requires Abs(x) <= Abs(y)
    ensures Sq(x) <= Sq(y)
    ensures Abs(x) < Abs(y) ==> Sq(x) < Sq(y)
  {
    var p, q := Abs(x), Abs(y);
    SqAbs(x);
    SqAbs(y);
    assert Prod(q, q) - Prod(p, p) == Prod(q - p, q + p);
    MulNonneg(q - p, q + p);
    if p < q {
      MulPos(q - p, q + p);
    }
  }

  /** Non-negative reals with equal squares are equal. */
  lemma SqNonnegInjective(x: real, y: real)
    requires x >= 0.0 && y >= 0.0 && Sq(x) == Sq(y)
    ensures x == y
  {
    if x < y {
      SqMono(x, y);
    } else if y < x {
      SqMono(y, x);
    }
  }

  /** Changing the sign does not change the square. */
  lemma SqSign(h: real, t: real)
    requires t == 1.0 || t == -1.0
    ensures Sq(h * t) == Sq(h)
  {
    if t == -1.0 {
      NegNeg(h, h);
      assert h * t == -h;
    }
  }

  lemma SqProd(u: real, v: real)
    ensures Sq(Prod(u, v)) == Prod(Sq(u), Sq(v))
  {
    assert (u * v) * (u * v) == (u * u) * (v * v);
  }

  /** With `q > 0`, `u*q < q` forces `u < 1` and `u*q > q` forces `u > 1`. */
  lemma CompareWithOne(u: real, q: real)
    requires q > 0.0
    ensures Prod(u, q) < q ==> u < 1.0
    ensures Prod(u, q) > q ==> u > 1.0
  {
    Distrib(u, -1.0, q);
    assert Prod(-1.0, q) == -q;
    if u >= 1.0 {
      MulNonneg(u - 1.0, q);
    }
    if u <= 1.0 {
      MulNonneg(1.0 - u, q);
      Distrib(1.0, -u, q);
      assert Prod(-u, q) == -Prod(u, q);
      assert Prod(1.0, q) == q;
    }
  }

  /** A factor is positive when the product is non-zero and has the sign of the
      other factor. */
  lemma SameSignQuotient(c: real, r: real, a: real)
    requires Prod(c, r) == a && a != 0.0 && (r < 0.0 <==> a < 0.0)
    ensures c > 0.0
  {
    if c < 0.0 && r > 0.0 {
      MulPos(-c, r);
    } else if c < 0.0 && r < 0.0 {
      MulPos(-c, -r);
      NegNeg(c, r);
    }
  }
}
