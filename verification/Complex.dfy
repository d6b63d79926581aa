/** Complex numbers over exact reals: the `re`/`im` pairs of src/spectrum_math.h with
    rounding taken away.  They are a commutative ring. */
module Complex {

  import opened CommutativeRing

  datatype Cx = Cx(re: real, im: real)

  const Zero := Cx(0.0, 0.0)
  const One := Cx(1.0, 0.0)

  function Add(a: Cx, b: Cx): Cx { Cx(a.re + b.re, a.im + b.im) }

  function Sub(a: Cx, b: Cx): Cx { Cx(a.re - b.re, a.im - b.im) }

  function Neg(a: Cx): Cx { Cx(-a.re, -a.im) }

  function Mul(a: Cx, b: Cx): Cx { Cx(a.re * b.re - a.im * b.im, a.re * b.im + a.im * b.re) }

  const CxRing: Ring<Cx> := Ring(Zero, One, Add, Neg, Mul)

  /** The ring's operations on pairs. */
  lemma CxOps(a: Cx, b: Cx)
    ensures CxRing.add(a, b) == Add(a, b) && CxRing.Sub(a, b) == Sub(a, b) && CxRing.mul(a, b) == Mul(a, b)
    ensures CxRing.one == One
  {
  }

  lemma CxLaws()
    ensures Laws(CxRing)
  {
    forall a, b, c ensures CxRing.mul(CxRing.mul(a, b), c) == CxRing.mul(a, CxRing.mul(b, c)) {
      Associative(a, b, c);
    }
    forall a, b, c ensures CxRing.mul(a, CxRing.add(b, c)) == CxRing.add(CxRing.mul(a, b), CxRing.mul(a, c)) {
      Distributive(a, b, c);
    }
  }

  lemma Associative(a: Cx, b: Cx, c: Cx)
    ensures Mul(Mul(a, b), c) == Mul(a, Mul(b, c))
  {
    assert (a.re * b.re - a.im * b.im) * c.re - (a.re * b.im + a.im * b.re) * c.im
        == a.re * (b.re * c.re - b.im * c.im) - a.im * (b.re * c.im + b.im * c.re);
    assert (a.re * b.re - a.im * b.im) * c.im + (a.re * b.im + a.im * b.re) * c.re
        == a.re * (b.re * c.im + b.im * c.re) + a.im * (b.re * c.re - b.im * c.im);
  }

  lemma Distributive(a: Cx, b: Cx, c: Cx)
    ensures Mul(a, Add(b, c)) == Add(Mul(a, b), Mul(a, c))
  {
  }

  const I := Cx(0.0, 1.0)

  function Norm(a: Cx): real { a.re * a.re + a.im * a.im }

  /** Not any ring on pairs: i squared is -1, a real factor scales both parts, and a pair is re + im i. */
  lemma CxIsComplex(a: Cx, r: real)
    ensures Mul(I, I) == Neg(One) && Mul(Cx(r, 0.0), a) == Cx(r * a.re, r * a.im)
    ensures Add(Cx(a.re, 0.0), Mul(Cx(a.im, 0.0), I)) == a
  {
  }

  /** So the power of a product is the product of the powers: a twiddle of norm one keeps the power. */
  lemma NormMultiplies(a: Cx, b: Cx)
    ensures Norm(Mul(a, b)) == Norm(a) * Norm(b)
  {
    var p, q, r, s := a.re * b.re, a.im * b.im, a.re * b.im, a.im * b.re;
    assert p * q == r * s;
    assert (p - q) * (p - q) + (r + s) * (r + s) == p * p + q * q + r * r + s * s;
    Squares(a.re, b.re);
    Squares(a.im, b.im);
    Squares(a.re, b.im);
    Squares(a.im, b.re);
  }

  lemma Squares(x: real, y: real)
    ensures (x * y) * (x * y) == (x * x) * (y * y)
  {
  }
}
