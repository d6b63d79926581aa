/** Commutative rings: the laws the transform of src/spectrum_math.h needs, and powers. */
module CommutativeRing {

  datatype Ring<!T> = Ring(zero: T, one: T, add: (T, T) -> T, neg: T -> T, mul: (T, T) -> T)
  {
    function Sub(a: T, b: T): T { add(a, neg(b)) }

    function Pow(z: T, k: nat): T { if k == 0 then one else mul(Pow(z, k - 1), z) }
  }

  ghost predicate Laws<T(!new)>(R: Ring<T>) {
    && (forall a, b, c :: R.add(R.add(a, b), c) == R.add(a, R.add(b, c)))
    && (forall a, b :: R.add(a, b) == R.add(b, a))
    && (forall a :: R.add(a, R.zero) == a)
    && (forall a :: R.add(a, R.neg(a)) == R.zero)
    && (forall a, b, c :: R.mul(R.mul(a, b), c) == R.mul(a, R.mul(b, c)))
    && (forall a, b :: R.mul(a, b) == R.mul(b, a))
    && (forall a :: R.mul(a, R.one) == a)
    && (forall a, b, c :: R.mul(a, R.add(b, c)) == R.add(R.mul(a, b), R.mul(a, c)))
  }

  lemma AddComm<T(!new)>(R: Ring<T>, a: T, b: T)
    requires Laws(R)
    ensures R.add(a, b) == R.add(b, a)
  {
  }

  lemma AddAssoc<T(!new)>(R: Ring<T>, a: T, b: T, c: T)
    requires Laws(R)
    ensures R.add(R.add(a, b), c) == R.add(a, R.add(b, c))
  {
  }

  lemma AddZero<T(!new)>(R: Ring<T>, a: T)
    requires Laws(R)
    ensures R.add(a, R.zero) == R.add(R.zero, a) == a
    ensures R.add(a, R.neg(a)) == R.add(R.neg(a), a) == R.zero
  {
  }

  lemma MulComm<T(!new)>(R: Ring<T>, a: T, b: T)
    requires Laws(R)
    ensures R.mul(a, b) == R.mul(b, a)
  {
  }

  lemma MulAssoc<T(!new)>(R: Ring<T>, a: T, b: T, c: T)
    requires Laws(R)
    ensures R.mul(R.mul(a, b), c) == R.mul(a, R.mul(b, c))
  {
  }

  lemma MulAdd<T(!new)>(R: Ring<T>, a: T, b: T, c: T)
    requires Laws(R)
    ensures R.mul(a, R.add(b, c)) == R.add(R.mul(a, b), R.mul(a, c))
  {
  }

  lemma OneLaw<T(!new)>(R: Ring<T>, a: T)
    requires Laws(R)
    ensures R.mul(a, R.one) == R.mul(R.one, a) == a
  {
  }

  /** What cancels a is its negative. */
  lemma NegIsUnique<T(!new)>(R: Ring<T>, a: T, b: T)
    requires Laws(R) && R.add(a, b) == R.zero
    ensures b == R.neg(a)
  {
    AddZero(R, a);
    AddZero(R, b);
    AddZero(R, R.neg(a));
    AddAssoc(R, R.neg(a), a, b);
  }

  lemma TimesZero<T(!new)>(R: Ring<T>, a: T)
    requires Laws(R)
    ensures R.mul(a, R.zero) == R.zero
  {
    var p := R.mul(a, R.zero);
    AddZero(R, R.zero);
    MulAdd(R, a, R.zero, R.zero);
    AddAssoc(R, p, p, R.neg(p));
    AddZero(R, p);
  }

  lemma TimesOne<T(!new)>(R: Ring<T>, a: T)
    requires Laws(R)
    ensures R.mul(a, R.one) == a && R.mul(R.one, a) == a && R.mul(a, R.zero) == R.zero
  {
    OneLaw(R, a);
    TimesZero(R, a);
  }

  lemma MulNeg<T(!new)>(R: Ring<T>, a: T, b: T)
    requires Laws(R)
    ensures R.mul(a, R.neg(b)) == R.neg(R.mul(a, b))
    ensures R.mul(R.neg(a), b) == R.neg(R.mul(a, b))
  {
    hide Laws;
    MulNegRight(R, a, b);
    MulNegRight(R, b, a);
    MulComm(R, R.neg(a), b);
    MulComm(R, a, b);
  }

  lemma MulNegRight<T(!new)>(R: Ring<T>, a: T, b: T)
    requires Laws(R)
    ensures R.mul(a, R.neg(b)) == R.neg(R.mul(a, b))
  {
    hide Laws;
    MulAdd(R, a, b, R.neg(b));
    AddZero(R, b);
    TimesZero(R, a);
    NegIsUnique(R, R.mul(a, b), R.mul(a, R.neg(b)));
  }

  lemma NegNeg<T(!new)>(R: Ring<T>, a: T)
    requires Laws(R)
    ensures R.neg(R.neg(a)) == a
  {
    hide Laws;
    AddZero(R, a);
    NegIsUnique(R, R.neg(a), a);
  }

  lemma {:induction false} PowAdd<T(!new)>(R: Ring<T>, z: T, j: nat, k: nat)
    requires Laws(R)
    ensures R.Pow(z, j + k) == R.mul(R.Pow(z, j), R.Pow(z, k))
  {
    hide Laws;
    TimesOne(R, R.Pow(z, j));
    if k > 0 {
      PowAdd(R, z, j, k - 1);
      MulAssoc(R, R.Pow(z, j), R.Pow(z, k - 1), z);
    }
  }

  /** (z*z)^k == z^k * z^k */
  lemma {:induction false} PowSquare<T(!new)>(R: Ring<T>, z: T, k: nat)
    requires Laws(R)
    ensures R.Pow(R.mul(z, z), k) == R.mul(R.Pow(z, k), R.Pow(z, k)) == R.Pow(z, 2 * k)
  {
    hide Laws;
    PowAdd(R, z, k, k);
    if k > 0 {
      PowSquare(R, z, k - 1);
      assert R.Pow(z, 2 * k) == R.mul(R.mul(R.Pow(z, 2 * k - 2), z), z);
      MulAssoc(R, R.Pow(z, 2 * k - 2), z, z);
    }
  }

  lemma {:induction false} PowPow<T(!new)>(R: Ring<T>, z: T, j: nat, k: nat)
    requires Laws(R)
    ensures R.Pow(R.Pow(z, k), j) == R.Pow(z, j * k)
  {
    hide Laws;
    if j > 0 {
      PowPow(R, z, j - 1, k);
      PowAdd(R, z, (j - 1) * k, k);
      assert (j - 1) * k + k == j * k;
    }
  }
}
