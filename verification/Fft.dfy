/** src/spectrum_math.h: the in-place radix-2 transform, in place over exact complex numbers, and
    the same algorithm over any commutative ring.

    The twiddle factor of a stage of length `len`, (cosf(-2 pi/len), sinf(-2 pi/len)) in the
    source, is a parameter `root(len)` of which only the half-angle law is used. */
module Fft {
  import opened CommutativeRing
  import opened Complex
  import opened BitReverse

  /** rs[k] is a principal 2^k-th root of unity for every k up to `bits`. */
  ghost predicate HalfAngle<T(!new)>(R: Ring<T>, rs: seq<T>, bits: nat) {
    && Laws(R) && |rs| == bits + 1
    && rs[0] == R.one
    && (bits >= 1 ==> rs[1] == R.neg(R.one))
    && forall k: nat | k < bits :: R.mul(rs[k + 1], rs[k + 1]) == rs[k]
  }

  // ------------------------------------------------------------------ specification

  /** sum over j < m of x[j] * w^(j*k) */
  ghost function DftSum<T(!new)>(R: Ring<T>, x: seq<T>, w: T, k: nat, m: nat): T
    requires m <= |x|
  {
    if m == 0 then R.zero else R.add(DftSum(R, x, w, k, m - 1), R.mul(x[m - 1], R.Pow(w, (m - 1) * k)))
  }

  /** The discrete Fourier transform of x with respect to the root w. */
  ghost function Dft<T(!new)>(R: Ring<T>, x: seq<T>, w: T): (r: seq<T>)
    ensures |r| == |x|
  {
    seq(|x|, k requires 0 <= k < |x| => DftSum(R, x, w, k, |x|))
  }

  ghost function Points(re: seq<real>, im: seq<real>): (z: seq<Cx>)
    requires |re| == |im|
    ensures |z| == |re|
  {
    seq(|re|, k requires 0 <= k < |re| => Cx(re[k], im[k]))
  }

  // ------------------------------------------------- strided evaluation (Horner form)

  /** m terms from index o on in strides of s. */
  predicate Strided(len: nat, s: nat, o: nat, m: nat) {
    m > 0 ==> o + (m - 1) * s < len
  }

  lemma StridedTail(len: nat, s: nat, o: nat, m: nat)
    requires m > 0 && Strided(len, s, o, m)
    ensures o < len && Strided(len, s, o + s, m - 1)
  {
    assert m > 1 ==> (m - 1) * s == (m - 2) * s + s;
  }

  /** Every second term, from the first and from the second one. */
  lemma StridedSplit(len: nat, s: nat, o: nat, m: nat)
    requires Strided(len, s, o, 2 * m)
    ensures Strided(len, 2 * s, o, m) && Strided(len, 2 * s, o + s, m)
  {
    if m > 0 { assert (m - 1) * (2 * s) + s == (2 * m - 1) * s; }
  }

  /** x[o] + z*x[o+s] + ... + z^(m-1)*x[o+(m-1)s] */
  ghost function Eval<T(!new)>(R: Ring<T>, x: seq<T>, s: nat, o: nat, m: nat, z: T): T
    requires Strided(|x|, s, o, m)
    decreases m
  {
    if m == 0 then R.zero
    else
      StridedTail(|x|, s, o, m);
      R.add(x[o], R.mul(z, Eval(R, x, s, o + s, m - 1, z)))
  }

  lemma EvalOnce<T(!new)>(R: Ring<T>, x: seq<T>, s: nat, o: nat, m: nat, z: T)
    requires m > 0 && Strided(|x|, s, o, m)
    ensures o < |x| && Strided(|x|, s, o + s, m - 1)
    ensures Eval(R, x, s, o, m, z) == R.add(x[o], R.mul(z, Eval(R, x, s, o + s, m - 1, z)))
  {
    hide Strided;
    StridedTail(|x|, s, o, m);
  }

  /** Even/odd split: one transform of length 2m from two of length m. */
  lemma {:induction false} EvalSplit<T(!new)>(R: Ring<T>, x: seq<T>, s: nat, o: nat, m: nat, z: T)
    requires Laws(R)
    requires Strided(|x|, s, o, 2 * m)
    ensures Strided(|x|, 2 * s, o, m) && Strided(|x|, 2 * s, o + s, m)
    ensures Eval(R, x, s, o, 2 * m, z)
         == R.add(Eval(R, x, 2 * s, o, m, R.mul(z, z)), R.mul(z, Eval(R, x, 2 * s, o + s, m, R.mul(z, z))))
    decreases m
  {
    hide Laws, Strided, Eval;
    StridedSplit(|x|, s, o, m);
    if m > 0 {
      EvalOnce(R, x, s, o, 2 * m, z);
      EvalOnce(R, x, s, o + s, 2 * m - 1, z);
      EvalOnce(R, x, 2 * s, o, m, R.mul(z, z));
      EvalOnce(R, x, 2 * s, o + s, m, R.mul(z, z));
      assert (o + s) + s == o + 2 * s && (o + s) + 2 * s == (o + 2 * s) + s;
      EvalSplit(R, x, s, o + 2 * s, m - 1, z);
      var e := Eval(R, x, 2 * s, o + 2 * s, m - 1, R.mul(z, z));
      var d := Eval(R, x, 2 * s, o + 2 * s + s, m - 1, R.mul(z, z));
      SplitAlgebra(R, z, x[o], x[o + s], e, d);
    } else {
      EvalNone(R, x, s, o, z);
      EvalNone(R, x, 2 * s, o, R.mul(z, z));
      EvalNone(R, x, 2 * s, o + s, R.mul(z, z));
      TimesOne(R, z);
      AddZero(R, R.zero);
    }
  }

  lemma SplitAlgebra<T(!new)>(R: Ring<T>, z: T, a: T, b: T, e: T, d: T)
    requires Laws(R)
    ensures R.add(a, R.mul(z, R.add(b, R.mul(z, R.add(e, R.mul(z, d))))))
         == R.add(R.add(a, R.mul(R.mul(z, z), e)), R.mul(z, R.add(b, R.mul(R.mul(z, z), d))))
  {
    hide Laws;
    var z2 := R.mul(z, z);
    var zb, ze, z2e, z2d := R.mul(z, b), R.mul(z, e), R.mul(z2, e), R.mul(z2, d);
    MulAdd(R, z, e, R.mul(z, d));
    MulAssoc(R, z, z, d);
    MulAdd(R, z, b, R.add(ze, z2d));
    MulAdd(R, z, ze, z2d);
    MulAssoc(R, z, z, e);
    MulAdd(R, z, b, z2d);
    var u := R.mul(z, z2d);
    AddAssoc(R, zb, z2e, u);
    AddComm(R, zb, z2e);
    AddAssoc(R, z2e, zb, u);
    AddAssoc(R, a, z2e, R.add(zb, u));
  }

  /** Horner evaluation peeled from the far end. */
  lemma {:induction false} EvalLast<T(!new)>(R: Ring<T>, x: seq<T>, o: nat, m: nat, z: T)
    requires Laws(R) && m > 0 && o + m <= |x|
    ensures Eval(R, x, 1, o, m, z) == R.add(Eval(R, x, 1, o, m - 1, z), R.mul(x[o + m - 1], R.Pow(z, m - 1)))
    decreases m
  {
    hide Laws, Eval;
    EvalOnce(R, x, 1, o, m, z);
    if m == 1 {
      EvalNone(R, x, 1, o + 1, z);
      EvalNone(R, x, 1, o, z);
      TimesOne(R, z);
      TimesOne(R, x[o]);
      AddZero(R, x[o]);
    } else {
      EvalLast(R, x, o + 1, m - 1, z);
      EvalOnce(R, x, 1, o, m - 1, z);
      var rest := Eval(R, x, 1, o + 1, m - 2, z);
      var last := x[o + m - 1];
      var q := R.mul(last, R.Pow(z, m - 2));
      MulAdd(R, z, rest, q);
      MulComm(R, z, q);
      MulAssoc(R, last, R.Pow(z, m - 2), z);
      AddAssoc(R, x[o], R.mul(z, rest), R.mul(z, q));
    }
  }

  lemma EvalNone<T(!new)>(R: Ring<T>, x: seq<T>, s: nat, o: nat, z: T)
    ensures Eval(R, x, s, o, 0, z) == R.zero
  {
  }

  /** The Horner form at w^k is the k-th DFT coefficient. */
  lemma {:induction false} EvalIsDftSum<T(!new)>(R: Ring<T>, x: seq<T>, w: T, k: nat, m: nat)
    requires Laws(R)
    requires m <= |x|
    ensures Eval(R, x, 1, 0, m, R.Pow(w, k)) == DftSum(R, x, w, k, m)
  {
    hide Laws;
    if m > 0 {
      EvalIsDftSum(R, x, w, k, m - 1);
      EvalLast(R, x, 0, m, R.Pow(w, k));
      PowPow(R, w, m - 1, k);
    }
  }

  // ---------------------------------------------------------------- roots of unity

  /** w = root(2h) satisfies w^h = -1, and w*w = root(h). */
  lemma {:induction false} HalfTurn<T(!new)>(R: Ring<T>, rs: seq<T>, bits: nat, k: nat)
    requires HalfAngle(R, rs, bits) && k < bits
    ensures R.Pow(rs[k + 1], Pow2(k)) == R.neg(R.one)
  {
    hide Laws;
    if k == 0 {
      TimesOne(R, rs[1]);
      assert R.Pow(rs[1], 1) == R.mul(R.Pow(rs[1], 0), rs[1]);
    } else {
      HalfTurn(R, rs, bits, k - 1);
      var w := rs[k + 1];
      PowSquare(R, w, Pow2(k - 1));
      assert R.mul(w, w) == rs[k];
    }
  }

  // ------------------------------------------------------------ state between stages

  lemma StrideFits(bits: nat, k: nat, b: nat)
    requires k <= bits
    ensures Rev(bits - k, b) + (Pow2(k) - 1) * Pow2(bits - k) < Pow2(bits)
  {
    Pow2Add(k, bits - k);
    assert (Pow2(k) - 1) * Pow2(bits - k) == Pow2(bits) - Pow2(bits - k);
  }

  /** Coefficient j of block b once blocks of length 2^k are transformed: the 2^k-point
      transform of the samples b's reversed index apart by the stride 2^(bits-k). */
  ghost function Coef<T(!new)>(R: Ring<T>, x: seq<T>, rs: seq<T>, bits: nat, k: nat, b: nat, j: nat): T
    requires |x| == Pow2(bits) && k <= bits < |rs|
  {
    StrideFits(bits, k, b);
    Eval(R, x, Pow2(bits - k), Rev(bits - k, b), Pow2(k), R.Pow(rs[k], j))
  }

  /** The 2^(k+1)-point evaluation of a block splits over its two children, at any z
      whose square is the children's evaluation point. */
  lemma MergeAt<T(!new)>(R: Ring<T>, x: seq<T>, rs: seq<T>, bits: nat, k: nat, b: nat, j: nat, z: T)
    requires Laws(R)
    requires |x| == Pow2(bits) && k < bits < |rs|
    requires R.mul(z, z) == R.Pow(rs[k], j)
    ensures Rev(bits - k - 1, b) + (Pow2(k + 1) - 1) * Pow2(bits - k - 1) < Pow2(bits)
    ensures Eval(R, x, Pow2(bits - k - 1), Rev(bits - k - 1, b), Pow2(k + 1), z)
         == R.add(Coef(R, x, rs, bits, k, 2 * b, j), R.mul(z, Coef(R, x, rs, bits, k, 2 * b + 1, j)))
  {
    hide Laws, Eval;
    StrideFits(bits, k + 1, b);
    RevChildren(bits - k - 1, b);
    EvalSplit(R, x, Pow2(bits - k - 1), Rev(bits - k - 1, b), Pow2(k), z);
  }

  /** Squares of the two twiddles w^j and w^(j+h) = -w^j agree with root(h)^j. */
  lemma Twiddles<T(!new)>(R: Ring<T>, rs: seq<T>, bits: nat, k: nat, j: nat)
    requires HalfAngle(R, rs, bits) && k < bits
    ensures var w := rs[k + 1];
            && R.mul(R.Pow(w, j), R.Pow(w, j)) == R.Pow(rs[k], j)
            && R.Pow(w, j + Pow2(k)) == R.neg(R.Pow(w, j))
            && R.mul(R.neg(R.Pow(w, j)), R.neg(R.Pow(w, j))) == R.Pow(rs[k], j)
  {
    hide Laws;
    var w, h := rs[k + 1], Pow2(k);
    assert Pow2(k + 1) == 2 * h;
    assert R.mul(w, w) == rs[k];
    PowSquare(R, w, j);
    PowAdd(R, w, j, h);
    HalfTurn(R, rs, bits, k);
    MulNeg(R, R.Pow(w, j), R.one);
    TimesOne(R, R.Pow(w, j));
    MulNeg(R, R.Pow(w, j), R.neg(R.Pow(w, j)));
    MulNeg(R, R.Pow(w, j), R.Pow(w, j));
    NegNeg(R, R.mul(R.Pow(w, j), R.Pow(w, j)));
  }

  /** Two finished half-length blocks determine the block above them: the butterfly. */
  lemma Merge<T(!new)>(R: Ring<T>, x: seq<T>, rs: seq<T>, bits: nat, k: nat, b: nat, j: nat)
    requires |x| == Pow2(bits) && k < bits
    requires HalfAngle(R, rs, bits)
    ensures var turn := R.mul(Coef(R, x, rs, bits, k, 2 * b + 1, j), R.Pow(rs[k + 1], j));
            && Coef(R, x, rs, bits, k + 1, b, j) == R.add(Coef(R, x, rs, bits, k, 2 * b, j), turn)
            && Coef(R, x, rs, bits, k + 1, b, j + Pow2(k)) == R.Sub(Coef(R, x, rs, bits, k, 2 * b, j), turn)
  {
    hide Laws, Eval, Ring.Pow;
    var cw, d := R.Pow(rs[k + 1], j), Coef(R, x, rs, bits, k, 2 * b + 1, j);
    Twiddles(R, rs, bits, k, j);
    MergeAt(R, x, rs, bits, k, b, j, cw);
    MergeAt(R, x, rs, bits, k, b, j, R.neg(cw));
    MulComm(R, cw, d);
    MulNeg(R, cw, d);
  }

  /** The 2^k entries from i on hold the transform of block b. */
  ghost predicate BlockDone<T(!new)>(R: Ring<T>, x: seq<T>, z: seq<T>, rs: seq<T>, bits: nat, k: nat, b: nat, i: nat)
    requires |x| == |z| == Pow2(bits) && k <= bits < |rs| && i + Pow2(k) <= |z|
  {
    forall q: nat {:trigger z[q]} | i <= q < i + Pow2(k) :: z[q] == Coef(R, x, rs, bits, k, b, q - i)
  }

  // ------------------------------------------------------------------ the algorithm

  /** Samples k with k or its reversed index already visited are in place. */
  ghost predicate PermutedUpTo<T>(x: seq<T>, z: seq<T>, bits: nat, i: nat)
    requires |x| == |z| == Pow2(bits)
  {
    forall k: nat {:trigger z[k]} | k < |z| :: z[k] == if k < i || Rev(bits, k) < i then x[Rev(bits, k)] else x[k]
  }

  /** `j & bit` for a power of two `bit`. */
  predicate HasBit(j: nat, bit: nat)
    requires bit > 0
  {
    j / bit % 2 == 1
  }

  lemma HasBitTop(j: nat, bit: nat)
    requires bit > 0 && j < 2 * bit
    ensures HasBit(j, bit) <==> j >= bit
  {
    if j < bit { assert j / bit == 0; } else { assert j == bit * 1 + (j - bit); assert j / bit == 1; }
  }

  lemma RevIncUnfold(p: nat, j: nat)
    requires p > 0 && j < Pow2(p)
    ensures Pow2(p) == 2 * Pow2(p - 1)
    ensures RevInc(p, j) == if j >= Pow2(p - 1) then RevInc(p - 1, j - Pow2(p - 1)) else j + Pow2(p - 1)
  {
  }

  lemma RevIncEmpty(j: nat)
    requires j < Pow2(0)
    ensures j == RevInc(0, j) == 0
  {
  }

  /** One step of the reversed counter. */
  method NextReversed(n: nat, j0: nat, ghost bits: nat, ghost i: nat) returns (j: nat)
    requires n == Pow2(bits) && 0 < i < n && j0 == Rev(bits, i - 1)
    ensures j == Rev(bits, i)
  {
    hide HasBit, Rev, RevInc, Pow2;
    j := j0;
    var bit := n / 2;
    ghost var p := bits;
    RevIncCounts(bits, i - 1);
    RevInvolution(bits, i);
    RevZero(bits);
    assert Rev(bits, i) != 0;
    if bits == 0 { Pow2Zero(); }
    RevIncUnfold(bits, j);
    HasBitTop(j, bit);
    while HasBit(j, bit)
      invariant 1 <= p <= bits && bit == Pow2(p - 1) && j < 2 * bit == Pow2(p)
      invariant HasBit(j, bit) <==> j >= bit
      invariant RevInc(p, j) == Rev(bits, i)
      decreases p
    {
      RevIncUnfold(p, j);
      if p == 1 { RevIncEmpty(j - bit); } // the counter would have run out of bits, yet i != 0
      RevIncUnfold(p - 1, j - bit);
      j, bit, p := j - bit, bit / 2, p - 1;
      HasBitTop(j, bit);
    }
    RevIncUnfold(p, j);
    j := j + bit;
  }

  /** The incremental bit-reversal loop. */
  method BitReversePermute(re: array<real>, im: array<real>, n: nat, ghost bits: nat)
    requires re != im && re.Length == im.Length == n == Pow2(bits)
    modifies re, im
    ensures Points(re[..], im[..]) == Reversed(old(Points(re[..], im[..])), bits)
  {
    ghost var x := Points(re[..], im[..]);
    PermuteStart(x, bits);
    var i: nat, j: nat := 1, 0;
    while i < n
      invariant 1 <= i && (i <= n || n == 1) && j == Rev(bits, i - 1)
      invariant PermutedUpTo(x, Points(re[..], im[..]), bits, i)
    {
      j := NextReversed(n, j, bits, i);
      ghost var before := Points(re[..], im[..]);
      if i < j {
        re[i], re[j] := re[j], re[i];
        im[i], im[j] := im[j], im[i];
      }
      assert Points(re[..], im[..]) == if i < j then before[i := before[j]][j := before[i]] else before;
      PermuteStep(x, before, Points(re[..], im[..]), bits, i);
      i := i + 1;
    }
  }

  ghost function Reversed<T>(x: seq<T>, bits: nat): (z: seq<T>)
    requires |x| == Pow2(bits)
    ensures |z| == |x|
  {
    seq(|x|, k requires 0 <= k < |x| => x[Rev(bits, k)])
  }

  lemma PermuteStart<T>(x: seq<T>, bits: nat)
    requires |x| == Pow2(bits)
    ensures Rev(bits, 0) == 0 && PermutedUpTo(x, x, bits, 1)
  {
    hide Rev, Pow2;
    RevZero(bits);
    forall k: nat | k < |x|
      ensures x[k] == if k < 1 || Rev(bits, k) < 1 then x[Rev(bits, k)] else x[k]
    {
      RevInvolution(bits, k);
    }
  }

  lemma {:induction false} RevZero(bits: nat)
    ensures Rev(bits, 0) == 0
  {
    if bits > 0 { RevZero(bits - 1); }
  }

  /** Swapping i with its reversed index, only upwards, puts both where they belong. */
  lemma PermuteStep<T>(x: seq<T>, z: seq<T>, z': seq<T>, bits: nat, i: nat)
    requires |x| == |z| == |z'| == Pow2(bits) && i < |x|
    requires PermutedUpTo(x, z, bits, i)
    requires var j := Rev(bits, i); z' == if i < j then z[i := z[j]][j := z[i]] else z
    ensures PermutedUpTo(x, z', bits, i + 1)
  {
    hide Rev, Pow2;
    var j := Rev(bits, i);
    RevInvolution(bits, i);
    assert i < j ==> z[i] == x[i] && z[j] == x[j];
    forall k: nat | k < |z'|
      ensures z'[k] == if k < i + 1 || Rev(bits, k) < i + 1 then x[Rev(bits, k)] else x[k]
    {
      RevInvolution(bits, k);
      var was := z[k];
      assert k != i && Rev(bits, k) != i ==> z'[k] == was;
    }
  }

  /** One butterfly on positions a and b; Mul is the source's tr/ti arithmetic. */
  method Butterfly(re: array<real>, im: array<real>, a: nat, b: nat, cw: Cx)
    requires re != im && a < b < re.Length == im.Length
    modifies re, im
    ensures var z := old(Points(re[..], im[..]));
            Points(re[..], im[..])
            == z[a := Add(z[a], Mul(z[b], cw))][b := Sub(z[a], Mul(z[b], cw))]
  {
    ghost var z := Points(re[..], im[..]);
    var t := Mul(Cx(re[b], im[b]), cw);
    hide Mul;
    re[b] := re[a] - t.re;
    im[b] := im[a] - t.im;
    re[a] := re[a] + t.re;
    im[a] := im[a] + t.im;
    assert Points(re[..], im[..]) == z[a := Add(z[a], t)][b := Sub(z[a], t)];
  }

  /** The butterfly on pairs is the ring's. */
  lemma CxButterfly(a: Cx, b: Cx, cw: Cx)
    ensures Add(a, Mul(b, cw)) == CxRing.add(a, CxRing.mul(b, cw))
    ensures Sub(a, Mul(b, cw)) == CxRing.Sub(a, CxRing.mul(b, cw))
  {
    CxOps(b, cw);
    CxOps(a, Mul(b, cw));
  }

  lemma PowNext(w: Cx, k: nat)
    ensures CxRing.Pow(w, 0) == One && CxRing.Pow(w, k + 1) == Mul(CxRing.Pow(w, k), w)
  {
    CxOps(CxRing.Pow(w, k), w);
  }

  /** The butterflies of one block starting at i: `cw` runs through the powers of w. */
  method Butterflies(re: array<real>, im: array<real>, i: nat, half: nat, w: Cx)
    requires re != im && re.Length == im.Length && i + 2 * half <= re.Length
    modifies re, im
    ensures BlockCombined(CxRing, old(Points(re[..], im[..])), Points(re[..], im[..]), i, half, w, half)
  {
    hide Mul, Add, Sub, Ring.Pow, Ring.Sub, BlockCombined;
    PowNext(w, 0);
    NothingCombined(CxRing, Points(re[..], im[..]), i, half, w);
    ghost var z := Points(re[..], im[..]);
    var cw := One;
    for k := 0 to half
      invariant cw == CxRing.Pow(w, k)
      invariant BlockCombined(CxRing, z, Points(re[..], im[..]), i, half, w, k)
    {
      ghost var before := Points(re[..], im[..]);
      Butterfly(re, im, i + k, i + k + half, cw);
      CxButterfly(before[i + k], before[i + k + half], cw);
      CombineStep(CxRing, z, before, Points(re[..], im[..]), i, half, w, k);
      PowNext(w, k);
      cw := Mul(cw, w);
    }
  }

  /** Entry q after the first `done` butterflies of the block at i. */
  ghost function Combined<T(!new)>(R: Ring<T>, z: seq<T>, i: nat, half: nat, w: T, done: nat, q: nat): T
    requires i + 2 * half <= |z| && done <= half && q < |z|
  {
    if i <= q < i + done then R.add(z[q], R.mul(z[q + half], R.Pow(w, q - i)))
    else if i + half <= q < i + half + done then R.Sub(z[q - half], R.mul(z[q], R.Pow(w, q - half - i)))
    else z[q]
  }

  ghost predicate BlockCombined<T(!new)>(R: Ring<T>, z: seq<T>, z': seq<T>, i: nat, half: nat, w: T, done: nat)
    requires |z| == |z'| && i + 2 * half <= |z| && done <= half
  {
    forall q: nat {:trigger z'[q]} | q < |z| :: z'[q] == Combined(R, z, i, half, w, done, q)
  }

  lemma NothingCombined<T(!new)>(R: Ring<T>, z: seq<T>, i: nat, half: nat, w: T)
    requires i + 2 * half <= |z|
    ensures BlockCombined(R, z, z, i, half, w, 0)
  {
  }

  lemma CombineStep<T(!new)>(R: Ring<T>, z: seq<T>, y: seq<T>, z': seq<T>, i: nat, half: nat, w: T, k: nat)
    requires |z| == |y| == |z'| && i + 2 * half <= |z| && k < half
    requires BlockCombined(R, z, y, i, half, w, k)
    requires var a, b := i + k, i + k + half;
             z' == y[a := R.add(y[a], R.mul(y[b], R.Pow(w, k)))][b := R.Sub(y[a], R.mul(y[b], R.Pow(w, k)))]
    ensures BlockCombined(R, z, z', i, half, w, k + 1)
  {
    hide Ring.Pow;
    assert y[i + k] == z[i + k] && y[i + k + half] == z[i + k + half];
  }

  // --------------------------------------------------------------- stages and theorem

  /** The butterflies of block b turn its two finished halves into one finished block. */
  lemma BlockMerged<T(!new)>(R: Ring<T>, x: seq<T>, z: seq<T>, z': seq<T>, rs: seq<T>, bits: nat,
                             k: nat, b: nat, i: nat)
    requires |x| == |z| == |z'| == Pow2(bits) && k < bits
    requires HalfAngle(R, rs, bits)
    requires i + Pow2(k + 1) <= |z| && Pow2(k + 1) == 2 * Pow2(k)
    requires BlockDone(R, x, z, rs, bits, k, 2 * b, i)
    requires BlockDone(R, x, z, rs, bits, k, 2 * b + 1, i + Pow2(k))
    requires BlockCombined(R, z, z', i, Pow2(k), rs[k + 1], Pow2(k))
    ensures BlockDone(R, x, z', rs, bits, k + 1, b, i)
  {
    hide Laws, Coef, Rev, Pow2, Ring.Pow;
    var h := Pow2(k);
    forall q: nat | i <= q < i + Pow2(k + 1)
      ensures z'[q] == Coef(R, x, rs, bits, k + 1, b, q - i)
    {
      var j := if q - i < h then q - i else q - i - h;
      Merge(R, x, rs, bits, k, b, j);
      assert z[i + j] == Coef(R, x, rs, bits, k, 2 * b, j);
      assert z[i + h + j] == Coef(R, x, rs, bits, k, 2 * b + 1, j);
    }
  }

  /** Where block b of length 2^k starts. */
  ghost function Base(k: nat, b: nat): nat { if b == 0 then 0 else Base(k, b - 1) + Pow2(k) }

  lemma BaseNext(k: nat, b: nat)
    ensures Base(k, 0) == 0 && Base(k, b + 1) == Base(k, b) + Pow2(k)
  {
  }

  lemma Pow2Double(k: nat)
    ensures Pow2(k + 1) == 2 * Pow2(k)
  {
  }

  lemma {:induction false} BaseHalves(k: nat, b: nat)
    ensures Base(k + 1, b) == Base(k, 2 * b)
  {
    if b > 0 { BaseHalves(k, b - 1); }
  }

  lemma {:induction false} BaseMono(k: nat, b: nat, c: nat)
    requires b <= c
    ensures Base(k, b) <= Base(k, c)
    ensures b < c ==> Base(k, b) + Pow2(k) <= Base(k, c)
  {
    if b < c { BaseMono(k, b, c - 1); }
  }

  /** 2^j blocks of length 2^k make 2^(j+k). */
  lemma {:induction false} BaseTotal(k: nat, j: nat)
    ensures Base(k, Pow2(j)) == Pow2(j + k)
    decreases j
  {
    if j == 0 {
      assert Base(k, 1) == Base(k, 0) + Pow2(k);
    } else {
      BaseHalves(k, Pow2(j - 1));
      BaseTotal(k + 1, j - 1);
    }
  }

  ghost predicate DoneAt<T(!new)>(R: Ring<T>, x: seq<T>, z: seq<T>, rs: seq<T>, bits: nat, k: nat, b: nat)
    requires |x| == |z| == Pow2(bits) && k <= bits < |rs|
  {
    Base(k, b) + Pow2(k) <= |z| && BlockDone(R, x, z, rs, bits, k, b, Base(k, b))
  }

  /** Blocks lo..hi are transformed to length 2^k. */
  ghost predicate AllDone<T(!new)>(R: Ring<T>, x: seq<T>, z: seq<T>, rs: seq<T>, bits: nat, k: nat, lo: nat, hi: nat)
    requires |x| == |z| == Pow2(bits) && k <= bits < |rs|
  {
    forall b: nat | lo <= b < hi :: DoneAt(R, x, z, rs, bits, k, b)
  }

  lemma Untouched<T(!new)>(R: Ring<T>, x: seq<T>, z: seq<T>, z': seq<T>, rs: seq<T>, bits: nat,
                           k: nat, b: nat, at: nat, i: nat, half: nat, w: T)
    requires |x| == |z| == |z'| == Pow2(bits) && k <= bits < |rs|
    requires at + Pow2(k) <= |z| && BlockDone(R, x, z, rs, bits, k, b, at)
    requires i + 2 * half <= |z| && BlockCombined(R, z, z', i, half, w, half)
    requires at + Pow2(k) <= i || i + 2 * half <= at
    ensures BlockDone(R, x, z', rs, bits, k, b, at)
  {
    hide Coef, Rev, Pow2, Ring.Pow;
  }

  /** The butterflies at i leave every block below or above them as it was. */
  lemma OthersUntouched<T(!new)>(R: Ring<T>, x: seq<T>, z: seq<T>, z': seq<T>, rs: seq<T>, bits: nat,
                                 k: nat, lo: nat, hi: nat, i: nat, half: nat, w: T)
    requires |x| == |z| == |z'| == Pow2(bits) && k <= bits < |rs|
    requires AllDone(R, x, z, rs, bits, k, lo, hi)
    requires i + 2 * half <= |z| && BlockCombined(R, z, z', i, half, w, half)
    requires Base(k, hi) <= i || i + 2 * half <= Base(k, lo)
    ensures AllDone(R, x, z', rs, bits, k, lo, hi)
  {
    forall b: nat | lo <= b < hi
      ensures DoneAt(R, x, z', rs, bits, k, b)
    {
      hide Coef, Rev, Pow2, Ring.Pow, Base, Combined;
      assert DoneAt(R, x, z, rs, bits, k, b);
      BaseMono(k, b, hi);
      BaseMono(k, lo, b);
      Untouched(R, x, z, z', rs, bits, k, b, Base(k, b), i, half, w);
    }
  }

  /** One pass of the block loop moves block b from the unmerged to the merged side. */
  lemma StageStep<T(!new)>(R: Ring<T>, x: seq<T>, z: seq<T>, z': seq<T>, rs: seq<T>, bits: nat, k: nat, b: nat, hi: nat)
    requires |x| == |z| == |z'| == Pow2(bits) && k < bits == |rs| - 1
    requires HalfAngle(R, rs, bits)
    requires 2 * b + 1 < hi
    requires AllDone(R, x, z, rs, bits, k + 1, 0, b) && AllDone(R, x, z, rs, bits, k, 2 * b, hi)
    requires Base(k + 1, b) + 2 * Pow2(k) <= |z|
    requires BlockCombined(R, z, z', Base(k + 1, b), Pow2(k), rs[k + 1], Pow2(k))
    ensures AllDone(R, x, z', rs, bits, k + 1, 0, b + 1) && AllDone(R, x, z', rs, bits, k, 2 * b + 2, hi)
  {
    hide Laws, Coef, Rev, Pow2, Ring.Pow, Base, BlockDone, BlockCombined, HalfAngle;
    var i, w := Base(k + 1, b), rs[k + 1];
    Pow2Double(k);
    BaseHalves(k, b);
    BaseNext(k, 2 * b); BaseNext(k, 2 * b + 1);
    assert DoneAt(R, x, z, rs, bits, k, 2 * b) && DoneAt(R, x, z, rs, bits, k, 2 * b + 1);
    BlockMerged(R, x, z, z', rs, bits, k, b, i);
    OthersUntouched(R, x, z, z', rs, bits, k + 1, 0, b, i, Pow2(k), w);
    OthersUntouched(R, x, z, z', rs, bits, k, 2 * b + 2, hi, i, Pow2(k), w);
    assert DoneAt(R, x, z', rs, bits, k + 1, b);
  }

  /** What the block loop of a stage keeps: blocks below b merged, the rest not yet. */
  ghost predicate StageInv<T(!new)>(R: Ring<T>, x: seq<T>, z: seq<T>, rs: seq<T>, bits: nat, k: nat, b: nat)
    requires |x| == |z| == Pow2(bits) && k < bits < |rs|
  {
    && AllDone(R, x, z, rs, bits, k + 1, 0, b)
    && AllDone(R, x, z, rs, bits, k, 2 * b, Pow2(bits - k))
  }

  lemma StageInvStep<T(!new)>(R: Ring<T>, x: seq<T>, z: seq<T>, z': seq<T>, rs: seq<T>, bits: nat, k: nat, b: nat)
    requires |x| == |z| == |z'| == Pow2(bits) && k < bits == |rs| - 1 && b < Pow2(bits - k - 1)
    requires HalfAngle(R, rs, bits) && StageInv(R, x, z, rs, bits, k, b)
    requires Base(k + 1, b) + 2 * Pow2(k) <= |z|
    requires BlockCombined(R, z, z', Base(k + 1, b), Pow2(k), rs[k + 1], Pow2(k))
    ensures StageInv(R, x, z', rs, bits, k, b + 1)
  {
    hide Laws, Coef, Rev, Pow2, Ring.Pow, Base, DoneAt, BlockDone, BlockCombined, HalfAngle, AllDone;
    Pow2Double(bits - k - 1);
    StageStep(R, x, z, z', rs, bits, k, b, Pow2(bits - k));
  }

  /** All blocks of one stage, `for (i = 0; i < n; i += len)`. */
  method Stage(re: array<real>, im: array<real>, n: nat, len: nat, w: Cx,
               ghost x: seq<Cx>, ghost rs: seq<Cx>, ghost bits: nat, ghost k: nat)
    requires re != im && re.Length == im.Length == |x| == n == Pow2(bits)
    requires k < bits == |rs| - 1 && len == Pow2(k + 1) && HalfAngle(CxRing, rs, bits) && w == rs[k + 1]
    requires StageInv(CxRing, x, Points(re[..], im[..]), rs, bits, k, 0)
    modifies re, im
    ensures StageInv(CxRing, x, Points(re[..], im[..]), rs, bits, k, Pow2(bits - k - 1))
  {
    hide Mul, Coef, Rev, Pow2, Ring.Pow, Base, BlockCombined, HalfAngle, StageInv, Points;
    ghost var blocks := Pow2(bits - k - 1);
    Pow2Double(k);
    BaseTotal(k + 1, bits - k - 1);
    var i := 0;
    ghost var b := 0;
    BaseNext(k + 1, 0);
    while i < n
      invariant b <= blocks && i == Base(k + 1, b)
      invariant StageInv(CxRing, x, Points(re[..], im[..]), rs, bits, k, b)
      decreases n - i
    {
      BaseNext(k + 1, b);
      BaseMono(k + 1, b + 1, blocks);
      ghost var z := Points(re[..], im[..]);
      Butterflies(re, im, i, len / 2, w);
      StageInvStep(CxRing, x, z, Points(re[..], im[..]), rs, bits, k, b);
      i, b := i + len, b + 1;
    }
    if b < blocks { BaseMono(k + 1, b, blocks); }
  }

  /** The permuted input already holds the 1-point transforms. */
  lemma AfterPermutation<T(!new)>(R: Ring<T>, x: seq<T>, rs: seq<T>, bits: nat, k: nat)
    requires Laws(R)
    requires |x| == Pow2(bits) && k == 0 < |rs| == bits + 1
    ensures AllDone(R, x, Reversed(x, bits), rs, bits, k, 0, Pow2(bits))
  {
    hide Laws, Rev, Base;
    assert Pow2(0) == 1;
    forall b: nat | b < Pow2(bits)
      ensures DoneAt(R, x, Reversed(x, bits), rs, bits, k, b)
    {
      BaseOne(b);
      TimesOne(R, R.one);
      AddZero(R, x[Rev(bits, b)]);
      var o := Rev(bits, b);
      StrideFits(bits, 0, b);
      assert Eval(R, x, Pow2(bits), o, 1, R.one) == R.add(x[o], R.mul(R.one, R.zero));
    }
  }

  lemma {:induction false} BaseOne(b: nat)
    ensures Base(0, b) == b
  {
    if b > 0 { BaseOne(b - 1); }
  }

  /** One finished block of full length is the transform. */
  lemma AtTheEnd<T(!new)>(R: Ring<T>, x: seq<T>, z: seq<T>, rs: seq<T>, bits: nat)
    requires Laws(R)
    requires |x| == |z| == Pow2(bits) && |rs| == bits + 1
    requires AllDone(R, x, z, rs, bits, bits, 0, 1)
    ensures z == Dft(R, x, rs[bits])
  {
    hide Laws;
    assert DoneAt(R, x, z, rs, bits, bits, 0);
    assert Pow2(0) == 1 && Rev(0, 0) == 0;
    forall j: nat | j < |z|
      ensures z[j] == Dft(R, x, rs[bits])[j]
    {
      EvalIsDftSum(R, x, rs[bits], j, |x|);
    }
  }

  /** The twiddle factors the stages use, longest last. */
  ghost function StageRoots(twiddle: nat -> Cx, bits: nat): (rs: seq<Cx>)
    ensures |rs| == bits + 1
  {
    seq(bits + 1, k requires 0 <= k <= bits => twiddle(Pow2(k)))
  }

  const WORD := 0x1_0000_0000

  /** `len` after i rounds of the stage loop, a uint32_t. */
  function StageLength(i: nat): nat {
    if i == 0 then 2 else 2 * StageLength(i - 1) % WORD
  }

  /** The stage loop ends exactly for n below 2^31: then `len <<= 1` wraps to zero first. */
  lemma StagesEnd(n: nat)
    ensures (exists i: nat :: StageLength(i) > n) <==> n < 0x8000_0000
  {
    hide StageLength, Pow2;
    LengthsDouble(30);
    LargePowers();
    forall i: nat ensures StageLength(i) <= 0x8000_0000 {
      if i <= 30 { LengthsDouble(i); } else { LengthsVanish(i); }
    }
  }

  lemma LargePowers()
    ensures Pow2(30) == 0x4000_0000 && Pow2(31) == 0x8000_0000
  {
    assert Pow2(5) == 32;
    hide Pow2;
    Pow2Add(5, 5);
    Pow2Add(10, 10);
    Pow2Add(20, 10);
    Pow2Double(30);
  }

  lemma {:induction false} LengthsDouble(i: nat)
    requires i <= 30
    ensures StageLength(i) == Pow2(i + 1) <= 0x8000_0000
  {
    LargePowers();
    Pow2Grows(i + 1, 31);
    Pow2Double(i);
    hide Pow2;
    if i > 0 {
      LengthsDouble(i - 1);
    } else {
      Pow2Zero();
    }
  }

  lemma LengthNext(i: nat)
    requires i > 0
    ensures StageLength(i - 1) == 0x8000_0000 || StageLength(i - 1) == 0 ==> StageLength(i) == 0
  {
  }

  lemma {:induction false} LengthsVanish(i: nat)
    requires i > 30
    ensures StageLength(i) == 0
  {
    hide Pow2, StageLength;
    if i == 31 {
      LengthsDouble(30);
      LargePowers();
    } else {
      LengthsVanish(i - 1);
    }
    LengthNext(i);
  }

  /** In-place radix-2 transform of n = 2^bits points; `twiddle(len)` stands for
      (cosf(-2 pi / len), sinf(-2 pi / len)).  2^30 is the largest n at which it ends. */
  method FftRadix2(re: array<real>, im: array<real>, n: nat, twiddle: nat -> Cx, ghost bits: nat)
    requires re != im && re.Length == im.Length == n == Pow2(bits) && bits <= 30
    requires HalfAngle(CxRing, StageRoots(twiddle, bits), bits)
    modifies re, im
    ensures Points(re[..], im[..]) == Dft(CxRing, old(Points(re[..], im[..])), twiddle(n))
  {
    hide Mul, Coef, Rev, Pow2, Ring.Pow, Base, HalfAngle, AllDone, Points, Dft, Reversed, Laws;
    CxLaws();
    ghost var x := Points(re[..], im[..]);
    ghost var rs := StageRoots(twiddle, bits);
    BitReversePermute(re, im, n, bits);
    AfterPermutation(CxRing, x, rs, bits, 0);
    var len := 2;
    ghost var k := 0;
    Pow2Double(0); Pow2Zero();
    LengthFits(n, bits);
    while len <= n
      invariant k <= bits && len == Pow2(k + 1)
      invariant AllDone(CxRing, x, Points(re[..], im[..]), rs, bits, k, 0, Pow2(bits - k))
      decreases n - len
    {
      if k == bits { Pow2Double(bits); }
      Pow2Double(k + 1);
      StageBegin(CxRing, x, Points(re[..], im[..]), rs, bits, k);
      Stage(re, im, n, len, twiddle(len), x, rs, bits, k);
      len, k := 2 * len % WORD, k + 1;
    }
    LastStage(bits, k);
    AtTheEnd(CxRing, x, Points(re[..], im[..]), rs, bits);
  }

  lemma LengthFits(n: nat, bits: nat)
    requires n == Pow2(bits) && bits <= 30
    ensures 2 * n < WORD
  {
    hide Pow2;
    Pow2Grows(bits, 30);
    LargePowers();
  }

  lemma Pow2Zero()
    ensures Pow2(0) == 1
  {
  }

  lemma StageBegin<T(!new)>(R: Ring<T>, x: seq<T>, z: seq<T>, rs: seq<T>, bits: nat, k: nat)
    requires |x| == |z| == Pow2(bits) && k < bits == |rs| - 1
    requires AllDone(R, x, z, rs, bits, k, 0, Pow2(bits - k))
    ensures StageInv(R, x, z, rs, bits, k, 0)
  {
    hide Coef, Rev, Pow2, Ring.Pow, Base, DoneAt;
  }

  lemma {:induction false} LastStage(bits: nat, k: nat)
    requires k <= bits && Pow2(k + 1) > Pow2(bits)
    ensures k == bits
  {
    if k < bits { Pow2Grows(k + 1, bits); }
  }

  lemma {:induction false} Pow2Grows(j: nat, k: nat)
    requires j <= k
    ensures Pow2(j) <= Pow2(k)
  {
    if j < k { Pow2Grows(j, k - 1); }
  }

  // ------------------------------------------------------ over any commutative ring

  /** The butterflies of the block at i, all of them. */
  ghost function Combine<T(!new)>(R: Ring<T>, z: seq<T>, i: nat, half: nat, w: T): (y: seq<T>)
    requires i + 2 * half <= |z|
    ensures |y| == |z| && BlockCombined(R, z, y, i, half, w, half)
  {
    seq(|z|, q requires 0 <= q < |z| => Combined(R, z, i, half, w, half, q))
  }

  lemma BlockFits(bits: nat, k: nat, b: nat)
    requires k < bits && b < Pow2(bits - k - 1)
    ensures Base(k + 1, b) + 2 * Pow2(k) <= Pow2(bits)
  {
    hide Base, Pow2;
    BaseMono(k + 1, b, Pow2(bits - k - 1));
    BaseTotal(k + 1, bits - k - 1);
    Pow2Double(k);
  }

  /** The block loop of stage k, after b blocks. */
  ghost function Pass<T(!new)>(R: Ring<T>, z: seq<T>, bits: nat, k: nat, w: T, b: nat): (y: seq<T>)
    requires |z| == Pow2(bits) && k < bits && b <= Pow2(bits - k - 1)
    ensures |y| == |z|
  {
    if b == 0 then z
    else
      BlockFits(bits, k, b - 1);
      Combine(R, Pass(R, z, bits, k, w, b - 1), Base(k + 1, b - 1), Pow2(k), w)
  }

  /** The whole loop nest, after k stages: bit reversal, then stage by stage. */
  ghost function Network<T(!new)>(R: Ring<T>, x: seq<T>, rs: seq<T>, bits: nat, k: nat): (y: seq<T>)
    requires |x| == Pow2(bits) && k <= bits < |rs|
    ensures |y| == |x|
  {
    if k == 0 then Reversed(x, bits)
    else Pass(R, Network(R, x, rs, bits, k - 1), bits, k - 1, rs[k], Pow2(bits - k))
  }

  lemma {:induction false} PassKeeps<T(!new)>(R: Ring<T>, x: seq<T>, z: seq<T>, rs: seq<T>, bits: nat, k: nat, b: nat)
    requires |x| == |z| == Pow2(bits) && k < bits == |rs| - 1 && b <= Pow2(bits - k - 1)
    requires HalfAngle(R, rs, bits) && StageInv(R, x, z, rs, bits, k, 0)
    ensures StageInv(R, x, Pass(R, z, bits, k, rs[k + 1], b), rs, bits, k, b)
  {
    hide Base, Pow2, HalfAngle, StageInv, BlockCombined, Combine;
    if b > 0 {
      PassKeeps(R, x, z, rs, bits, k, b - 1);
      BlockFits(bits, k, b - 1);
      StageInvStep(R, x, Pass(R, z, bits, k, rs[k + 1], b - 1), Pass(R, z, bits, k, rs[k + 1], b), rs, bits, k, b - 1);
    }
  }

  lemma {:induction false} NetworkDone<T(!new)>(R: Ring<T>, x: seq<T>, rs: seq<T>, bits: nat, k: nat)
    requires |x| == Pow2(bits) && k <= bits == |rs| - 1 && HalfAngle(R, rs, bits)
    ensures AllDone(R, x, Network(R, x, rs, bits, k), rs, bits, k, 0, Pow2(bits - k))
  {
    hide Base, Pow2, DoneAt, Pass, Reversed, Laws;
    if k == 0 {
      AfterPermutation(R, x, rs, bits, 0);
    } else {
      var z := Network(R, x, rs, bits, k - 1);
      NetworkDone(R, x, rs, bits, k - 1);
      StageBegin(R, x, z, rs, bits, k - 1);
      PassKeeps(R, x, z, rs, bits, k - 1, Pow2(bits - k));
    }
  }

  /** The algorithm computes the discrete Fourier transform over every commutative ring, for
      every power of two, whenever the root's half turn is -1. */
  lemma RingTransform<T(!new)>(R: Ring<T>, x: seq<T>, rs: seq<T>, bits: nat)
    requires |x| == Pow2(bits) && HalfAngle(R, rs, bits)
    ensures Network(R, x, rs, bits, bits) == Dft(R, x, rs[bits])
  {
    hide Network, AllDone, Dft, Laws;
    NetworkDone(R, x, rs, bits, bits);
    Pow2Zero();
    AtTheEnd(R, x, Network(R, x, rs, bits, bits), rs, bits);
  }

  /** The twiddles of the stages, as powers of one root of order 2^bits. */
  ghost function RootPowers<T(!new)>(R: Ring<T>, w: T, bits: nat): (rs: seq<T>)
    ensures |rs| == bits + 1
  {
    seq(bits + 1, k requires 0 <= k <= bits => R.Pow(w, Pow2(bits - k)))
  }

  lemma RootPowersHalve<T(!new)>(R: Ring<T>, w: T, bits: nat)
    requires Laws(R) && bits > 0 && R.Pow(w, Pow2(bits - 1)) == R.neg(R.one)
    ensures HalfAngle(R, RootPowers(R, w, bits), bits) && RootPowers(R, w, bits)[bits] == w
  {
    hide Laws, Pow2;
    var rs := RootPowers(R, w, bits);
    forall k: nat | k < bits ensures R.mul(rs[k + 1], rs[k + 1]) == rs[k] {
      Pow2Double(bits - k - 1);
      PowAdd(R, w, Pow2(bits - k - 1), Pow2(bits - k - 1));
    }
    assert rs[1] == R.neg(R.one);
    assert rs[0] == R.mul(R.neg(R.one), R.neg(R.one));
    MulNeg(R, R.neg(R.one), R.one);
    TimesOne(R, R.neg(R.one));
    NegNeg(R, R.one);
    Pow2Zero();
    TimesOne(R, w);
    assert R.Pow(w, 1) == R.mul(R.Pow(w, 0), w);
  }

  /** So for any w whose half turn is -1, as a primitive root of an integral domain's is. */
  lemma PrimitiveTransform<T(!new)>(R: Ring<T>, x: seq<T>, w: T, bits: nat)
    requires Laws(R) && bits > 0 && |x| == Pow2(bits) && R.Pow(w, Pow2(bits - 1)) == R.neg(R.one)
    ensures Network(R, x, RootPowers(R, w, bits), bits, bits) == Dft(R, x, w)
  {
    hide Network, Laws, Dft, HalfAngle;
    RootPowersHalve(R, w, bits);
    RingTransform(R, x, RootPowers(R, w, bits), bits);
  }
}
