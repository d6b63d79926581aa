/** The bit-reversed counter behind the permutation loop of fftRadix2. */
module BitReverse {

  function Pow2(k: nat): (p: nat)
    ensures p > 0
  {
    if k == 0 then 1 else 2 * Pow2(k - 1)
  }

  function Bit(on: bool, weight: nat): nat { if on then weight else 0 }

  /** The low `bits` bits of b in reverse order. */
  function Rev(bits: nat, b: nat): (r: nat)
    ensures r < Pow2(bits)
  {
    if bits == 0 then 0 else Rev(bits - 1, b / 2) + Bit(b % 2 == 1, Pow2(bits - 1))
  }

  /** The counter step as the source takes it: clear leading ones from the top bit down,
      then set the first zero (`for (; j & bit; bit >>= 1) j ^= bit; j |= bit`). */
  function RevInc(bits: nat, j: nat): nat
    requires j < Pow2(bits)
  {
    if bits == 0 then j
    else if j >= Pow2(bits - 1) then RevInc(bits - 1, j - Pow2(bits - 1))
    else j + Pow2(bits - 1)
  }

  /** Incrementing the reversed counter reverses the increment. */
  lemma {:induction false} RevIncCounts(bits: nat, i: nat)
    requires i + 1 < Pow2(bits)
    ensures RevInc(bits, Rev(bits, i)) == Rev(bits, i + 1)
  {
    if i % 2 == 0 {
      assert (i + 1) / 2 == i / 2;
    } else {
      assert (i + 1) / 2 == i / 2 + 1;
      RevIncCounts(bits - 1, i / 2);
    }
  }

  /** Peeling the top bit instead of the bottom one. */
  lemma {:induction false} RevTopBit(bits: nat, u: nat, top: bool)
    requires bits > 0 && u < Pow2(bits - 1)
    ensures Rev(bits, u + Bit(top, Pow2(bits - 1))) == 2 * Rev(bits - 1, u) + Bit(top, 1)
  {
    if bits == 1 {
      assert Rev(0, (u + Bit(top, 1)) / 2) == 0;
    } else {
      var v := u + Bit(top, Pow2(bits - 1));
      assert v / 2 == u / 2 + Bit(top, Pow2(bits - 2)) && v % 2 == u % 2;
      RevTopBit(bits - 1, u / 2, top);
    }
  }

  /** Reversal is its own inverse, hence a permutation of [0, 2^bits). */
  lemma {:induction false} RevInvolution(bits: nat, b: nat)
    requires b < Pow2(bits)
    ensures Rev(bits, Rev(bits, b)) == b
  {
    if bits > 0 {
      RevInvolution(bits - 1, b / 2);
      RevTopBit(bits, Rev(bits - 1, b / 2), b % 2 == 1);
    }
  }

  /** Neighbouring blocks of one stage start at the reversed indices of their parent:
      the even half keeps the offset, the odd half adds one stride. */
  lemma RevChildren(bits: nat, b: nat)
    ensures Rev(bits + 1, 2 * b) == Rev(bits, b)
    ensures Rev(bits + 1, 2 * b + 1) == Rev(bits, b) + Pow2(bits)
  {
    assert (2 * b + 1) / 2 == b;
  }

  lemma {:induction false} Pow2Add(j: nat, k: nat)
    ensures Pow2(j + k) == Pow2(j) * Pow2(k)
  {
    if k > 0 { Pow2Add(j, k - 1); }
  }
}
