/** arc_detector/fixed_point.py: exact rounding to nearest, ties to even. */
module FixedPoint {

  import opened BitReverse

  const FRACTION_BITS := 23 // COEFFICIENT_FRACTION_BITS
  const ONE := 0x80_0000    // 2^23

  function Abs(x: int): nat {
    if x < 0 then -x else x
  }

  /** _round_ratio_even(). */
  function RoundRatioEven(numerator: int, denominator: nat): int
    requires denominator > 0
  {
    var quotient, remainder := Abs(numerator) / denominator, Abs(numerator) % denominator;
    var up := remainder * 2 > denominator || (remainder * 2 == denominator && quotient % 2 == 1);
    var rounded := if up then quotient + 1 else quotient;
    if numerator < 0 then -rounded else rounded
  }

  /** int.bit_length() of a magnitude. */
  function BitLength(n: nat): nat {
    if n == 0 then 0 else 1 + BitLength(n / 2)
  }

  /** round_shift_even(). */
  function RoundShiftEven(value: int, shift: nat): int {
    if shift == 0 then value
    else if shift > BitLength(Abs(value)) then 0
    else RoundRatioEven(value, Pow2(shift))
  }

  function Times(k: int, d: nat): int { k * d }

  lemma TimesLaws(k: int, d: nat)
    ensures Times(0, d) == 0 && Times(1, d) == d && Times(k + 1, d) == Times(k, d) + d && Times(-k, d) == -Times(k, d)
  {
  }

  lemma {:induction false} TimesApart(r: int, s: int, d: nat)
    requires r + 2 <= s
    ensures Times(r, d) + 2 * d <= Times(s, d)
    decreases s - r
  {
    hide Times;
    TimesLaws(s - 1, d);
    if s == r + 2 { TimesLaws(r, d); } else { TimesApart(r, s - 1, d); }
  }

  lemma Divide(m: nat, d: nat)
    requires d > 0
    ensures m == Times(m / d, d) + m % d
  {
  }

  /** r is the integer nearest numerator / denominator, the even one of two. */
  ghost predicate NearestEven(numerator: int, denominator: nat, r: int) {
    var e := Abs(numerator - Times(r, denominator));
    2 * e <= denominator && (2 * e == denominator ==> r % 2 == 0)
  }

  lemma RoundIsNearest(numerator: int, denominator: nat)
    requires denominator > 0
    ensures NearestEven(numerator, denominator, RoundRatioEven(numerator, denominator))
  {
    hide Times;
    var quotient := Abs(numerator) / denominator;
    Divide(Abs(numerator), denominator);
    TimesLaws(quotient, denominator);
    TimesLaws(quotient + 1, denominator);
  }

  /** There is only one such integer, so it fixes the result. */
  lemma NearestIsUnique(numerator: int, denominator: nat, r: int, s: int)
    requires denominator > 0 && NearestEven(numerator, denominator, r) && NearestEven(numerator, denominator, s)
    ensures r == s
  {
    hide Times;
    if r + 2 <= s { TimesApart(r, s, denominator); }
    if s + 2 <= r { TimesApart(s, r, denominator); }
    TimesLaws(r, denominator);
    TimesLaws(s, denominator);
  }

  /** bit_length() is the least number of bits that holds the magnitude. */
  lemma {:induction false} BitLengthHolds(n: nat, bits: nat)
    ensures n < Pow2(bits) <==> BitLength(n) <= bits
  {
    if n == 0 {
    } else if bits > 0 {
      BitLengthHolds(n / 2, bits - 1);
    }
  }

  lemma TimesOne(k: int)
    ensures Times(k, 1) == k
  {
  }

  /** The shortcut for wide shifts agrees with the rounding. */
  lemma RoundShiftIsNearest(value: int, shift: nat)
    ensures NearestEven(value, Pow2(shift), RoundShiftEven(value, shift))
  {
    hide Times, RoundRatioEven;
    if shift == 0 {
      TimesOne(value);
    } else if shift > BitLength(Abs(value)) {
      BitLengthHolds(Abs(value), shift - 1);
      TimesLaws(0, Pow2(shift));
    } else {
      RoundIsNearest(value, Pow2(shift));
    }
  }

  /** The inlined form at the end of FixedFIRDecimator.process(), with a power-of-two scale. */
  lemma ScaleIsPower()
    ensures Pow2(FRACTION_BITS) == ONE
  {
    assert Pow2(8) == 256 && Pow2(16) == 256 * Pow2(8) by {
      assert Pow2(12) == 16 * Pow2(8);
    }
    assert Pow2(20) == 16 * Pow2(16);
  }

  /** Rounding keeps a bound on the magnitude. */
  lemma RoundWithin(value: int, bound: nat)
    requires Abs(value) <= bound
    ensures Abs(RoundRatioEven(value, ONE)) <= RoundRatioEven(bound, ONE)
  {
  }

  lemma RoundShiftWithin(value: int, bound: nat)
    requires Abs(value) <= bound
    ensures Abs(RoundRatioEven(value, ONE)) <= RoundShiftEven(bound, FRACTION_BITS)
  {
    RoundWithin(value, bound);
    ScaleIsPower();
    RoundShiftIsNearest(bound, FRACTION_BITS);
    RoundIsNearest(bound, ONE);
    NearestIsUnique(bound, ONE, RoundShiftEven(bound, FRACTION_BITS), RoundRatioEven(bound, ONE));
  }
}
