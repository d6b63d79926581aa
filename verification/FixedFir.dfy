/** arc_detector/fixed_point.py: the chunked, folded, decimating integer FIR. */
module FixedFir {

  import opened BitReverse
  import opened FixedPoint

  const MAX_BLOCK_SAMPLES := 1_000_000
  const MAX_TAPS := 4096
  const MAX_SAMPLE_INDEX := 0x7FFF_FFFF_FFFF_FFFF

  // ------------------------------------------------------------------- plain convolution

  /** A product; kept as a name so that sums of products stay linear. */
  function Mul(a: int, b: int): int { a * b }

  /** The stream, silent before its first sample. */
  function Sample(x: seq<int>, j: int): int {
    if 0 <= j < |x| then x[j] else 0
  }

  /** The first k taps of the convolution at sample n of the stream. */
  function Conv(taps: seq<int>, x: seq<int>, n: int, k: nat): int
    requires k <= |taps|
  {
    if k == 0 then 0 else Conv(taps, x, n, k - 1) + Mul(taps[k - 1], Sample(x, n - (k - 1)))
  }

  datatype Out = Out(value: int, index: nat, valid: bool)

  predicate Multiple(i: int, n: nat)
    requires n > 0
  {
    i % n == 0
  }

  /** What the filter owes for samples from..to of a stream that starts at index `first`. */
  function Owed(taps: seq<int>, factor: nat, x: seq<int>, first: nat, from: nat, end: nat): seq<Out>
    requires factor > 0 && from <= end
    decreases end
  {
    if from == end then []
    else
      var i := end - 1;
      Owed(taps, factor, x, first, from, i) +
      if Multiple(i, factor)
      then [Out(RoundRatioEven(Conv(taps, x, i - first, |taps|), ONE), i, i - first >= |taps| - 1)]
      else []
  }

  /** The answer to a unit impulse is the taps, in order. */
  lemma {:induction false} ImpulseResponse(taps: seq<int>, x: seq<int>, n: nat, k: nat)
    requires k <= |taps| && n < |x| && x[0] == 1 && forall i :: 1 <= i < |x| ==> x[i] == 0
    ensures Conv(taps, x, n, k) == if n < k then taps[n] else 0
  {
    if k > 0 { ImpulseResponse(taps, x, n, k - 1); }
  }

  /** The answer to a sum of streams is the sum of the answers. */
  lemma {:induction false} ConvAdds(taps: seq<int>, x: seq<int>, y: seq<int>, z: seq<int>, n: int, k: nat)
    requires k <= |taps| && |x| == |y| == |z| && forall i :: 0 <= i < |x| ==> z[i] == x[i] + y[i]
    ensures Conv(taps, z, n, k) == Conv(taps, x, n, k) + Conv(taps, y, n, k)
  {
    if k > 0 { ConvAdds(taps, x, y, z, n, k - 1); }
  }

  /** A delayed stream is answered alike, later. */
  lemma {:induction false} ConvShifts(taps: seq<int>, x: seq<int>, n: int, k: nat)
    requires k <= |taps|
    ensures Conv(taps, [0] + x, n + 1, k) == Conv(taps, x, n, k)
  {
    if k > 0 { ConvShifts(taps, x, n, k - 1); }
  }

  /** Later samples do not change an output. */
  lemma {:induction false} ConvCausal(taps: seq<int>, x: seq<int>, more: seq<int>, n: int, k: nat)
    requires k <= |taps| && n < |x|
    ensures Conv(taps, x + more, n, k) == Conv(taps, x, n, k)
  {
    hide Mul;
    if k > 0 { ConvCausal(taps, x, more, n, k - 1); }
  }

  lemma {:induction false} OwedCausal(taps: seq<int>, factor: nat, x: seq<int>, more: seq<int>, first: nat, from: nat,
                                      end: nat)
    requires factor > 0 && from <= end <= first + |x|
    ensures Owed(taps, factor, x + more, first, from, end) == Owed(taps, factor, x, first, from, end)
    decreases end
  {
    hide RoundRatioEven, Conv;
    if from < end {
      OwedCausal(taps, factor, x, more, first, from, end - 1);
      ConvCausal(taps, x, more, end - 1 - first, |taps|);
    }
  }

  lemma {:induction false} OwedJoins(taps: seq<int>, factor: nat, x: seq<int>, first: nat, from: nat, mid: nat,
                                     end: nat)
    requires factor > 0 && from <= mid <= end
    ensures Owed(taps, factor, x, first, from, mid) + Owed(taps, factor, x, first, mid, end)
         == Owed(taps, factor, x, first, from, end)
    decreases end
  {
    hide RoundRatioEven, Conv;
    if mid < end { OwedJoins(taps, factor, x, first, from, mid, end - 1); }
  }

  // ------------------------------------------------------------------- sums over a window

  /** Taps a to b over a window whose last sample is the newest. */
  function Dot(taps: seq<int>, w: seq<int>, a: nat, b: nat): int
    requires a <= b <= |taps| == |w|
    decreases b
  {
    if a == b then 0 else Dot(taps, w, a, b - 1) + Mul(taps[b - 1], w[|w| - b])
  }

  lemma {:induction false} DotFront(taps: seq<int>, w: seq<int>, a: nat, b: nat)
    requires a < b <= |taps| == |w|
    ensures Dot(taps, w, a, b) == Mul(taps[a], w[|w| - 1 - a]) + Dot(taps, w, a + 1, b)
    decreases b
  {
    hide Mul;
    if a + 1 < b { DotFront(taps, w, a, b - 1); }
  }

  lemma {:induction false} DotJoins(taps: seq<int>, w: seq<int>, a: nat, b: nat, c: nat)
    requires a <= b <= c <= |taps| == |w|
    ensures Dot(taps, w, a, b) + Dot(taps, w, b, c) == Dot(taps, w, a, c)
    decreases c
  {
    hide Mul;
    if b < c { DotJoins(taps, w, a, b, c - 1); }
  }

  /** The window of the stream that ends at sample n. */
  ghost predicate IsWindow(w: seq<int>, x: seq<int>, n: int) {
    forall j :: 0 <= j < |w| ==> w[j] == Sample(x, n - (|w| - 1 - j))
  }

  lemma {:induction false} DotIsConv(taps: seq<int>, w: seq<int>, x: seq<int>, n: int, k: nat)
    requires k <= |taps| == |w| && IsWindow(w, x, n)
    ensures Dot(taps, w, 0, k) == Conv(taps, x, n, k)
  {
    hide Mul, Sample;
    if k > 0 {
      DotIsConv(taps, w, x, n, k - 1);
      assert w[|w| - k] == Sample(x, n - (k - 1));
    }
  }

  predicate Palindrome(taps: seq<int>) {
    forall k :: 0 <= k < |taps| ==> taps[k] == taps[|taps| - 1 - k]
  }

  lemma Distribute(a: int, b: int, c: int)
    ensures Mul(a + b, c) == Mul(c, a) + Mul(c, b)
  {
  }

  // ---------------------------------------------------------------------- the certificate

  function L1(taps: seq<int>, a: nat, b: nat): nat
    requires a <= b <= |taps|
    decreases b
  {
    if a == b then 0 else L1(taps, a, b - 1) + Abs(taps[b - 1])
  }

  lemma {:induction false} L1Joins(taps: seq<int>, a: nat, b: nat, c: nat)
    requires a <= b <= c <= |taps|
    ensures L1(taps, a, b) + L1(taps, b, c) == L1(taps, a, c)
    decreases c
  {
    if b < c { L1Joins(taps, a, b, c - 1); }
  }

  /** Every sample a two's complement word of magnitude m. */
  ghost predicate Within(w: seq<int>, m: nat) {
    forall j :: 0 <= j < |w| ==> 0 - m <= w[j] < m
  }

  lemma MulWithin(a: int, b: int, m: nat, l: nat)
    requires Abs(b) <= m
    ensures Abs(Mul(a, b)) + Mul(m, l) <= Mul(m, l + Abs(a))
  {
    assert m * (l + Abs(a)) == m * l + m * Abs(a);
    if a < 0 {
      assert Abs(a * b) == Abs(a) * Abs(b) by {
        if b < 0 { assert a * b == (-a) * (-b); } else { assert -(a * b) == (-a) * b; }
      }
    } else {
      assert Abs(a * b) == Abs(a) * Abs(b) by { if b < 0 { assert -(a * b) == a * (-b); } }
    }
    assert Abs(a) * Abs(b) <= Abs(a) * m by { assert Abs(a) * (m - Abs(b)) >= 0; }
  }

  lemma {:induction false} DotWithin(taps: seq<int>, w: seq<int>, m: nat, a: nat, b: nat)
    requires a <= b <= |taps| == |w| && Within(w, m)
    ensures Abs(Dot(taps, w, a, b)) <= Mul(m, L1(taps, a, b))
    decreases b
  {
    hide Mul;
    if a == b {
      MulZero(m);
    } else {
      DotWithin(taps, w, m, a, b - 1);
      MulWithin(taps[b - 1], w[|w| - b], m, L1(taps, a, b - 1));
    }
  }

  lemma {:induction false} ConvWithin(taps: seq<int>, x: seq<int>, n: int, m: nat, k: nat)
    requires k <= |taps| && Within(x, m)
    ensures Abs(Conv(taps, x, n, k)) <= Mul(m, L1(taps, 0, k))
  {
    hide Mul;
    if k == 0 {
      MulZero(m);
    } else {
      ConvWithin(taps, x, n, m, k - 1);
      MulWithin(taps[k - 1], Sample(x, n - (k - 1)), m, L1(taps, 0, k - 1));
    }
  }

  lemma MulZero(m: int)
    ensures Mul(m, 0) == 0
  {
  }

  lemma MulGrows(m: nat, a: nat, b: nat)
    requires a <= b
    ensures 0 <= Mul(m, a) <= Mul(m, b) && Mul(m, a) + Mul(m, b) == Mul(m, a + b)
  {
    assert m * b == m * a + m * (b - a);
  }

  /** The largest accumulator magnitude: every sample at its largest. */
  function Bound(taps: seq<int>, inputBits: nat): (b: int)
    requires inputBits > 0
    ensures b >= 0
  {
    MulGrows(Pow2(inputBits - 1), 0, L1(taps, 0, |taps|));
    Mul(Pow2(inputBits - 1), L1(taps, 0, |taps|))
  }

  /** Partial sums fit the accumulator, rounded results the output word. */
  ghost predicate Certified(taps: seq<int>, inputBits: nat, accumulatorBits: nat, outputBits: nat) {
    && inputBits > 0 && accumulatorBits > 0 && outputBits > 0
    && Bound(taps, inputBits) < Pow2(accumulatorBits - 1)
    && RoundShiftEven(Bound(taps, inputBits), FRACTION_BITS) < Pow2(outputBits - 1)
  }

  function Max(a: nat, b: nat): nat { if a < b then b else a }

  /** The widths the constructor computes are enough. */
  lemma WidthsCertify(taps: seq<int>, inputBits: nat, accumulatorBits: nat, outputBits: nat)
    requires inputBits > 0 && RoundShiftEven(Bound(taps, inputBits), FRACTION_BITS) >= 0
    requires Max(2, BitLength(Bound(taps, inputBits)) + 1) <= accumulatorBits
    requires Max(2, BitLength(RoundShiftEven(Bound(taps, inputBits), FRACTION_BITS)) + 1) <= outputBits
    ensures Certified(taps, inputBits, accumulatorBits, outputBits)
  {
    hide Bound, RoundShiftEven, Pow2, BitLength;
    BitLengthHolds(Bound(taps, inputBits), accumulatorBits - 1);
    BitLengthHolds(RoundShiftEven(Bound(taps, inputBits), FRACTION_BITS), outputBits - 1);
  }

  // -------------------------------------------------------------------- one window

  /** k pairs folded: the first k taps and the last k. */
  lemma FoldStep(taps: seq<int>, w: seq<int>, k: nat)
    requires Palindrome(taps) && |w| == |taps| && 2 * (k + 1) <= |taps|
    ensures var t := |taps|;
            Dot(taps, w, 0, k) + Dot(taps, w, t - k, t) + Mul(w[k] + w[t - 1 - k], taps[k])
              == Dot(taps, w, 0, k + 1) + Dot(taps, w, t - k - 1, t)
  {
    hide Mul;
    var t := |taps|;
    Distribute(w[k], w[t - 1 - k], taps[k]);
    DotFront(taps, w, t - k - 1, t);
  }

  lemma FoldEnds(taps: seq<int>, w: seq<int>)
    requires |w| == |taps|
    ensures var t, p := |taps|, |taps| / 2;
            Dot(taps, w, 0, t) ==
              Dot(taps, w, 0, p) + Dot(taps, w, t - p, t) + if t % 2 == 1 then Mul(w[p], taps[p]) else 0
  {
    hide Mul, Dot;
    var t, p := |taps|, |taps| / 2;
    if t % 2 == 1 {
      DotJoins(taps, w, 0, p, p + 1);
      DotJoins(taps, w, 0, p + 1, t);
      DotOne(taps, w, p);
      assert t - p == p + 1;
    } else {
      DotJoins(taps, w, 0, p, t);
    }
  }

  lemma DotOne(taps: seq<int>, w: seq<int>, p: nat)
    requires |w| == |taps| && p < |taps|
    ensures Dot(taps, w, p, p + 1) == Mul(taps[p], w[|w| - 1 - p]) && Mul(taps[p], w[p]) == Mul(w[p], taps[p])
  {
    assert Dot(taps, w, p, p) == 0;
  }

  /** Any two disjoint stretches of taps stay within the bound. */
  lemma TwoStretches(taps: seq<int>, w: seq<int>, m: nat, a: nat, b: nat)
    requires a <= b <= |taps| == |w| && Within(w, m)
    ensures Abs(Dot(taps, w, 0, a) + Dot(taps, w, b, |taps|)) <= Mul(m, L1(taps, 0, |taps|))
  {
    hide Mul, Dot, L1;
    var t := |taps|;
    DotWithin(taps, w, m, 0, a);
    DotWithin(taps, w, m, b, t);
    L1Joins(taps, 0, a, b);
    L1Joins(taps, 0, b, t);
    MulGrows(m, L1(taps, 0, a), L1(taps, 0, b));
    MulSplits(m, L1(taps, 0, b), L1(taps, b, t));
  }

  lemma MulSplits(m: nat, a: nat, b: nat)
    ensures Mul(m, a) + Mul(m, b) == Mul(m, a + b)
  {
  }

  /** The pre-addition of a folded pair: one bit more than the input words. */
  method PreAdd(a: int, b: int, ghost m: nat) returns (sum: int)
    requires 0 - m <= a < m && 0 - m <= b < m
    ensures sum == a + b && 0 - 2 * m <= sum < 2 * m
  {
    sum := a + b;
  }

  /** A product that must fit the accumulator. */
  method MultiplyFitting(a: int, b: int, limit: nat) returns (product: int)
    requires Abs(Mul(a, b)) < limit
    ensures product == Mul(a, b)
  {
    product := Mul(a, b);
  }

  /** The product of one tap, or of a tap and its mirror image, is within the bound. */
  lemma ProductFits(taps: seq<int>, k: nat, a: int, m: nat, fold: bool)
    requires k < |taps| && Abs(a) <= if fold then 2 * m else m
    requires fold ==> k < |taps| - 1 - k && taps[|taps| - 1 - k] == taps[k]
    ensures Abs(Mul(a, taps[k])) <= Mul(m, L1(taps, 0, |taps|))
  {
    hide L1, Mul;
    var t := |taps|;
    L1Joins(taps, 0, k, t);
    L1Joins(taps, k, k + 1, t);
    L1One(taps, k);
    MulMirror(a, taps[k]);
    if fold {
      L1Joins(taps, k + 1, t - 1 - k, t);
      L1Joins(taps, t - 1 - k, t - k, t);
      L1One(taps, t - 1 - k);
      MulWithin(taps[k], a, 2 * m, 0);
      MulZero(2 * m);
      Twice(m, Abs(taps[k]));
      MulGrows(m, 2 * Abs(taps[k]), L1(taps, 0, t));
    } else {
      MulWithin(taps[k], a, m, 0);
      MulZero(m);
      MulGrows(m, Abs(taps[k]), L1(taps, 0, t));
    }
  }

  lemma L1One(taps: seq<int>, k: nat)
    requires k < |taps|
    ensures L1(taps, k, k + 1) == Abs(taps[k])
  {
    assert L1(taps, k, k) == 0;
  }

  lemma MulMirror(a: int, b: int)
    ensures Mul(a, b) == Mul(b, a)
  {
  }

  lemma Twice(m: nat, a: nat)
    ensures Mul(2 * m, a) == Mul(m, 2 * a)
  {
  }

  /** An addition that must fit its accumulator. */
  method AddFitting(acc: int, term: int, limit: nat) returns (sum: int)
    requires Abs(acc) < limit && Abs(acc + term) < limit
    ensures sum == acc + term
  {
    sum := acc + term;
  }

  /** The tap loops of process(), folded for a palindrome, over one window. */
  method Accumulate(taps: seq<int>, symmetric: bool, w: seq<int>, ghost m: nat, limit: nat) returns (acc: int)
    requires |w| == |taps| && symmetric == Palindrome(taps) && Within(w, m)
    requires m > 0 && Mul(m, L1(taps, 0, |taps|)) < limit
    ensures acc == Dot(taps, w, 0, |taps|) && Abs(acc) < limit
  {
    hide Mul, Dot, L1, Palindrome, Within;
    acc := 0;
    var t := |taps|;
    DotEmpty(taps, w);
    TwoStretches(taps, w, m, 0, t);
    if symmetric {
      var pairs := t / 2;
      for k := 0 to pairs
        invariant acc == Dot(taps, w, 0, k) + Dot(taps, w, t - k, t) && Abs(acc) < limit
      {
        FoldStep(taps, w, k);
        TwoStretches(taps, w, m, k + 1, t - k - 1);
        TapAndSamples(taps, w, m, k);
        var pair := PreAdd(w[k], w[t - 1 - k], m);
        ProductFits(taps, k, pair, m, true);
        var product := MultiplyFitting(pair, taps[k], limit);
        acc := AddFitting(acc, product, limit);
      }
      FoldEnds(taps, w);
      TwoStretches(taps, w, m, t, t);
      if t % 2 == 1 {
        TapAndSamples(taps, w, m, pairs);
        ProductFits(taps, pairs, w[pairs], m, false);
        var product := MultiplyFitting(w[pairs], taps[pairs], limit);
        acc := AddFitting(acc, product, limit);
      }
    } else {
      for k := 0 to t
        invariant acc == Dot(taps, w, 0, k) && Abs(acc) < limit
      {
        DotNext(taps, w, k);
        TwoStretches(taps, w, m, k + 1, t);
        TapAndSamples(taps, w, m, k);
        ProductFits(taps, k, w[t - 1 - k], m, false);
        MulMirror(taps[k], w[t - 1 - k]);
        var product := MultiplyFitting(w[t - 1 - k], taps[k], limit);
        acc := AddFitting(acc, product, limit);
      }
    }
  }

  lemma TapAndSamples(taps: seq<int>, w: seq<int>, m: nat, k: nat)
    requires |w| == |taps| && k < |taps| && Within(w, m)
    ensures 0 - m <= w[k] < m && 0 - m <= w[|taps| - 1 - k] < m
    ensures Palindrome(taps) ==> taps[|taps| - 1 - k] == taps[k]
  {
  }

  lemma DotEmpty(taps: seq<int>, w: seq<int>)
    requires |w| == |taps|
    ensures Dot(taps, w, 0, 0) == Dot(taps, w, |taps|, |taps|) == 0
  {
  }

  lemma DotNext(taps: seq<int>, w: seq<int>, k: nat)
    requires |w| == |taps| && k < |taps|
    ensures Dot(taps, w, 0, k + 1) == Dot(taps, w, 0, k) + Mul(taps[k], w[|w| - 1 - k])
    ensures Dot(taps, w, |taps|, |taps|) == 0
  {
    hide Mul;
  }

  /** The inlined rounding at the end of process(). */
  method RoundInline(acc: int) returns (value: int)
    ensures value == RoundRatioEven(acc, ONE)
  {
    var magnitude := Abs(acc);
    var quotient, remainder := magnitude / ONE, magnitude % ONE;
    var half := ONE / 2;
    if remainder > half || (remainder == half && quotient % 2 != 0) { quotient := quotient + 1; }
    value := if acc < 0 then -quotient else quotient;
  }

  // -------------------------------------------------------------------- the /N phase

  lemma ModIs(x: int, q: int, n: nat, j: nat)
    requires n > 0 && j < n && x == Mul(q, n) + j
    ensures x % n == j
  {
    hide Mul;
    var d := x / n;
    MulIs(d, n);
    MulLess(d, q, n);
    MulLess(q, d, n);
  }

  lemma MulIs(d: int, n: int)
    ensures Mul(d, n) == n * d
  {
  }

  lemma {:induction false} MulLess(a: int, b: int, n: nat)
    ensures a < b ==> Mul(a, n) + n <= Mul(b, n)
    decreases b - a
  {
    hide Mul;
    if a < b {
      MulNext(b - 1, n);
      MulLess(a, b - 1, n);
    }
  }

  lemma MulNext(a: int, n: int)
    ensures Mul(a + 1, n) == Mul(a, n) + n && Mul(-a, n) == -Mul(a, n)
  {
  }

  /** The next multiple of n at or after `start` is where the source's slice begins. */
  lemma FirstOffset(start: nat, n: nat)
    requires n > 0
    ensures var o := (0 - start) % n;
            && 0 <= o < n && Multiple(start + o, n)
            && forall i :: start <= i < start + o ==> !Multiple(i, n)
  {
    hide Mul;
    var o, q := (0 - start) % n, (0 - start) / n;
    MulIs(q, n);
    MulNext(q, n);
    ModIs(start + o, -q, n, 0);
    forall i | start <= i < start + o ensures !Multiple(i, n) {
      MulNext(-q - 1, n);
      ModIs(i, -q - 1, n, n - o + i - start);
    }
  }

  lemma NextMultiple(i: nat, n: nat)
    requires n > 0 && Multiple(i, n)
    ensures Multiple(i + n, n) && forall j :: i < j < i + n ==> !Multiple(j, n)
  {
    hide Mul;
    var q := i / n;
    MulIs(q, n);
    MulNext(q, n);
    ModIs(i + n, q + 1, n, 0);
    forall j | i < j < i + n ensures !Multiple(j, n) { ModIs(j, q, n, j - i); }
  }

  /** Nothing is owed between multiples. */
  lemma {:induction false} NothingOwed(taps: seq<int>, factor: nat, x: seq<int>, first: nat, from: nat, end: nat)
    requires factor > 0 && from <= end && forall i :: from <= i < end ==> !Multiple(i, factor)
    ensures Owed(taps, factor, x, first, from, end) == []
    decreases end
  {
    hide Conv, RoundRatioEven, Multiple;
    if from < end {
      assert !Multiple(end - 1, factor);
      NothingOwed(taps, factor, x, first, from, end - 1);
    }
  }

  // ------------------------------------------------------------------------ the filter

  datatype Index = None | At(index: nat)

  datatype Width = Least | Bits(n: nat)

  predicate WordBits(n: nat, maximum: nat) {
    2 <= n <= maximum
  }

  function LeastWidth(bound: nat): nat {
    Max(2, BitLength(bound) + 1)
  }

  /** The least width of two bits or more whose signed words hold the bound. */
  lemma LeastWidthIsLeast(bound: nat, n: nat)
    ensures LeastWidth(bound) <= n <==> n >= 2 && bound < Pow2(n - 1)
  {
    hide Pow2, BitLength;
    if n >= 1 { BitLengthHolds(bound, n - 1); }
  }

  /** What the constructor accepts, for taps already quantized. */
  ghost predicate Accepted(taps: seq<int>, factor: nat, inputBits: nat, accumulatorBits: nat, outputBits: Width) {
    && taps != [] && 1 <= factor <= MAX_BLOCK_SAMPLES && WordBits(inputBits, 63) && WordBits(accumulatorBits, 64)
    && LeastWidth(Bound(taps, inputBits)) <= accumulatorBits
    && var least := LeastWidth(Abs(RoundShiftEven(Bound(taps, inputBits), FRACTION_BITS)));
       match outputBits
       case Least => least <= 63
       case Bits(n) => WordBits(n, 63) && least <= n
  }

  /** The width asked for, or the least that certifies. */
  function OutputWidth(taps: seq<int>, inputBits: nat, outputBits: Width): nat
    requires inputBits > 0
  {
    match outputBits
    case Least => LeastWidth(Abs(RoundShiftEven(Bound(taps, inputBits), FRACTION_BITS)))
    case Bits(n) => n
  }

  class FixedFirDecimator {
    const taps: seq<int>
    const factor: nat
    const inputBits: nat
    const accumulatorBits: nat
    const outputBits: nat
    const symmetric: bool
    var history: seq<int>
    var nextIndex: Index
    var firstIndex: Index
    ghost var stream: seq<int> // every sample since the reset

    ghost predicate Valid()
      reads this
    {
      && taps != [] && factor > 0 && symmetric == Palindrome(taps)
      && inputBits > 0 && accumulatorBits > 0 && outputBits > 0
      && Certified(taps, inputBits, accumulatorBits, outputBits)
      && |history| == |taps| - 1 && IsWindow(history, stream, |stream| - 1)
      && Within(stream, Pow2(inputBits - 1))
      && (stream == [] ==> nextIndex == None && firstIndex == None)
      && (stream != [] ==> firstIndex.At? && nextIndex == At(firstIndex.index + |stream|))
    }

    /** The index of the stream's first sample, given where the next one goes. */
    ghost function First(start: nat): nat
      reads this
    {
      if firstIndex.At? then firstIndex.index else start
    }

    constructor (taps: seq<int>, factor: nat, inputBits: nat, accumulatorBits: nat, outputBits: nat)
      requires taps != [] && factor > 0 && Certified(taps, inputBits, accumulatorBits, outputBits)
      ensures Valid() && stream == [] && this.taps == taps && this.factor == factor && this.inputBits == inputBits
      ensures this.accumulatorBits == accumulatorBits && this.outputBits == outputBits
    {
      this.taps, this.factor := taps, factor;
      this.inputBits, this.accumulatorBits, this.outputBits := inputBits, accumulatorBits, outputBits;
      symmetric := Palindrome(taps);
      history, nextIndex, firstIndex, stream := seq(|taps| - 1, i => 0), None, None, [];
    }

    method Reset()
      requires Valid()
      modifies this
      ensures Valid() && stream == []
    {
      history, nextIndex, firstIndex, stream := seq(|taps| - 1, i => 0), None, None, [];
    }

    /** What process() accepts. */
    ghost predicate Accepts(codes: seq<int>, start: nat)
      requires Valid()
      reads this
    {
      && start + |codes| <= MAX_SAMPLE_INDEX && |codes| <= MAX_BLOCK_SAMPLES
      && (forall k :: 0 <= k < |codes| ==> 0 - Pow2(inputBits - 1) <= codes[k] < Pow2(inputBits - 1))
      && (nextIndex == None || nextIndex == At(start))
    }

    /** process(): refused input changes nothing; accepted input is answered with what the
        plain convolution of the whole stream owes for it. */
    method Process(codes: seq<int>, start: nat) returns (ok: bool, block: seq<Out>)
      requires Valid()
      modifies this
      ensures Valid() && ok == old(Accepts(codes, start))
      ensures !ok ==> unchanged(this)
      ensures ok ==> stream == old(stream) + codes
      ensures ok && codes != [] ==> firstIndex == At(old(First(start))) && nextIndex == At(start + |codes|)
      ensures ok ==> block == Owed(taps, factor, stream, old(First(start)), start, start + |codes|)
      ensures ok ==> forall k :: 0 <= k < |block| ==> Abs(block[k].value) < Pow2(outputBits - 1)
    {
      hide Owed, IsWindow, Within, Certified, Palindrome;
      block := [];
      ok := Admissible(codes, start);
      if !ok || codes == [] {
        OwedNone(taps, factor, stream, First(start), start);
        assert stream + [] == stream;
        return;
      }
      var complete := history + codes;
      Complete(taps, history, codes, stream);
      JoinWithin(stream, codes, Pow2(inputBits - 1));
      block := Decimate(complete, stream + codes, First(start), start, |codes|);
      Commit(complete, codes, start);
    }

    /** State moves only once every output is there. */
    method Commit(complete: seq<int>, codes: seq<int>, start: nat)
      requires Valid() && codes != [] && complete == history + codes && (nextIndex == None || nextIndex == At(start))
      requires IsWindow(complete, stream + codes, |stream + codes| - 1) && Within(stream + codes, Pow2(inputBits - 1))
      modifies this
      ensures Valid() && stream == old(stream) + codes
      ensures firstIndex == At(old(First(start))) && nextIndex == At(start + |codes|)
    {
      hide IsWindow, Within, Certified, Palindrome;
      NewHistory(taps, complete, stream + codes);
      history := complete[|complete| - (|taps| - 1)..];
      firstIndex, nextIndex := At(if firstIndex.At? then firstIndex.index else start), At(start + |codes|);
      stream := stream + codes;
    }

    method Admissible(codes: seq<int>, start: nat) returns (ok: bool)
      requires Valid()
      ensures ok == Accepts(codes, start)
    {
      if start > MAX_SAMPLE_INDEX || |codes| > MAX_BLOCK_SAMPLES { return false; }
      for k := 0 to |codes|
        invariant forall j :: 0 <= j < k ==> 0 - Pow2(inputBits - 1) <= codes[j] < Pow2(inputBits - 1)
      {
        if !(0 - Pow2(inputBits - 1) <= codes[k] < Pow2(inputBits - 1)) { return false; }
      }
      ok := start + |codes| <= MAX_SAMPLE_INDEX && (nextIndex == None || nextIndex == At(start));
    }

    /** The windows the /N phase selects, one after the other. */
    method Decimate(complete: seq<int>, ghost x: seq<int>, ghost firstG: nat, start: nat,
                    n: nat) returns (block: seq<Out>)
      requires Valid() && n > 0 && |complete| == |taps| - 1 + n && |x| >= n && start + n == firstG + |x|
      requires IsWindow(complete, x, |x| - 1) && Within(x, Pow2(inputBits - 1))
      requires firstG == First(start)
      ensures block == Owed(taps, factor, x, firstG, start, start + n)
      ensures forall k :: 0 <= k < |block| ==> Abs(block[k].value) < Pow2(outputBits - 1)
    {
      hide Owed, Conv, IsWindow, Within, Certified, Palindrome, Multiple, RoundRatioEven;
      var first := if firstIndex.At? then firstIndex.index else start;
      block := [];
      var o := (0 - start) % factor;
      FirstOffset(start, factor);
      ghost var upto := if o < n then o else n;
      NothingOwed(taps, factor, x, first, start, start + upto);
      while o < n
        invariant 0 <= o && Multiple(start + o, factor) && upto == if o < n then o else n
        invariant block == Owed(taps, factor, x, first, start, start + upto)
        invariant forall k :: 0 <= k < |block| ==> Abs(block[k].value) < Pow2(outputBits - 1)
      {
        var value := Output(complete, x, o, n);
        block := block + [Out(value, start + o, start + o - first >= |taps| - 1)];
        NextMultiple(start + o, factor);
        ghost var next := if o + factor < n then o + factor else n;
        OneOwed(taps, factor, x, first, start, start + o, start + next);
        o, upto := o + factor, next;
      }
    }

    /** One output: accumulate within the certified width, round once. */
    method Output(complete: seq<int>, ghost x: seq<int>, o: nat, n: nat) returns (value: int)
      requires Valid() && o < n && |complete| == |taps| - 1 + n && |x| >= n
      requires IsWindow(complete, x, |x| - 1) && Within(x, Pow2(inputBits - 1))
      ensures value == RoundRatioEven(Conv(taps, x, |x| - n + o, |taps|), ONE)
      ensures Abs(value) < Pow2(outputBits - 1)
    {
      hide Conv, Within, IsWindow, RoundRatioEven, RoundShiftEven, Palindrome, Bound;
      BoundIs(taps, inputBits);
      var t := |taps|;
      assert o + t <= |complete|;
      var w := complete[o..o + t];
      assert |w| == t;
      SubWindow(complete, x, o, |taps|);
      WindowWithin(w, x, |x| - n + o, Pow2(inputBits - 1));
      assert Mul(Pow2(inputBits - 1), L1(taps, 0, |taps|)) < Pow2(accumulatorBits - 1);
      var acc := Accumulate(taps, symmetric, w, Pow2(inputBits - 1), Pow2(accumulatorBits - 1));
      DotIsConv(taps, w, x, |x| - n + o, |taps|);
      DotWithin(taps, w, Pow2(inputBits - 1), 0, |taps|);
      RoundShiftWithin(acc, Bound(taps, inputBits));
      value := RoundInline(acc);
    }
  }

  lemma BoundIs(taps: seq<int>, inputBits: nat)
    requires inputBits > 0
    ensures Bound(taps, inputBits) == Mul(Pow2(inputBits - 1), L1(taps, 0, |taps|))
  {
  }

  lemma OwedNone(taps: seq<int>, factor: nat, x: seq<int>, first: nat, at: nat)
    requires factor > 0
    ensures Owed(taps, factor, x, first, at, at) == []
  {
  }

  /** A multiple of the factor owes one output, up to the next one. */
  lemma OneOwed(taps: seq<int>, factor: nat, x: seq<int>, first: nat, from: nat, i: nat, end: nat)
    requires factor > 0 && from <= i < end && Multiple(i, factor) && forall j :: i < j < end ==> !Multiple(j, factor)
    ensures Owed(taps, factor, x, first, from, end) == Owed(taps, factor, x, first, from, i) +
              [Out(RoundRatioEven(Conv(taps, x, i - first, |taps|), ONE), i, i - first >= |taps| - 1)]
  {
    hide Conv, RoundRatioEven;
    OwedJoins(taps, factor, x, first, from, i + 1, end);
    NothingOwed(taps, factor, x, first, i + 1, end);
  }

  /** History and new samples are the end of the stream. */
  lemma Complete(taps: seq<int>, history: seq<int>, codes: seq<int>, stream: seq<int>)
    requires taps != [] && |history| == |taps| - 1 && IsWindow(history, stream, |stream| - 1)
    ensures IsWindow(history + codes, stream + codes, |stream + codes| - 1)
  {
  }

  lemma NewHistory(taps: seq<int>, complete: seq<int>, x: seq<int>)
    requires taps != [] && |taps| - 1 <= |complete| && IsWindow(complete, x, |x| - 1)
    ensures IsWindow(complete[|complete| - (|taps| - 1)..], x, |x| - 1)
  {
  }

  lemma JoinWithin(x: seq<int>, codes: seq<int>, m: nat)
    requires Within(x, m) && forall k :: 0 <= k < |codes| ==> 0 - m <= codes[k] < m
    ensures Within(x + codes, m)
  {
  }

  lemma SubWindow(complete: seq<int>, x: seq<int>, o: nat, t: nat)
    requires o + t <= |complete| && IsWindow(complete, x, |x| - 1)
    ensures IsWindow(complete[o..o + t], x, |x| - 1 - (|complete| - o - t))
  {
  }

  lemma WindowWithin(w: seq<int>, x: seq<int>, n: int, m: nat)
    requires IsWindow(w, x, n) && Within(x, m) && m > 0
    ensures Within(w, m)
  {
  }

  /** The sum the constructor takes of the coefficient magnitudes. */
  method SumOfMagnitudes(taps: seq<int>) returns (l1: nat)
    ensures l1 == L1(taps, 0, |taps|)
  {
    l1 := 0;
    for k := 0 to |taps|
      invariant l1 == L1(taps, 0, k)
    {
      l1 := l1 + Abs(taps[k]);
    }
  }

  /** The constructor's checks: a filter comes out exactly when they pass. */
  method Build(taps: seq<int>, factor: nat, inputBits: nat, accumulatorBits: nat, outputBits: Width)
    returns (fir: FixedFirDecimator?)
    ensures fir != null <==> Accepted(taps, factor, inputBits, accumulatorBits, outputBits)
    ensures fir != null ==> fresh(fir) && fir.Valid() && fir.stream == [] && fir.taps == taps && fir.factor == factor
    ensures fir != null ==> fir.inputBits == inputBits && fir.outputBits == OutputWidth(taps, inputBits, outputBits)
  {
    hide BitLength, RoundShiftEven, Certified, Mul, L1;
    if taps == [] || !(1 <= factor <= MAX_BLOCK_SAMPLES) || !WordBits(inputBits, 63) || !WordBits(accumulatorBits, 64) {
      return null;
    }
    var l1 := SumOfMagnitudes(taps);
    var bound := Mul(Pow2(inputBits - 1), l1);
    MulGrows(Pow2(inputBits - 1), 0, l1);
    MulZero(Pow2(inputBits - 1));
    if accumulatorBits < LeastWidth(bound) { return null; }
    var output := RoundShiftEven(bound, FRACTION_BITS);
    RoundShiftWithin(0, bound);
    var least := LeastWidth(Abs(output));
    var bits := match outputBits case Least => least case Bits(n) => n;
    if (outputBits.Bits? && !WordBits(bits, 63)) || !(least <= bits <= 63) { return null; }
    RoundNonNegative(bound);
    WidthsCertify(taps, inputBits, accumulatorBits, bits);
    fir := new FixedFirDecimator(taps, factor, inputBits, accumulatorBits, bits);
  }

  // ------------------------------------------------------------------ the coefficients

  /** A finite floating-point value as its exact ratio. */
  datatype Ratio = Ratio(numerator: int, denominator: nat)

  function Code(q: Ratio): int
    requires q.denominator > 0
  {
    RoundRatioEven(Mul(q.numerator, ONE), q.denominator)
  }

  /** Signed Q1.23, before and after rounding. */
  predicate Quantizable(q: Ratio) {
    && q.denominator > 0 && 0 - q.denominator <= q.numerator < q.denominator
    && 0 - ONE <= Code(q) < ONE
  }

  predicate AllQuantizable(coefficients: seq<Ratio>) {
    && 0 < |coefficients| <= MAX_TAPS
    && forall k :: 0 <= k < |coefficients| ==> Quantizable(coefficients[k])
  }

  function Codes(coefficients: seq<Ratio>): (codes: seq<int>)
    requires AllQuantizable(coefficients)
    ensures |codes| == |coefficients|
  {
    seq(|coefficients|, k requires 0 <= k < |coefficients| => Code(coefficients[k]))
  }

  /** coefficient_codes(): the nearest codes, or none where one does not fit. */
  method CoefficientCodes(coefficients: seq<Ratio>) returns (ok: bool, codes: seq<int>)
    requires forall k :: 0 <= k < |coefficients| ==> coefficients[k].denominator > 0
    ensures ok <==> AllQuantizable(coefficients)
    ensures ok ==> codes == Codes(coefficients)
    ensures ok ==> forall k :: 0 <= k < |codes| ==>
              NearestEven(Mul(coefficients[k].numerator, ONE), coefficients[k].denominator, codes[k])
  {
    hide RoundRatioEven, NearestEven, Mul;
    codes := [];
    if coefficients == [] || |coefficients| > MAX_TAPS { return false, codes; }
    for k := 0 to |coefficients|
      invariant |codes| == k
      invariant forall j :: 0 <= j < k ==> Quantizable(coefficients[j]) && codes[j] == Code(coefficients[j])
      invariant forall j :: 0 <= j < k ==>
                  NearestEven(Mul(coefficients[j].numerator, ONE), coefficients[j].denominator, codes[j])
    {
      var q := coefficients[k];
      if q.numerator < 0 - q.denominator || q.numerator >= q.denominator { return false, codes; }
      var code := RoundRatioEven(Mul(q.numerator, ONE), q.denominator);
      RoundIsNearest(Mul(q.numerator, ONE), q.denominator);
      if !(0 - ONE <= code < ONE) { return false, codes; }
      codes := codes + [code];
    }
    ok := true;
  }

  /** The constructor: quantized coefficients, then the certificate; null where it raises. */
  method Construct(coefficients: seq<Ratio>, factor: nat, inputBits: nat, accumulatorBits: nat, outputBits: Width)
    returns (fir: FixedFirDecimator?)
    requires forall k :: 0 <= k < |coefficients| ==> coefficients[k].denominator > 0
    ensures fir != null <==>
              AllQuantizable(coefficients) &&
              Accepted(Codes(coefficients), factor, inputBits, accumulatorBits, outputBits)
    ensures fir != null ==> fresh(fir) && fir.Valid() && fir.stream == [] && fir.taps == Codes(coefficients)
  {
    hide Accepted, AllQuantizable, Certified, NearestEven;
    var ok, codes := CoefficientCodes(coefficients);
    if !ok { return null; }
    fir := Build(codes, factor, inputBits, accumulatorBits, outputBits);
  }

  lemma RoundNonNegative(bound: nat)
    ensures RoundShiftEven(bound, FRACTION_BITS) >= 0
  {
    RoundShiftWithin(bound, bound);
  }

  // ---------------------------------------------------------------- any way of chunking

  function Flat(chunks: seq<seq<int>>): seq<int> {
    if chunks == [] then [] else chunks[0] + Flat(chunks[1..])
  }

  /** The answers to a stream fed in chunks, after x. */
  function Answers(taps: seq<int>, factor: nat, first: nat, x: seq<int>, chunks: seq<seq<int>>): seq<Out>
    requires factor > 0
    decreases |chunks|
  {
    if chunks == [] then []
    else
      Owed(taps, factor, x + chunks[0], first, first + |x|, first + |x + chunks[0]|) +
      Answers(taps, factor, first, x + chunks[0], chunks[1..])
  }

  /** Joined, they are what the whole stream owes, however it was cut. */
  lemma {:induction false} ChunkIndependent(taps: seq<int>, factor: nat, first: nat, x: seq<int>, chunks: seq<seq<int>>)
    requires factor > 0
    ensures Answers(taps, factor, first, x, chunks)
         == Owed(taps, factor, x + Flat(chunks), first, first + |x|, first + |x + Flat(chunks)|)
    decreases |chunks|
  {
    hide Owed;
    if chunks == [] {
      assert x + Flat(chunks) == x;
      OwedNone(taps, factor, x, first, first + |x|);
    } else {
      var x' := x + chunks[0];
      ChunkIndependent(taps, factor, first, x', chunks[1..]);
      assert x' + Flat(chunks[1..]) == x + Flat(chunks);
      OwedCausal(taps, factor, x', Flat(chunks[1..]), first, first + |x|, first + |x'|);
      OwedJoins(taps, factor, x + Flat(chunks), first, first + |x|, first + |x'|, first + |x + Flat(chunks)|);
    }
  }

  /** Tap k at sample n reaches before the stream. */
  predicate Silent(n: nat, k: nat) {
    n < k
  }

  /** An output is marked valid exactly when none of its taps does. */
  lemma ValidIffNoSilence(taps: seq<int>, n: nat)
    requires taps != []
    ensures n >= |taps| - 1 <==> forall k :: 0 <= k < |taps| ==> !Silent(n, k)
  {
    if n < |taps| - 1 { assert Silent(n, |taps| - 1); }
  }
}
