/** arc_detector/fast_oracle.py: the filter bank's blocks and the streak detector. */
module FastOracle {

  import opened BitReverse
  import opened FixedPoint
  import opened FixedFir
  import opened Tallies

  const BANDS := 6
  const MAX_PROCESS_SAMPLES := 32768
  const SPAN := 256 // source samples a block stands for, in either architecture

  /** baseline_4m has no prefix; multirate_2m halves the rate first. */
  datatype Variant = Variant(prefixTaps: seq<int>, bandTaps: seq<seq<int>>, decimation: nat, blockSamples: nat)
  {
    predicate Valid() {
      && |bandTaps| == BANDS && bandTaps[0] != []
      && (forall k :: 0 <= k < BANDS ==> |bandTaps[k]| == |bandTaps[0]|)
      && if prefixTaps == [] then decimation == 1 && blockSamples == SPAN
         else decimation == 2 && blockSamples == SPAN / 2
    }

    /** Taps of one band filter. */
    function Length(): nat
      requires Valid()
    {
      |bandTaps[0]|
    }

    function Fragment(): nat {
      blockSamples / 8
    }
  }

  // ------------------------------------------------------------- the stream, by definition

  /** Index of the bank's first code when the source starts at `first`. */
  function BankFirst(v: Variant, first: nat): nat {
    if v.prefixTaps == [] then first else (first + 1) / 2
  }

  /** Index of the bank's next code when the source has reached `at`. */
  function BankNext(v: Variant, at: nat): nat {
    if v.prefixTaps == [] then at else (at + 1) / 2
  }

  function ValuesOf(outs: seq<Out>): (r: seq<int>)
    ensures |r| == |outs|
  {
    seq(|outs|, i requires 0 <= i < |outs| => outs[i].value)
  }

  /** The codes the bank has received for source stream x. */
  function BankCodes(v: Variant, x: seq<int>, first: nat): seq<int> {
    if v.prefixTaps == [] then x else ValuesOf(Owed(v.prefixTaps, 2, x, first, first, first + |x|))
  }

  /** The first bank index whose outputs use no silence in either stage. */
  function Settled(v: Variant, first: nat): nat
    requires v.Valid()
  {
    if v.prefixTaps == [] then first + v.Length() - 1 else (first + |v.prefixTaps|) / 2 + v.Length() - 1
  }

  /** Every source sample behind the bank's code m has been there. */
  predicate NoSilence(v: Variant, first: nat, m: int) {
    if v.prefixTaps == [] then m >= first else 2 * m - (|v.prefixTaps| - 1) >= first
  }

  /** From the settled index on, and from no earlier one, a band output uses such codes only. */
  lemma SettledIsFirst(v: Variant, first: nat, n: nat)
    requires v.Valid()
    ensures n >= Settled(v, first) <==> forall m: int :: n - v.Length() < m <= n ==> NoSilence(v, first, m)
  {
    var oldest := n - v.Length() + 1;
    assert NoSilence(v, first, oldest) <==> n >= Settled(v, first);
  }

  /** The six band outputs at sample n of the bank's codes. */
  function Vector(v: Variant, codes: seq<int>, n: int): (r: seq<int>)
    ensures |r| == |v.bandTaps|
  {
    seq(|v.bandTaps|, k requires 0 <= k < |v.bandTaps| =>
      RoundRatioEven(Conv(v.bandTaps[k], codes, n, |v.bandTaps[k]|), ONE))
  }

  /** Vectors for bank indices a to b. */
  function Vectors(v: Variant, codes: seq<int>, bankFirst: nat, a: nat, b: nat): (m: seq<seq<int>>)
    ensures |m| == if a <= b then b - a else 0
  {
    seq(if a <= b then b - a else 0, i => Vector(v, codes, a + i - bankFirst))
  }

  function Square(x: int): nat {
    Abs(x) * Abs(x)
  }

  /** Sum of squares of one band over rows a to b. */
  function Energy(rows: seq<seq<int>>, band: nat, a: nat, b: nat): nat
    requires a <= b <= |rows| && forall i :: 0 <= i < |rows| ==> band < |rows[i]|
    decreases b
  {
    if a == b then 0 else Energy(rows, band, a, b - 1) + Square(rows[b - 1][band])
  }

  datatype Block = Block(start: nat, end: nat, energies: seq<nat>, fragments: seq<seq<nat>>)

  ghost predicate Rectangular(rows: seq<seq<int>>) {
    forall i :: 0 <= i < |rows| ==> |rows[i]| == BANDS
  }

  /** The six band energies of rows a to b. */
  function Sums(rows: seq<seq<int>>, a: nat, b: nat): (r: seq<nat>)
    requires a <= b <= |rows| && Rectangular(rows)
    ensures |r| == BANDS
  {
    seq(BANDS, band requires 0 <= band < BANDS => Energy(rows, band, a, b))
  }

  /** Where fragment j begins. */
  function Edge(n: nat, j: nat): nat {
    n / 8 * j
  }

  lemma EdgeLaws(n: nat, j: nat)
    requires n % 8 == 0
    ensures Edge(n, 0) == 0 && Edge(n, 8) == n && Edge(n, j) <= Edge(n, j + 1)
    ensures j < 8 ==> Edge(n, j + 1) <= n
  {
    if j < 8 { assert n / 8 * (j + 1) <= n / 8 * 8; }
  }

  /** A block's sums: eight fragments of equal length, and each band over the whole block. */
  function BlockOf(rows: seq<seq<int>>, start: nat): Block
    requires |rows| % 8 == 0 && Rectangular(rows)
  {
    Block(start, start + SPAN, Sums(rows, 0, |rows|),
          seq(8, j requires 0 <= j < 8 => EdgeLaws(|rows|, j); Sums(rows, Edge(|rows|, j), Edge(|rows|, j + 1))))
  }

  lemma VectorsRectangular(v: Variant, codes: seq<int>, bankFirst: nat, a: nat, b: nat)
    requires v.Valid()
    ensures Rectangular(Vectors(v, codes, bankFirst, a, b))
  {
    var rows := Vectors(v, codes, bankFirst, a, b);
    forall i | 0 <= i < |rows| ensures |rows[i]| == BANDS {
      assert rows[i] == Vector(v, codes, a + i - bankFirst);
    }
  }

  /** Bank index where block k of the settled stream begins. */
  function Cut(v: Variant, first: nat, k: nat): nat
    requires v.Valid()
  {
    Settled(v, first) + if v.prefixTaps == [] then SPAN * k else SPAN / 2 * k
  }

  /** The source index of a bank index. */
  function ToSource(v: Variant, b: nat): nat {
    if v.prefixTaps == [] then b else 2 * b
  }

  lemma CutLaws(v: Variant, first: nat, k: nat)
    requires v.Valid()
    ensures Cut(v, first, 0) == Settled(v, first) && Cut(v, first, k + 1) == Cut(v, first, k) + v.blockSamples
    ensures ToSource(v, Cut(v, first, k + 1)) == ToSource(v, Cut(v, first, k)) + SPAN
    ensures ToSource(v, Cut(v, first, k)) == ToSource(v, Settled(v, first)) + SPAN * k
    ensures Cut(v, first, k) >= Settled(v, first)
  {
  }

  lemma ToSourceIs(v: Variant, b: nat)
    requires v.Valid()
    ensures ToSource(v, b) == b * v.decimation
  {
  }

  /** Block k of the settled stream. */
  function BlockAt(v: Variant, x: seq<int>, first: nat, k: nat): Block
    requires v.Valid()
  {
    var a := Cut(v, first, k);
    VectorsRectangular(v, BankCodes(v, x, first), BankFirst(v, first), a, a + v.blockSamples);
    BlockOf(Vectors(v, BankCodes(v, x, first), BankFirst(v, first), a, a + v.blockSamples), ToSource(v, a))
  }

  /** How many blocks' source spans have been consumed when the source has reached `at`. */
  function Ripe(v: Variant, first: nat, at: nat): nat
    requires v.Valid()
  {
    var from := ToSource(v, Settled(v, first));
    if at < from then 0 else (at - from) / SPAN
  }

  /** Blocks a to b. */
  function BlocksFrom(v: Variant, x: seq<int>, first: nat, a: nat, b: nat): (r: seq<Block>)
    requires v.Valid()
    ensures |r| == if a <= b then b - a else 0
  {
    seq(if a <= b then b - a else 0, i requires i >= 0 => BlockAt(v, x, first, a + i))
  }

  /** Blocks tile the settled stream in spans of 256 source samples. */
  lemma BlocksTile(v: Variant, x: seq<int>, first: nat, k: nat)
    requires v.Valid()
    ensures BlockAt(v, x, first, k).start == ToSource(v, Settled(v, first)) + SPAN * k
    ensures BlockAt(v, x, first, k).end == BlockAt(v, x, first, k + 1).start
  {
    hide Cut, Vectors, Settled, ToSource;
    CutLaws(v, first, k);
    CutLaws(v, first, k + 1);
  }

  /** A block is ripe exactly when the last sample of its span has been consumed. */
  lemma RipeIffConsumed(v: Variant, x: seq<int>, first: nat, at: nat, k: nat)
    requires v.Valid()
    ensures k < Ripe(v, first, at) <==> BlockAt(v, x, first, k).end <= at
  {
    hide BlockAt, Settled;
    BlocksTile(v, x, first, k);
    BlocksTile(v, x, first, k + 1);
  }

  // ---------------------------------------------------------------- later samples change nothing

  lemma {:induction false} OwedCount(taps: seq<int>, x: seq<int>, first: nat, from: nat, end: nat)
    requires from <= end
    ensures |Owed(taps, 2, x, first, from, end)| == (end + 1) / 2 - (from + 1) / 2
    decreases end
  {
    hide Conv, RoundRatioEven;
    if from < end { OwedCount(taps, x, first, from, end - 1); }
  }

  lemma BankCodesCount(v: Variant, x: seq<int>, first: nat)
    ensures |BankCodes(v, x, first)| == BankNext(v, first + |x|) - BankFirst(v, first)
  {
    if v.prefixTaps != [] { OwedCount(v.prefixTaps, x, first, first, first + |x|); }
  }

  /** What the bank receives for more source samples is appended. */
  lemma BankCodesGrow(v: Variant, x: seq<int>, more: seq<int>, first: nat)
    ensures BankCodes(v, x + more, first) == BankCodes(v, x, first) +
              if v.prefixTaps == [] then more
              else ValuesOf(Owed(v.prefixTaps, 2, x + more, first, first + |x|, first + |x + more|))
  {
    hide Owed;
    if v.prefixTaps != [] {
      OwedCausal(v.prefixTaps, 2, x, more, first, first, first + |x|);
      OwedJoins(v.prefixTaps, 2, x + more, first, first, first + |x|, first + |x + more|);
    }
  }

  lemma VectorCausal(v: Variant, codes: seq<int>, more: seq<int>, n: int)
    requires n < |codes|
    ensures Vector(v, codes + more, n) == Vector(v, codes, n)
  {
    hide Conv, RoundRatioEven;
    forall k | 0 <= k < |v.bandTaps|
      ensures Conv(v.bandTaps[k], codes + more, n, |v.bandTaps[k]|) == Conv(v.bandTaps[k], codes, n, |v.bandTaps[k]|)
    {
      ConvCausal(v.bandTaps[k], codes, more, n, |v.bandTaps[k]|);
    }
  }

  lemma VectorsCausal(v: Variant, codes: seq<int>, more: seq<int>, bankFirst: nat, a: nat, b: nat)
    requires b <= bankFirst + |codes|
    ensures Vectors(v, codes + more, bankFirst, a, b) == Vectors(v, codes, bankFirst, a, b)
  {
    hide Vector;
    var x, y := Vectors(v, codes + more, bankFirst, a, b), Vectors(v, codes, bankFirst, a, b);
    forall i | 0 <= i < |x| ensures x[i] == y[i] {
      VectorCausal(v, codes, more, a + i - bankFirst);
    }
  }

  /** A block whose samples are all there stays the same. */
  lemma BlockCausal(v: Variant, x: seq<int>, more: seq<int>, first: nat, k: nat)
    requires v.Valid() && Cut(v, first, k + 1) <= BankNext(v, first + |x|)
    ensures BlockAt(v, x + more, first, k) == BlockAt(v, x, first, k)
  {
    hide Vectors, BankCodes, Settled, BlockOf, Cut, ToSource;
    BankCodesGrow(v, x, more, first);
    BankCodesCount(v, x, first);
    BankCodesCount(v, x + more, first);
    var a := Cut(v, first, k);
    CutLaws(v, first, k);
    var codes := BankCodes(v, x, first);
    VectorsCausal(v, codes, BankCodes(v, x + more, first)[|codes|..], BankFirst(v, first), a, a + v.blockSamples);
    assert BankCodes(v, x + more, first) == codes + BankCodes(v, x + more, first)[|codes|..];
  }

  // ------------------------------------------------------------------------- the bank

  /** Rows i at bank index bankStart + i that are past settling. */
  function Keep(rows: seq<seq<int>>, bankStart: nat, settled: nat): seq<seq<int>> {
    if bankStart + |rows| <= settled then [] else if bankStart >= settled then rows else rows[settled - bankStart..]
  }

  /** Settled rows for bank indices up to `end`, from `a` on if that is later than settling. */
  lemma KeptRows(v: Variant, codes: seq<int>, bankFirst: nat, bankStart: nat, end: nat, settled: nat)
    requires bankStart <= end
    ensures Keep(Vectors(v, codes, bankFirst, bankStart, end), bankStart, settled)
         == Vectors(v, codes, bankFirst, if bankStart < settled then settled else bankStart, end)
  {
    hide Vector;
  }

  /** Samples at even indices, halved. */
  lemma {:induction false} OwedTwo(taps: seq<int>, x: seq<int>, first: nat, from: nat, end: nat, i: nat)
    requires from <= end && i < |Owed(taps, 2, x, first, from, end)|
    ensures var out := Owed(taps, 2, x, first, from, end)[i];
            out.index == 2 * ((from + 1) / 2 + i) && out.valid == (out.index - first >= |taps| - 1)
    decreases end
  {
    hide Conv, RoundRatioEven;
    if from < end {
      OwedCount(taps, x, first, from, end - 1);
      if i < |Owed(taps, 2, x, first, from, end - 1)| { OwedTwo(taps, x, first, from, end - 1, i); }
    }
  }

  /** Rows so far, then the newly settled ones. */
  lemma RowsJoin(v: Variant, codes: seq<int>, more: seq<int>, bankFirst: nat, cut: nat, settled: nat)
    requires var next := bankFirst + |codes|; cut == settled || settled <= cut <= next
    ensures var next, end := bankFirst + |codes|, bankFirst + |codes| + |more|;
            Vectors(v, codes, bankFirst, cut, next) +
            Vectors(v, codes + more, bankFirst, if next < settled then settled else next, end)
              == Vectors(v, codes + more, bankFirst, cut, end)
  {
    hide Vector;
    VectorsCausal(v, codes, more, bankFirst, cut, bankFirst + |codes|);
  }

  lemma EnergySplits(rows: seq<seq<int>>, band: nat, a: nat, b: nat, c: nat)
    requires a <= b <= c <= |rows| && forall i :: 0 <= i < |rows| ==> band < |rows[i]|
    ensures Energy(rows, band, a, b) + Energy(rows, band, b, c) == Energy(rows, band, a, c)
    decreases c
  {
    hide Square;
    if b < c { EnergySplits(rows, band, a, b, c - 1); }
  }

  /** One sample's energy is its square, so over any stretch the energy is the sum of the squares. */
  lemma EnergyOfOne(rows: seq<seq<int>>, band: nat, i: nat)
    requires i < |rows| && forall i :: 0 <= i < |rows| ==> band < |rows[i]|
    ensures Energy(rows, band, i, i + 1) == rows[i][band] * rows[i][band]
  {
    assert Energy(rows, band, i, i) == 0;
    if rows[i][band] < 0 { assert -rows[i][band] * -rows[i][band] == rows[i][band] * rows[i][band]; }
  }

  lemma EnergyZero(rows: seq<seq<int>>, band: nat, a: nat, b: nat)
    requires a <= b <= |rows| && forall i :: 0 <= i < |rows| ==> band < |rows[i]|
    ensures Energy(rows, band, a, b) == 0 <==> forall i :: a <= i < b ==> rows[i][band] == 0
    decreases b
  {
    hide Square;
    if a < b {
      EnergyZero(rows, band, a, b - 1);
      SquareZero(rows[b - 1][band]);
    }
  }

  lemma SquareZero(x: int)
    ensures Square(x) == 0 <==> x == 0
  {
    if x != 0 { assert Abs(x) * Abs(x) >= Abs(x); }
  }

  lemma SumsAdd(rows: seq<seq<int>>, a: nat, b: nat, c: nat, band: nat)
    requires a <= b <= c <= |rows| && Rectangular(rows) && band < BANDS
    ensures Sums(rows, a, b)[band] + Sums(rows, b, c)[band] == Sums(rows, a, c)[band]
  {
    hide Energy;
    EnergySplits(rows, band, a, b, c);
  }

  lemma SumsNone(rows: seq<seq<int>>, band: nat)
    requires Rectangular(rows) && band < BANDS
    ensures Sums(rows, 0, 0)[band] == 0
  {
  }

  /** The block's sums as the source takes them: fragment by fragment, then over the fragments. */
  method MakeBlock(rows: seq<seq<int>>, start: nat, end: nat) returns (block: Block)
    requires |rows| % 8 == 0 && Rectangular(rows) && end == start + SPAN
    ensures block == BlockOf(rows, start)
  {
    hide Sums, Edge, Rectangular;
    var fragments: seq<seq<nat>> := [];
    var energies := seq(BANDS, band => 0);
    EdgeLaws(|rows|, 0);
    forall band | 0 <= band < BANDS ensures energies[band] == Sums(rows, 0, 0)[band] { SumsNone(rows, band); }
    for j := 0 to 8
      invariant |fragments| == j && |energies| == BANDS && Edge(|rows|, j) <= |rows|
      invariant forall i :: 0 <= i < j ==> fragments[i] == BlockOf(rows, start).fragments[i]
      invariant energies == Sums(rows, 0, Edge(|rows|, j))
    {
      EdgeLaws(|rows|, j);
      var row := Sums(rows, Edge(|rows|, j), Edge(|rows|, j + 1));
      forall band | 0 <= band < BANDS
        ensures energies[band] + row[band] == Sums(rows, 0, Edge(|rows|, j + 1))[band]
      {
        SumsAdd(rows, 0, Edge(|rows|, j), Edge(|rows|, j + 1), band);
      }
      energies := seq(BANDS, band requires 0 <= band < BANDS => energies[band] + row[band]);
      fragments := fragments + [row];
    }
    block := Block(start, end, energies, fragments);
  }

  lemma BlocksCausal(v: Variant, x: seq<int>, more: seq<int>, first: nat, a: nat, b: nat)
    requires v.Valid() && (b > 0 ==> Cut(v, first, b) <= BankNext(v, first + |x|))
    ensures BlocksFrom(v, x + more, first, a, b) == BlocksFrom(v, x, first, a, b)
  {
    hide BlockAt;
    var p, q := BlocksFrom(v, x + more, first, a, b), BlocksFrom(v, x, first, a, b);
    forall i | 0 <= i < |p| ensures p[i] == q[i] {
      CutGrows(v, first, a + i + 1, b);
      BlockCausal(v, x, more, first, a + i);
    }
  }

  lemma CutGrows(v: Variant, first: nat, a: nat, b: nat)
    requires v.Valid() && a <= b
    ensures Cut(v, first, a) <= Cut(v, first, b)
  {
  }

  /** A filter that has consumed exactly `codes` since its reset, the first at index `first`. */
  ghost predicate Fed(f: FixedFirDecimator, taps: seq<int>, factor: nat, bits: nat, codes: seq<int>, first: nat)
    reads f
  {
    && f.Valid() && f.taps == taps && f.factor == factor && f.inputBits == bits
    && f.stream == codes && (codes != [] ==> f.firstIndex == At(first))
  }

  /** Every code is a word of that many bits. */
  ghost predicate Words(codes: seq<int>, bits: nat) {
    bits > 0 && forall k :: 0 <= k < |codes| ==> 0 - Pow2(bits - 1) <= codes[k] < Pow2(bits - 1)
  }

  /** process() of a fed filter accepts the next codes, and answers as owed. */
  method Continue(f: FixedFirDecimator, ghost taps: seq<int>, ghost factor: nat, ghost bits: nat,
                  ghost before: seq<int>, ghost first: nat,
                  codes: seq<int>, start: nat) returns (outs: seq<Out>)
    requires Fed(f, taps, factor, bits, before, first) && codes != [] && Words(codes, bits)
    requires start == first + |before| && start + |codes| <= MAX_SAMPLE_INDEX && |codes| <= MAX_PROCESS_SAMPLES
    modifies f
    ensures Fed(f, taps, factor, bits, before + codes, first)
    ensures factor > 0 && outs == Owed(taps, factor, before + codes, first, start, start + |codes|)
    ensures forall k :: 0 <= k < |outs| ==> Abs(outs[k].value) < Pow2(f.outputBits - 1)
  {
    hide Owed, Pow2, Certified, IsWindow, Within, Palindrome;
    var ok;
    ok, outs := f.Process(codes, start);
    assert ok;
  }

  method Forget(f: FixedFirDecimator, ghost taps: seq<int>, ghost factor: nat, ghost bits: nat, ghost before: seq<int>,
                ghost first: nat)
    requires Fed(f, taps, factor, bits, before, first)
    modifies f
    ensures Fed(f, taps, factor, bits, [], 0)
  {
    f.Reset();
  }

  /** Without decimation there is one output a sample. */
  lemma {:induction false} OwedEach(taps: seq<int>, x: seq<int>, first: nat, from: nat, end: nat)
    requires from <= end
    ensures var outs := Owed(taps, 1, x, first, from, end);
            |outs| == end - from && forall i :: 0 <= i < |outs| ==>
              outs[i] == Out(RoundRatioEven(Conv(taps, x, from + i - first, |taps|), ONE), from + i,
                             from + i - first >= |taps| - 1)
    decreases end
  {
    hide Conv, RoundRatioEven;
    if from < end { OwedEach(taps, x, first, from, end - 1); }
  }

  class Bank {
    const v: Variant
    const inputBits: nat
    const prefix: FixedFirDecimator?
    const filters: seq<FixedFirDecimator>
    ghost var source: seq<int>    // what the first stage has consumed since the reset
    ghost var bankCodes: seq<int> // what the band filters have
    ghost var firstIndex: nat
    var nextIndex: Index
    var prefixValidAfter: Index
    var buffer: seq<seq<int>>
    var indices: seq<nat>
    var pending: seq<Block>
    ghost var made: nat        // blocks cut so far

    /** Width of the band filters' input words. */
    function BankBits(): nat {
      if prefix == null then inputBits else prefix.outputBits
    }

    ghost predicate Distinct() {
      && |filters| == BANDS && (prefix == null <==> v.prefixTaps == []) && prefix !in filters
      && forall i, j :: 0 <= i < j < BANDS ==> filters[i] != filters[j]
    }

    ghost predicate PrefixFed()
      reads `source, `firstIndex, prefix
    {
      prefix != null ==> Fed(prefix, v.prefixTaps, 2, inputBits, source, firstIndex)
    }

    ghost predicate BandFed(k: nat, codes: seq<int>, first: nat)
      requires k < |filters|
      reads filters
    {
      k < |v.bandTaps| && Fed(filters[k], v.bandTaps[k], 1, BankBits(), codes, first)
    }

    /** Every band filter has consumed what the prefix has put out. */
    ghost predicate BandsFed()
      reads `bankCodes, `firstIndex, filters
    {
      Distinct() && forall k :: 0 <= k < BANDS ==> BandFed(k, bankCodes, BankFirst(v, firstIndex))
    }

    /** The settled rows not yet in a block. */
    ghost predicate Buffered()
      reads `firstIndex, `bankCodes, `buffer, `indices, `made
    {
      && v.Valid()
      && var cut, next := Cut(v, firstIndex, made), BankFirst(v, firstIndex) + |bankCodes|;
      && (made == 0 || cut <= next)
      && buffer == Vectors(v, bankCodes, BankFirst(v, firstIndex), cut, next)
      && |indices| == |buffer| && forall i :: 0 <= i < |indices| ==> indices[i] == cut + i
    }

    /** Where the prefix filter's first full window ended, once there is one. */
    ghost predicate PrefixKnown()
      reads `prefixValidAfter, `firstIndex, `source
    {
      v.prefixTaps != [] ==>
        prefixValidAfter == if BankNext(v, firstIndex + |source|) > (firstIndex + |v.prefixTaps|) / 2
                            then At((firstIndex + |v.prefixTaps|) / 2) else None
    }

    /** The blocks cut and not yet ripe. */
    ghost predicate Waiting(at: nat)
      requires v.Valid()
      reads `firstIndex, `made, `source, `pending
    {
      && Ripe(v, firstIndex, at) <= made
      && (made == 0 || Cut(v, firstIndex, made) <= BankNext(v, firstIndex + |source|))
      && pending == BlocksFrom(v, source, firstIndex, Ripe(v, firstIndex, at), made)
    }

    ghost predicate Valid()
      reads this, prefix, filters
    {
      && PrefixFed() && BandsFed()
      && Buffered() && |buffer| < v.blockSamples && PrefixKnown() && Waiting(firstIndex + |source|)
      && bankCodes == BankCodes(v, source, firstIndex)
      && nextIndex == if source == [] then None else At(firstIndex + |source|)
    }

    /** Around filters the FIR's own constructor has accepted. */
    constructor (v: Variant, inputBits: nat, prefix: FixedFirDecimator?, filters: seq<FixedFirDecimator>)
      requires v.Valid() && |filters| == BANDS && (prefix == null <==> v.prefixTaps == []) && prefix !in filters
      requires forall i, j :: 0 <= i < j < BANDS ==> filters[i] != filters[j]
      requires prefix != null ==> Fed(prefix, v.prefixTaps, 2, inputBits, [], 0)
      requires forall k :: 0 <= k < BANDS ==>
                 Fed(filters[k], v.bandTaps[k], 1, if prefix == null then inputBits else prefix.outputBits, [], 0)
      ensures Valid() && source == [] && this.v == v && this.inputBits == inputBits
      ensures this.prefix == prefix && this.filters == filters
    {
      hide Fed, Buffered, PrefixKnown, Waiting;
      this.v, this.inputBits, this.prefix, this.filters := v, inputBits, prefix, filters;
      source, bankCodes, firstIndex, nextIndex, prefixValidAfter := [], [], 0, None, None;
      buffer, indices, pending, made := [], [], [], 0;
      new;
      Empty();
    }

    /** Every filter and the bank forget their stream. */
    method Reset()
      requires Valid()
      modifies this, prefix, filters
      ensures Valid() && source == []
    {
      hide Fed, Cut, Vectors, Settled, Buffered, PrefixKnown, Waiting, BankCodes, BandFed;
      ValidVariant();
      if prefix != null { Forget(prefix, v.prefixTaps, 2, inputBits, source, firstIndex); }
      ForgetBands();
      Clear();
    }

    method Clear()
      requires v.Valid() && Distinct() && (prefix != null ==> Fed(prefix, v.prefixTaps, 2, inputBits, [], 0))
      requires forall k :: 0 <= k < BANDS ==> BandFed(k, [], 0)
      modifies this
      ensures Valid() && source == []
    {
      hide Fed, Cut, Vectors, Settled, Buffered, PrefixKnown, Waiting, BankCodes, BandFed;
      source, bankCodes, firstIndex, nextIndex, prefixValidAfter := [], [], 0, None, None;
      buffer, indices, pending, made := [], [], [], 0;
      Empty();
    }

    lemma Empty()
      requires v.Valid() && made == firstIndex == 0 && source == bankCodes == []
      requires buffer == [] && indices == [] && pending == []
      requires prefixValidAfter == None && nextIndex == None
      ensures Buffered() && PrefixKnown() && Waiting(0) && |buffer| < v.blockSamples
      ensures bankCodes == BankCodes(v, source, firstIndex)
    {
      NothingYet(v, 0);
    }

    method ForgetBands()
      requires BandsFed()
      modifies filters
      ensures forall k :: 0 <= k < BANDS ==> BandFed(k, [], 0)
    {
      hide Fed;
      ghost var codes, first := bankCodes, BankFirst(v, firstIndex);
      forall k | 0 <= k < BANDS
        ensures k < |v.bandTaps| && Fed(filters[k], v.bandTaps[k], 1, BankBits(), codes, first)
      {
        assert BandFed(k, codes, first);
      }
      for k := 0 to BANDS
        invariant forall j :: 0 <= j < k ==> Fed(filters[j], v.bandTaps[j], 1, BankBits(), [], 0)
        invariant forall j :: k <= j < BANDS ==> Fed(filters[j], v.bandTaps[j], 1, BankBits(), codes, first)
      {
        Forget(filters[k], v.bandTaps[k], 1, BankBits(), codes, first);
      }
    }

    /** What process() accepts: continuous codes in the declared domain. */
    ghost predicate Accepts(codes: seq<int>, start: nat)
      reads this
    {
      && inputBits > 0 && |codes| <= MAX_PROCESS_SAMPLES && start + |codes| <= MAX_SAMPLE_INDEX
      && (forall k :: 0 <= k < |codes| ==> 0 - Pow2(inputBits - 1) <= codes[k] < Pow2(inputBits - 1))
      && (nextIndex == None || nextIndex == At(start))
    }

    method Admissible(codes: seq<int>, start: nat) returns (ok: bool)
      ensures ok == Accepts(codes, start)
    {
      if inputBits == 0 || |codes| > MAX_PROCESS_SAMPLES { return false; }
      for k := 0 to |codes|
        invariant forall j :: 0 <= j < k ==> 0 - Pow2(inputBits - 1) <= codes[j] < Pow2(inputBits - 1)
      {
        if !(0 - Pow2(inputBits - 1) <= codes[k] < Pow2(inputBits - 1)) { return false; }
      }
      ok := start + |codes| <= MAX_SAMPLE_INDEX && (nextIndex == None || nextIndex == At(start));
    }

    /** The decimating prefix, or none: the bank's new codes and where they start. */
    method FeedPrefix(codes: seq<int>, start: nat) returns (bankNew: seq<int>, bankStart: nat)
      requires v.Valid() && Distinct() && PrefixFed() && PrefixKnown() && start == firstIndex + |source| && codes != []
      requires Words(codes, inputBits) && start + |codes| <= MAX_SAMPLE_INDEX && |codes| <= MAX_PROCESS_SAMPLES
      modifies `source, `prefixValidAfter, prefix
      ensures source == old(source) + codes && PrefixFed() && PrefixKnown()
      ensures BankCodes(v, source, firstIndex) == BankCodes(v, old(source), firstIndex) + bankNew
      ensures bankNew != [] ==> bankStart == BankNext(v, start)
      ensures Words(bankNew, BankBits()) && |bankNew| <= |codes|
    {
      hide BankCodes, Owed, Fed, Pow2;
      BankCodesGrow(v, source, codes, firstIndex);
      ghost var before := source;
      bankNew, bankStart := codes, start;
      source := source + codes;
      if prefix != null {
        var prefixed := Continue(prefix, v.prefixTaps, 2, inputBits, before, firstIndex, codes, start);
        OwedCount(v.prefixTaps, source, firstIndex, start, start + |codes|);
        bankNew := ValuesOf(prefixed);
        FedBits(prefix, v.prefixTaps, 2, inputBits, source, firstIndex);
        if bankNew != [] {
          OwedTwo(v.prefixTaps, source, firstIndex, start, start + |codes|, 0);
          bankStart := prefixed[0].index / 2;
          NoteFirstValid(prefixed, start, |codes|);
        }
      }
    }

    static lemma FedBits(f: FixedFirDecimator, taps: seq<int>, factor: nat, bits: nat, codes: seq<int>, first: nat)
      requires Fed(f, taps, factor, bits, codes, first)
      ensures f.outputBits > 0
    {
    }

    /** The first fully fed prefix output, remembered once. */
    method NoteFirstValid(prefixed: seq<Out>, start: nat, n: nat)
      requires v.Valid() && v.prefixTaps != [] && start + n == firstIndex + |source| && start >= firstIndex
      requires prefixed == Owed(v.prefixTaps, 2, source, firstIndex, start, start + n)
      requires prefixValidAfter == if BankNext(v, start) > (firstIndex + |v.prefixTaps|) / 2
                                   then At((firstIndex + |v.prefixTaps|) / 2) else None
      modifies `prefixValidAfter
      ensures PrefixKnown()
    {
      hide Owed;
      OwedCount(v.prefixTaps, source, firstIndex, start, start + n);
      var i := 0;
      while i < |prefixed| && !prefixed[i].valid
        invariant 0 <= i <= |prefixed| && prefixValidAfter == old(prefixValidAfter)
        invariant i > 0 ==> prefixed[i - 1].index == 2 * ((start + 1) / 2 + i - 1) && !prefixed[i - 1].valid
                            && prefixed[i - 1].index - firstIndex < |v.prefixTaps| - 1
      {
        OwedTwo(v.prefixTaps, source, firstIndex, start, start + n, i);
        i := i + 1;
      }
      if i < |prefixed| {
        OwedTwo(v.prefixTaps, source, firstIndex, start, start + n, i);
        ghost var b, at := (start + 1) / 2 + i, (firstIndex + |v.prefixTaps|) / 2;
        assert 2 * b - firstIndex >= |v.prefixTaps| - 1 && b >= at && b < BankNext(v, start + n);
        assert prefixValidAfter == None ==> b == at;
        if prefixValidAfter == None { prefixValidAfter := At(prefixed[i].index / 2); }
      }
    }

    /** The six filters over the bank's new codes; settled rows join the buffer. */
    method FeedBank(bankNew: seq<int>, bankStart: nat)
      requires BandsFed() && Buffered() && PrefixKnown() && bankNew != []
      requires bankStart == BankFirst(v, firstIndex) + |bankCodes|
      requires bankStart + |bankNew| == BankNext(v, firstIndex + |source|)
      requires Words(bankNew, BankBits()) && bankStart + |bankNew| <= MAX_SAMPLE_INDEX
      requires |bankNew| <= MAX_PROCESS_SAMPLES
      modifies `bankCodes, `buffer, `indices, filters
      ensures BandsFed() && Buffered() && bankCodes == old(bankCodes) + bankNew
    {
      hide Vectors, Vector, Settled, Cut, BankFirst, BankNext, Keep, BandFed, Owed, Words, PrefixKnown;
      CutStarts(v, firstIndex, made);
      ghost var first, settled := BankFirst(v, firstIndex), Settled(v, firstIndex);
      RowsJoin(v, bankCodes, bankNew, first, Cut(v, firstIndex, made), settled);
      KeptRows(v, bankCodes + bankNew, first, bankStart, bankStart + |bankNew|, settled);
      var outs := RunFilters(bankNew, bankStart);
      OwedEach(v.bandTaps[0], bankCodes, first, bankStart, bankStart + |bankNew|);
      var rows := Columns(outs, bankStart, |bankNew|);
      var kept, at := SelectValid(rows, outs[0], bankStart);
      buffer := buffer + kept;
      indices := indices + at;
    }

    /** process() of each band filter on the same codes. */
    method RunFilters(bankNew: seq<int>, bankStart: nat) returns (outs: seq<seq<Out>>)
      requires BandsFed() && v.Valid() && bankNew != [] && bankStart == BankFirst(v, firstIndex) + |bankCodes|
      requires Words(bankNew, BankBits()) && bankStart + |bankNew| <= MAX_SAMPLE_INDEX
      requires |bankNew| <= MAX_PROCESS_SAMPLES
      modifies `bankCodes, filters
      ensures BandsFed() && bankCodes == old(bankCodes) + bankNew
      ensures |outs| == BANDS
      ensures forall k :: 0 <= k < BANDS ==>
                outs[k] == Owed(v.bandTaps[k], 1, bankCodes, BankFirst(v, firstIndex), bankStart, bankStart + |bankNew|)
    {
      hide Fed, Owed, Words, BankFirst, Pow2;
      outs := [];
      ghost var before, first := bankCodes, BankFirst(v, firstIndex);
      forall k | 0 <= k < BANDS ensures Fed(filters[k], v.bandTaps[k], 1, BankBits(), before, first) {
        assert BandFed(k, before, first);
      }
      bankCodes := bankCodes + bankNew;
      for k := 0 to BANDS
        invariant |outs| == k && bankCodes == before + bankNew
        invariant forall j :: 0 <= j < k ==> Fed(filters[j], v.bandTaps[j], 1, BankBits(), bankCodes, first)
        invariant forall j :: k <= j < BANDS ==> Fed(filters[j], v.bandTaps[j], 1, BankBits(), before, first)
        invariant forall j :: 0 <= j < k ==>
                    outs[j] == Owed(v.bandTaps[j], 1, bankCodes, first, bankStart, bankStart + |bankNew|)
      {
        var out := Continue(filters[k], v.bandTaps[k], 1, BankBits(), before, first, bankNew, bankStart);
        outs := outs + [out];
      }
    }

    /** The outputs of the six filters side by side. */
    method Columns(outs: seq<seq<Out>>, bankStart: nat, n: nat) returns (rows: seq<seq<int>>)
      requires v.Valid() && |outs| == BANDS && bankStart >= BankFirst(v, firstIndex)
      requires forall k :: 0 <= k < BANDS ==>
                 outs[k] == Owed(v.bandTaps[k], 1, bankCodes, BankFirst(v, firstIndex), bankStart, bankStart + n)
      ensures rows == Vectors(v, bankCodes, BankFirst(v, firstIndex), bankStart, bankStart + n)
    {
      hide Owed, BankFirst, Conv, RoundRatioEven;
      ghost var first := BankFirst(v, firstIndex);
      forall k | 0 <= k < BANDS
        ensures |outs[k]| == n && forall i :: 0 <= i < n ==>
                  outs[k][i].value ==
                    RoundRatioEven(Conv(v.bandTaps[k], bankCodes, bankStart + i - first, |v.bandTaps[k]|), ONE)
      {
        OwedEach(v.bandTaps[k], bankCodes, first, bankStart, bankStart + n);
      }
      rows := seq(n, i requires 0 <= i < n => seq(BANDS, k requires 0 <= k < BANDS => outs[k][i].value));
      forall i | 0 <= i < n ensures rows[i] == Vector(v, bankCodes, bankStart + i - first) {
        assert |rows[i]| == BANDS;
      }
    }

    /** The validity mask: six full windows, and a full prefix window behind each code. */
    method SelectValid(rows: seq<seq<int>>, outs: seq<Out>, bankStart: nat) returns (kept: seq<seq<int>>, at: seq<nat>)
      requires v.Valid() && Distinct() && PrefixKnown() && bankStart + |rows| == BankNext(v, firstIndex + |source|)
      requires bankStart >= BankFirst(v, firstIndex) && |outs| == |rows|
      requires forall i :: 0 <= i < |outs| ==>
                 outs[i].index == bankStart + i &&
                 outs[i].valid == (bankStart + i - BankFirst(v, firstIndex) >= v.Length() - 1)
      ensures kept == Keep(rows, bankStart, Settled(v, firstIndex)) && |at| == |kept|
      ensures forall i :: 0 <= i < |at| ==> at[i] == bankStart + |rows| - |at| + i
    {
      kept, at := [], [];
      for i := 0 to |rows|
        invariant kept == Keep(rows[..i], bankStart, Settled(v, firstIndex)) && |at| == |kept|
        invariant forall j :: 0 <= j < |at| ==> at[j] == bankStart + i - |at| + j
      {
        var index, valid := outs[i].index, outs[i].valid;
        if prefix != null {
          valid := valid && prefixValidAfter.At? && index >= prefixValidAfter.index + v.Length() - 1;
        }
        assert valid <==> index >= Settled(v, firstIndex);
        assert rows[..i + 1] == rows[..i] + [rows[i]];
        if valid {
          kept, at := kept + [rows[i]], at + [index];
        }
      }
      assert rows[..|rows|] == rows;
    }

    /** Whole blocks leave the buffer for the pending list. */
    method CutBlocks(ghost at: nat)
      requires Buffered() && bankCodes == BankCodes(v, source, firstIndex) && Waiting(at)
      modifies `buffer, `indices, `pending, `made
      ensures Buffered() && |buffer| < v.blockSamples && Waiting(at)
    {
      hide Vectors, Settled, Ripe;
      while |buffer| >= v.blockSamples
        invariant Buffered() && Waiting(at)
        decreases |buffer|
      {
        CutOne(at);
      }
    }

    method CutOne(ghost at: nat)
      requires Buffered() && bankCodes == BankCodes(v, source, firstIndex) && Waiting(at)
      requires |buffer| >= v.blockSamples
      modifies `buffer, `indices, `pending, `made
      ensures Buffered() && Waiting(at) && |buffer| < old(|buffer|)
    {
      hide Vectors, Settled, Ripe, BankCodes, BlockOf, Cut, ToSource;
      ghost var first, size := BankFirst(v, firstIndex), v.blockSamples;
      CutLaws(v, firstIndex, made);
      BankCodesCount(v, source, firstIndex);
      RowsSplit(v, bankCodes, first, Cut(v, firstIndex, made), size, first + |bankCodes|);
      VectorsRectangular(v, bankCodes, first, Cut(v, firstIndex, made), Cut(v, firstIndex, made) + size);
      ToSourceIs(v, indices[0]);
      ToSourceIs(v, indices[v.blockSamples - 1] + 1);
      var block := MakeBlock(buffer[..v.blockSamples], indices[0] * v.decimation,
                             (indices[v.blockSamples - 1] + 1) * v.decimation);
      BlocksNext(v, source, firstIndex, Ripe(v, firstIndex, at), made);
      pending := pending + [block];
      buffer, indices := buffer[v.blockSamples..], indices[v.blockSamples..];
      made := made + 1;
    }

    /** The pending blocks whose span has ended by `end`. */
    method Release(end: nat, ghost at: nat) returns (ready: seq<Block>)
      requires v.Valid() && at <= end && Waiting(at) && Ripe(v, firstIndex, end) <= made
      modifies `pending
      ensures Waiting(end)
      ensures ready == BlocksFrom(v, source, firstIndex, Ripe(v, firstIndex, at), Ripe(v, firstIndex, end))
    {
      hide BlockAt, Ripe, Cut;
      ready := [];
      var rest: seq<Block> := [];
      ghost var a, m, b := Ripe(v, firstIndex, at), Ripe(v, firstIndex, end), made;
      RipeGrows(v, firstIndex, at, end);
      for i := 0 to |pending|
        invariant pending == BlocksFrom(v, source, firstIndex, a, b)
        invariant ready == BlocksFrom(v, source, firstIndex, a, if a + i < m then a + i else m)
        invariant rest == BlocksFrom(v, source, firstIndex, m, a + i)
      {
        RipeIffConsumed(v, source, firstIndex, end, a + i);
        if pending[i].end <= end { ready := ready + [pending[i]]; } else { rest := rest + [pending[i]]; }
      }
      pending := rest;
    }

    /** process(): refused input changes nothing; accepted input is answered with the blocks
        whose last source sample is in it. */
    method Process(codes: seq<int>, start: nat) returns (ok: bool, ready: seq<Block>)
      requires Valid()
      modifies this, prefix, filters
      ensures Valid() && ok == old(Accepts(codes, start)) && (!ok ==> unchanged(this) && unchanged(filters))
      ensures !ok && prefix != null ==> unchanged(prefix)
      ensures ok ==> source == old(source) + codes
      ensures ok && (old(source) != [] || codes == []) ==> firstIndex == old(firstIndex)
      ensures ok && old(source) == [] && codes != [] ==> firstIndex == start
      ensures ok ==> ready == BlocksFrom(v, source, firstIndex, Ripe(v, firstIndex, firstIndex + old(|source|)),
                                         Ripe(v, firstIndex, firstIndex + |source|))
    {
      hide Buffered, PrefixKnown, Waiting, BankCodes, Vectors, Ripe, BlockAt, Settled, Cut, Fed, Pow2;
      ready := [];
      ok := Admissible(codes, start);
      ValidVariant();
      if !ok || codes == [] {
        assert source + [] == source;
        return;
      }
      if nextIndex == None { Begin(start); }
      ready := Consume(codes, start);
    }

    /** Filters, blocks, and what of them is ripe. */
    method Consume(codes: seq<int>, start: nat) returns (ready: seq<Block>)
      requires PrefixFed() && BandsFed() && Buffered() && |buffer| < v.blockSamples && PrefixKnown() && Waiting(start)
      requires bankCodes == BankCodes(v, source, firstIndex) && start == firstIndex + |source| && codes != []
      requires Words(codes, inputBits) && start + |codes| <= MAX_SAMPLE_INDEX && |codes| <= MAX_PROCESS_SAMPLES
      modifies this, prefix, filters
      ensures Valid() && source == old(source) + codes && firstIndex == old(firstIndex)
      ensures ready == BlocksFrom(v, source, firstIndex, Ripe(v, firstIndex, start),
                                  Ripe(v, firstIndex, firstIndex + |source|))
    {
      hide Buffered, PrefixKnown, Waiting, BankCodes, Vectors, Ripe, BlockAt, Settled, Cut, BlocksFrom, Fed, Words;
      ValidVariant();
      Feed(codes, start);
      CutBlocks(start);
      NothingRipe(start);
      ready := Release(start + |codes|, start);
      nextIndex := At(start + |codes|);
    }

    /** The first sample of a stream fixes its phase. */
    method Begin(start: nat)
      requires Valid() && source == []
      modifies `firstIndex
      ensures firstIndex == start && PrefixFed() && BandsFed() && Buffered()
      ensures |buffer| < v.blockSamples && PrefixKnown() && Waiting(start)
      ensures bankCodes == BankCodes(v, source, firstIndex)
    {
      NothingYet(v, firstIndex);
      NothingYet(v, start);
      NothingMade();
      forall k | 0 <= k < BANDS ensures BandFed(k, [], BankFirst(v, start)) {
        assert BandFed(k, bankCodes, BankFirst(v, firstIndex));
      }
      firstIndex := start;
    }

    lemma NothingMade()
      requires Valid() && source == []
      ensures made == 0 && buffer == [] && bankCodes == [] && pending == []
    {
      NothingYet(v, firstIndex);
      CutLaws(v, firstIndex, made);
    }

    /** Both filter stages over the new codes. */
    method Feed(codes: seq<int>, start: nat)
      requires PrefixFed() && BandsFed() && Buffered() && PrefixKnown() && Waiting(start)
      requires bankCodes == BankCodes(v, source, firstIndex) && start == firstIndex + |source| && codes != []
      requires Words(codes, inputBits) && start + |codes| <= MAX_SAMPLE_INDEX && |codes| <= MAX_PROCESS_SAMPLES
      modifies `source, `prefixValidAfter, `bankCodes, `buffer, `indices, prefix, filters
      ensures PrefixFed() && BandsFed() && source == old(source) + codes
      ensures Buffered() && PrefixKnown() && Waiting(start)
      ensures bankCodes == BankCodes(v, source, firstIndex)
    {
      hide Buffered, BankCodes, Ripe, BlockAt, Cut, BankFirst, Fed, Words;
      ValidVariant();
      BankCodesCount(v, source, firstIndex);
      BankCodesCount(v, source + codes, firstIndex);
      BlocksCausal(v, source, codes, firstIndex, Ripe(v, firstIndex, start), made);
      var bankNew, bankStart := FeedPrefix(codes, start);
      if bankNew != [] {
        FeedBank(bankNew, bankStart);
      } else {
        assert bankCodes + bankNew == bankCodes;
      }
    }

    lemma ValidVariant()
      requires Buffered()
      ensures v.Valid()
    {
    }

    /** The certificate of the constructor: no band's energy over a block leaves an int64. */
    lemma EnergiesFit(k: nat, band: nat)
      requires Valid() && band < BANDS && PowerFits(filters[band].outputBits, v.blockSamples)
      ensures BlockAt(v, source, firstIndex, k).energies[band] < Pow2(63)
    {
      hide Buffered, PrefixKnown, Waiting, Fed, BlockAt, Vectors, PowerFits;
      ValidVariant();
      assert BandFed(band, bankCodes, BankFirst(v, firstIndex));
      FedCertifies(filters[band], v.bandTaps[band], 1, BankBits(), bankCodes, BankFirst(v, firstIndex));
      BlockEnergyFits(v, source, firstIndex, k, band, BankBits(), filters[band].outputBits);
    }

    /** With less than a block buffered, whatever is ripe has been cut. */
    lemma NothingRipe(at: nat)
      requires Buffered() && |buffer| < v.blockSamples && bankCodes == BankCodes(v, source, firstIndex)
      ensures Ripe(v, firstIndex, firstIndex + |source|) <= made
    {
      hide BankCodes, Vectors;
      BankCodesCount(v, source, firstIndex);
      CutLaws(v, firstIndex, made);
      RipeIsCut(v, firstIndex, made, firstIndex + |source|);
    }
  }

  lemma FedCertifies(f: FixedFirDecimator, taps: seq<int>, factor: nat, bits: nat, codes: seq<int>, first: nat)
    requires Fed(f, taps, factor, bits, codes, first)
    ensures bits > 0 && f.outputBits > 0 && Within(codes, Pow2(bits - 1))
    ensures RoundShiftEven(Bound(taps, bits), FRACTION_BITS) < Pow2(f.outputBits - 1)
  {
  }

  function Power(m: nat, n: nat): nat { m * m * n }

  /** The bound the constructor checks. */
  predicate PowerFits(outputBits: nat, blockSamples: nat) {
    outputBits > 0 && Power(Pow2(outputBits - 1), blockSamples) < Pow2(63)
  }

  lemma SquareFits(x: int, m: nat, n: nat)
    requires Abs(x) <= m
    ensures Power(m, n) + Square(x) <= Power(m, n + 1) && Power(m, 0) == 0
  {
    assert m * m * (n + 1) == m * m * n + m * m;
    assert Abs(x) * Abs(x) <= m * m by { assert Abs(x) * (m - Abs(x)) >= 0 && m * (m - Abs(x)) >= 0; }
  }

  lemma {:induction false} EnergyFits(rows: seq<seq<int>>, band: nat, m: nat, n: nat)
    requires n <= |rows| && forall i :: 0 <= i < |rows| ==> band < |rows[i]| && Abs(rows[i][band]) <= m
    ensures Energy(rows, band, 0, n) <= Power(m, n)
  {
    hide Square, Power;
    SquareFits(0, m, 0);
    if n > 0 {
      EnergyFits(rows, band, m, n - 1);
      SquareFits(rows[n - 1][band], m, n - 1);
    }
  }

  lemma VectorFits(v: Variant, codes: seq<int>, n: int, band: nat, bits: nat, outputBits: nat)
    requires v.Valid() && band < BANDS && bits > 0 && outputBits > 0 && Within(codes, Pow2(bits - 1))
    requires RoundShiftEven(Bound(v.bandTaps[band], bits), FRACTION_BITS) < Pow2(outputBits - 1)
    ensures Abs(Vector(v, codes, n)[band]) <= Pow2(outputBits - 1)
  {
    hide Conv, Within, Pow2, RoundShiftEven, RoundRatioEven, Bound;
    var taps := v.bandTaps[band];
    ConvWithin(taps, codes, n, Pow2(bits - 1), |taps|);
    BoundIs(taps, bits);
    RoundShiftWithin(Conv(taps, codes, n, |taps|), Bound(taps, bits));
  }

  lemma BlockEnergyFits(v: Variant, x: seq<int>, first: nat, k: nat, band: nat, bits: nat, outputBits: nat)
    requires v.Valid() && band < BANDS && bits > 0 && PowerFits(outputBits, v.blockSamples)
    requires Within(BankCodes(v, x, first), Pow2(bits - 1))
    requires RoundShiftEven(Bound(v.bandTaps[band], bits), FRACTION_BITS) < Pow2(outputBits - 1)
    ensures BlockAt(v, x, first, k).energies[band] < Pow2(63)
  {
    hide BankCodes, Within, Bound, RoundShiftEven, Vector, Cut, Power, Energy, Pow2;
    var codes, bankFirst, a := BankCodes(v, x, first), BankFirst(v, first), Cut(v, first, k);
    var rows := Vectors(v, codes, bankFirst, a, a + v.blockSamples);
    VectorsRectangular(v, codes, bankFirst, a, a + v.blockSamples);
    forall i | 0 <= i < |rows| ensures Abs(rows[i][band]) <= Pow2(outputBits - 1) {
      VectorFits(v, codes, a + i - bankFirst, band, bits, outputBits);
    }
    EnergyFits(rows, band, Pow2(outputBits - 1), |rows|);
  }

  /** What the constructor of the bank accepts, for taps already quantized. */
  ghost predicate CanBuild(v: Variant, inputBits: nat)
    requires v.Valid()
  {
    && (v.prefixTaps != [] ==> Accepted(v.prefixTaps, 2, inputBits, 64, Least))
    && var bits := if v.prefixTaps == [] then inputBits else OutputWidth(v.prefixTaps, inputBits, Least);
       && (forall k :: 0 <= k < BANDS ==> Accepted(v.bandTaps[k], 1, bits, 64, Least))
       && forall k :: 0 <= k < BANDS ==> PowerFits(OutputWidth(v.bandTaps[k], bits, Least), v.blockSamples)
  }

  /** The constructor: filters, then the power bounds; null where it raises. */
  method BuildBank(v: Variant, inputBits: nat) returns (bank: Bank?)
    requires v.Valid()
    ensures bank != null <==> CanBuild(v, inputBits)
    ensures bank != null ==>
              fresh(bank) && bank.Valid() && bank.source == [] && bank.v == v && bank.inputBits == inputBits
    ensures bank != null ==> forall k :: 0 <= k < BANDS ==> PowerFits(bank.filters[k].outputBits, v.blockSamples)
  {
    hide Accepted, OutputWidth, PowerFits, FixedFirDecimator.Valid;
    var prefix: FixedFirDecimator?, bits := null, inputBits;
    if v.prefixTaps != [] {
      prefix := BuildFed(v.prefixTaps, 2, inputBits);
      if prefix == null { return null; }
      bits := prefix.outputBits;
    }
    var ok, filters := BuildBands(v, bits);
    if !ok { return null; }
    var fits := CheckPowers(filters, v.blockSamples);
    if !fits { return null; }
    bank := new Bank(v, inputBits, prefix, filters);
  }

  method BuildFed(taps: seq<int>, factor: nat, bits: nat) returns (fir: FixedFirDecimator?)
    ensures fir != null <==> Accepted(taps, factor, bits, 64, Least)
    ensures fir != null ==> fresh(fir) && bits > 0 && Fed(fir, taps, factor, bits, [], 0)
    ensures fir != null ==> fir.outputBits == OutputWidth(taps, bits, Least)
  {
    fir := Build(taps, factor, bits, 64, Least);
  }

  method BuildBands(v: Variant, bits: nat) returns (ok: bool, filters: seq<FixedFirDecimator>)
    requires v.Valid()
    ensures ok <==> forall k :: 0 <= k < BANDS ==> Accepted(v.bandTaps[k], 1, bits, 64, Least)
    ensures ok ==> |filters| == BANDS && bits > 0 && fresh(filters)
    ensures ok ==> forall i, j :: 0 <= i < j < BANDS ==> filters[i] != filters[j]
    ensures ok ==> forall k :: 0 <= k < BANDS ==>
              Fed(filters[k], v.bandTaps[k], 1, bits, [], 0) &&
              filters[k].outputBits == OutputWidth(v.bandTaps[k], bits, Least)
  {
    hide Accepted, OutputWidth, Fed, FixedFirDecimator.Valid;
    filters := [];
    for k := 0 to BANDS
      invariant |filters| == k && fresh(filters) && (k > 0 ==> bits > 0)
      invariant forall i, j :: 0 <= i < j < k ==> filters[i] != filters[j]
      invariant forall j :: 0 <= j < k ==> Accepted(v.bandTaps[j], 1, bits, 64, Least)
      invariant forall j :: 0 <= j < k ==>
                  Fed(filters[j], v.bandTaps[j], 1, bits, [], 0) &&
                  filters[j].outputBits == OutputWidth(v.bandTaps[j], bits, Least)
    {
      var fir := BuildFed(v.bandTaps[k], 1, bits);
      if fir == null { return false, filters; }
      filters := filters + [fir];
    }
    ok := true;
  }

  method CheckPowers(filters: seq<FixedFirDecimator>, blockSamples: nat) returns (fits: bool)
    ensures fits <==> forall k :: 0 <= k < |filters| ==> PowerFits(filters[k].outputBits, blockSamples)
  {
    hide PowerFits;
    for k := 0 to |filters|
      invariant forall j :: 0 <= j < k ==> PowerFits(filters[j].outputBits, blockSamples)
    {
      fits := CheckPower(filters[k].outputBits, blockSamples);
      if !fits { return; }
    }
    fits := true;
  }

  method CheckPower(outputBits: nat, blockSamples: nat) returns (fits: bool)
    ensures fits == PowerFits(outputBits, blockSamples)
  {
    if outputBits == 0 { return false; }
    var largest := Pow2(outputBits - 1);
    fits := largest * largest * blockSamples <= Pow2(63) - 1;
  }

  lemma RipeIsCut(v: Variant, first: nat, made: nat, at: nat)
    requires v.Valid() && BankNext(v, at) < Cut(v, first, made + 1)
    ensures Ripe(v, first, at) <= made
  {
    hide Settled;
    CutLaws(v, first, made + 1);
  }

  lemma BlocksNext(v: Variant, x: seq<int>, first: nat, a: nat, b: nat)
    requires v.Valid() && a <= b
    ensures BlocksFrom(v, x, first, a, b) + [BlockAt(v, x, first, b)] == BlocksFrom(v, x, first, a, b + 1)
  {
    hide BlockAt;
  }

  lemma CutStarts(v: Variant, first: nat, k: nat)
    requires v.Valid()
    ensures Cut(v, first, 0) == Settled(v, first) <= Cut(v, first, k)
  {
  }

  /** The leading block's rows, and the rest. */
  lemma RowsSplit(v: Variant, codes: seq<int>, bankFirst: nat, cut: nat, size: nat, next: nat)
    requires cut + size <= next
    ensures var rows := Vectors(v, codes, bankFirst, cut, next);
            && rows[..size] == Vectors(v, codes, bankFirst, cut, cut + size)
            && rows[size..] == Vectors(v, codes, bankFirst, cut + size, next)
  {
    hide Vector;
  }

  lemma RipeGrows(v: Variant, first: nat, a: nat, b: nat)
    requires v.Valid() && a <= b
    ensures Ripe(v, first, a) <= Ripe(v, first, b)
  {
    hide Settled;
  }

  /** Before the first sample nothing is settled, buffered or ripe. */
  lemma NothingYet(v: Variant, first: nat)
    requires v.Valid()
    ensures BankCodes(v, [], first) == [] && Ripe(v, first, first) == 0
    ensures BankNext(v, first) <= (first + |v.prefixTaps|) / 2 || v.prefixTaps == []
    ensures BankFirst(v, first) <= Cut(v, first, 0) == Settled(v, first)
  {
    BankCodesCount(v, [], first);
  }

  // ------------------------------------------------------------------------ the oracle

  datatype Envelope = Envelope(energyQ999: seq<nat>, activityFloor: seq<nat>)
  {
    predicate Valid() {
      |energyQ999| == BANDS && |activityFloor| == BANDS
    }
  }

  /** Which fragments of a band are above its limit. */
  function Active(fragments: seq<seq<nat>>, band: nat, limit: nat): (r: seq<bool>)
    requires forall j :: 0 <= j < |fragments| ==> band < |fragments[j]|
    ensures |r| == |fragments|
  {
    seq(|fragments|, j requires 0 <= j < |fragments| => fragments[j][band] > limit)
  }

  predicate WellFormed(b: Block) {
    |b.energies| == BANDS && |b.fragments| == 8 && forall j :: 0 <= j < 8 ==> |b.fragments[j]| == BANDS
  }

  /** In how many fragments each band is active. */
  function ActiveFragments(b: Block, env: Envelope, v: Variant): (r: seq<nat>)
    requires WellFormed(b) && env.Valid()
    ensures |r| == BANDS
  {
    seq(BANDS, band requires 0 <= band < BANDS =>
      Tally(Active(b.fragments, band, 8 * env.activityFloor[band] * v.Fragment())))
  }

  /** evaluate_sums(): a strong band is loud over the block and active in six fragments. */
  function StrongBands(b: Block, env: Envelope, v: Variant): (r: seq<bool>)
    requires WellFormed(b) && env.Valid()
    ensures |r| == BANDS
  {
    seq(BANDS, band requires 0 <= band < BANDS =>
      b.energies[band] > 8 * env.energyQ999[band] * v.blockSamples && ActiveFragments(b, env, v)[band] >= 6)
  }

  predicate Qualifying(strong: seq<bool>)
    requires |strong| == BANDS
  {
    Tally(strong) >= 4 && (strong[0] || strong[1]) && (strong[2] || strong[3]) && (strong[4] || strong[5])
  }

  /** Six different fragments of the band exceed eight times its activity floor a sample. */
  ghost predicate SixActive(b: Block, env: Envelope, v: Variant, band: nat)
    requires WellFormed(b) && env.Valid() && band < BANDS
  {
    exists at: seq<nat> ::
      && |at| == 6 && (forall j, k :: 0 <= j < k < 6 ==> at[j] < at[k])
      && forall k :: 0 <= k < 6 ==>
           at[k] < 8 && b.fragments[at[k]][band] > 8 * env.activityFloor[band] * (v.blockSamples / 8)
  }

  /** A loud band exceeds eight times its quantile a sample, and does not do so in a few fragments only. */
  ghost predicate Loud(b: Block, env: Envelope, v: Variant, band: nat)
    requires WellFormed(b) && env.Valid() && band < BANDS
  {
    b.energies[band] > 8 * env.energyQ999[band] * v.blockSamples && SixActive(b, env, v, band)
  }

  ghost function LoudBands(b: Block, env: Envelope, v: Variant): (r: seq<bool>)
    requires WellFormed(b) && env.Valid()
    ensures |r| == 6 && forall band :: 0 <= band < 6 ==> r[band] == Loud(b, env, v, band)
  {
    seq(6, band requires 0 <= band < 6 => Loud(b, env, v, band))
  }

  /** Four loud bands, and one in each octave. */
  ghost predicate Evidence(b: Block, env: Envelope, v: Variant)
    requires WellFormed(b) && env.Valid()
  {
    FourOf(LoudBands(b, env, v)) && EachOctave(LoudBands(b, env, v))
  }

  lemma ActiveIffSix(b: Block, env: Envelope, v: Variant, band: nat)
    requires WellFormed(b) && env.Valid() && band < BANDS
    ensures ActiveFragments(b, env, v)[band] >= 6 <==> SixActive(b, env, v, band)
  {
    hide Tally;
    var limit := 8 * env.activityFloor[band] * v.Fragment();
    var flags := Active(b.fragments, band, limit);
    TallyIff(flags, 6);
    if at: seq<nat> :| |at| == 6 && Places(flags, at) {
      assert forall k :: 0 <= k < 6 ==> at[k] < 8 && b.fragments[at[k]][band] > limit;
      assert SixActive(b, env, v, band);
    }
    if SixActive(b, env, v, band) {
      var at: seq<nat> :|
        && |at| == 6 && (forall j, k :: 0 <= j < k < 6 ==> at[j] < at[k])
        && forall k :: 0 <= k < 6 ==> at[k] < 8 && b.fragments[at[k]][band] > limit;
      assert Places(flags, at);
    }
  }

  lemma StrongIffLoud(b: Block, env: Envelope, v: Variant)
    requires WellFormed(b) && env.Valid()
    ensures StrongBands(b, env, v) == LoudBands(b, env, v)
  {
    hide ActiveFragments, SixActive, LoudBands;
    forall band: nat | band < BANDS
      ensures StrongBands(b, env, v)[band] == Loud(b, env, v, band)
    {
      ActiveIffSix(b, env, v, band);
    }
  }

  lemma QualifyingIffEvidence(b: Block, env: Envelope, v: Variant)
    requires WellFormed(b) && env.Valid()
    ensures Qualifying(StrongBands(b, env, v)) <==> Evidence(b, env, v)
  {
    hide StrongBands, LoudBands, FourOf, EachOctave, Tally;
    var strong := StrongBands(b, env, v);
    StrongIffLoud(b, env, v);
    TallyFour(strong);
    OctavesPaired(strong);
  }

  /** A block at least as loud in every band and fragment qualifies if the other does. */
  lemma LouderQualifies(b: Block, c: Block, env: Envelope, v: Variant)
    requires WellFormed(b) && WellFormed(c) && env.Valid()
    requires forall band :: 0 <= band < BANDS ==> b.energies[band] <= c.energies[band]
    requires forall j, band :: 0 <= j < 8 && 0 <= band < BANDS ==> b.fragments[j][band] <= c.fragments[j][band]
    ensures Qualifying(StrongBands(b, env, v)) ==> Qualifying(StrongBands(c, env, v))
  {
    hide StrongBands, FourOf, EachOctave, Tally;
    StrongIffLoud(b, env, v);
    StrongIffLoud(c, env, v);
    forall band | 0 <= band < BANDS ensures Loud(b, env, v, band) ==> Loud(c, env, v, band) {
      LouderBand(b, c, env, v, band);
    }
    TallyGrows(StrongBands(b, env, v), StrongBands(c, env, v));
  }

  lemma LouderBand(b: Block, c: Block, env: Envelope, v: Variant, band: nat)
    requires WellFormed(b) && WellFormed(c) && env.Valid() && band < BANDS && b.energies[band] <= c.energies[band]
    requires forall j :: 0 <= j < 8 ==> b.fragments[j][band] <= c.fragments[j][band]
    ensures Loud(b, env, v, band) ==> Loud(c, env, v, band)
  {
    if Loud(b, env, v, band) {
      var limit := 8 * env.activityFloor[band] * (v.blockSamples / 8);
      var at: seq<nat> :|
        && |at| == 6 && (forall j, k :: 0 <= j < k < 6 ==> at[j] < at[k])
        && forall k :: 0 <= k < 6 ==> at[k] < 8 && b.fragments[at[k]][band] > limit;
      forall k | 0 <= k < 6 ensures at[k] < 8 && c.fragments[at[k]][band] > limit {
        assert b.fragments[at[k]][band] <= c.fragments[at[k]][band];
      }
      assert SixActive(c, env, v, band);
    }
  }

  lemma BlocksWellFormed(v: Variant, x: seq<int>, first: nat, k: nat)
    requires v.Valid()
    ensures WellFormed(BlockAt(v, x, first, k))
  {
    hide Vectors, Sums;
  }

  /** The first n fragments of a band together. */
  function FragmentTotal(b: Block, band: nat, n: nat): nat
    requires WellFormed(b) && band < BANDS && n <= 8
  {
    if n == 0 then 0 else FragmentTotal(b, band, n - 1) + b.fragments[n - 1][band]
  }

  /** evaluate_sums() refuses no block of the bank: its fragments add up. */
  lemma FragmentsAddUp(v: Variant, x: seq<int>, first: nat, k: nat, band: nat)
    requires v.Valid() && band < BANDS && WellFormed(BlockAt(v, x, first, k))
    ensures FragmentTotal(BlockAt(v, x, first, k), band, 8) == BlockAt(v, x, first, k).energies[band]
  {
    hide Vectors, BankCodes, Settled, Sums, WellFormed;
    var a := Cut(v, first, k);
    var rows := Vectors(v, BankCodes(v, x, first), BankFirst(v, first), a, a + v.blockSamples);
    VectorsRectangular(v, BankCodes(v, x, first), BankFirst(v, first), a, a + v.blockSamples);
    EdgeLaws(|rows|, 8);
    FragmentsSoFar(rows, ToSource(v, a), band, 8);
  }

  lemma {:induction false} FragmentsSoFar(rows: seq<seq<int>>, start: nat, band: nat, n: nat)
    requires |rows| % 8 == 0 && Rectangular(rows) && band < BANDS && n <= 8 && WellFormed(BlockOf(rows, start))
    ensures Edge(|rows|, n) <= |rows|
    ensures FragmentTotal(BlockOf(rows, start), band, n) == Sums(rows, 0, Edge(|rows|, n))[band]
  {
    hide Sums, Rectangular, Edge, WellFormed;
    EdgeLaws(|rows|, 0);
    if n == 0 {
      SumsNone(rows, band);
    } else {
      EdgeLaws(|rows|, n - 1);
      FragmentsSoFar(rows, start, band, n - 1);
      SumsAdd(rows, 0, Edge(|rows|, n - 1), Edge(|rows|, n), band);
    }
  }

  predicate Flag(v: Variant, env: Envelope, x: seq<int>, first: nat, k: nat)
    requires v.Valid() && env.Valid()
  {
    BlocksWellFormed(v, x, first, k);
    Qualifying(StrongBands(BlockAt(v, x, first, k), env, v))
  }

  /** Block k of the stream holds evidence. */
  ghost predicate Bursts(v: Variant, env: Envelope, x: seq<int>, first: nat, k: nat)
    requires v.Valid() && env.Valid()
  {
    BlocksWellFormed(v, x, first, k);
    Evidence(BlockAt(v, x, first, k), env, v)
  }

  lemma FlagIffBursts(v: Variant, env: Envelope, x: seq<int>, first: nat, k: nat)
    requires v.Valid() && env.Valid()
    ensures Flag(v, env, x, first, k) <==> Bursts(v, env, x, first, k)
  {
    hide StrongBands, BlockAt, Evidence, Qualifying;
    BlocksWellFormed(v, x, first, k);
    QualifyingIffEvidence(BlockAt(v, x, first, k), env, v);
  }

  /** Four bands of a block with evidence are not silent. */
  lemma EvidenceIsHeard(b: Block, env: Envelope, v: Variant)
    requires WellFormed(b) && env.Valid() && Evidence(b, env, v)
    ensures exists band :: 0 <= band < BANDS && b.energies[band] > 0
  {
    hide EachOctave, SixActive, WellFormed, LoudBands;
    var band :| 0 <= band < 6 && LoudBands(b, env, v)[band];
    assert 8 * env.energyQ999[band] * v.blockSamples >= 0;
  }

  predicate Silent(x: seq<int>) {
    forall i :: 0 <= i < |x| ==> x[i] == 0
  }

  lemma {:induction false} ConvSilent(taps: seq<int>, x: seq<int>, n: int, k: nat)
    requires k <= |taps| && Silent(x)
    ensures Conv(taps, x, n, k) == 0
  {
    if k > 0 { ConvSilent(taps, x, n, k - 1); }
  }

  lemma {:induction false} OwedSilent(taps: seq<int>, x: seq<int>, first: nat, from: nat, end: nat)
    requires from <= end && Silent(x)
    ensures Silent(ValuesOf(Owed(taps, 2, x, first, from, end)))
    decreases end
  {
    hide Conv;
    if from < end {
      OwedSilent(taps, x, first, from, end - 1);
      ConvSilent(taps, x, end - 1 - first, |taps|);
      ValuesJoin(Owed(taps, 2, x, first, from, end - 1),
                 if Multiple(end - 1, 2) then [Out(0, end - 1, end - 1 - first >= |taps| - 1)] else []);
    }
  }

  lemma ValuesJoin(a: seq<Out>, b: seq<Out>)
    ensures ValuesOf(a + b) == ValuesOf(a) + ValuesOf(b)
  {
  }

  lemma SilentRow(v: Variant, codes: seq<int>, n: int)
    requires Silent(codes)
    ensures Silent(Vector(v, codes, n))
  {
    hide Conv;
    forall k | 0 <= k < |v.bandTaps| ensures Conv(v.bandTaps[k], codes, n, |v.bandTaps[k]|) == 0 {
      ConvSilent(v.bandTaps[k], codes, n, |v.bandTaps[k]|);
    }
  }

  lemma SilentRows(v: Variant, codes: seq<int>, bankFirst: nat, a: nat, b: nat)
    requires Silent(codes)
    ensures var rows := Vectors(v, codes, bankFirst, a, b); forall i :: 0 <= i < |rows| ==> Silent(rows[i])
  {
    hide Silent, Vector;
    var rows := Vectors(v, codes, bankFirst, a, b);
    forall i | 0 <= i < |rows| ensures Silent(rows[i]) { SilentRow(v, codes, a + i - bankFirst); }
  }

  lemma SilentBlock(v: Variant, x: seq<int>, first: nat, k: nat, band: nat)
    requires v.Valid() && Silent(x) && band < BANDS && WellFormed(BlockAt(v, x, first, k))
    ensures BlockAt(v, x, first, k).energies[band] == 0
  {
    hide Vectors, Settled, Energy, Silent, WellFormed, Owed;
    if v.prefixTaps != [] { OwedSilent(v.prefixTaps, x, first, first, first + |x|); }
    var a := Cut(v, first, k);
    var codes := BankCodes(v, x, first);
    var rows := Vectors(v, codes, BankFirst(v, first), a, a + v.blockSamples);
    VectorsRectangular(v, codes, BankFirst(v, first), a, a + v.blockSamples);
    SilentRows(v, codes, BankFirst(v, first), a, a + v.blockSamples);
    SilentEnergy(rows, band);
  }

  lemma SilentEnergy(rows: seq<seq<int>>, band: nat)
    requires band < BANDS && Rectangular(rows) && forall i :: 0 <= i < |rows| ==> Silent(rows[i])
    ensures Energy(rows, band, 0, |rows|) == 0
  {
    hide Energy;
    EnergyZero(rows, band, 0, |rows|);
  }

  /** Silence is no evidence, however low the thresholds. */
  lemma SilenceNeverFlags(v: Variant, env: Envelope, x: seq<int>, first: nat, k: nat)
    requires v.Valid() && env.Valid() && Silent(x)
    ensures !Flag(v, env, x, first, k)
  {
    hide Silent, BlockAt, Evidence, Flag;
    FlagIffBursts(v, env, x, first, k);
    BlocksWellFormed(v, x, first, k);
    if Bursts(v, env, x, first, k) {
      var block := BlockAt(v, x, first, k);
      EvidenceIsHeard(block, env, v);
      var band :| 0 <= band < BANDS && block.energies[band] > 0;
      SilentBlock(v, x, first, k, band);
    }
  }

  /** The streak after the first k blocks. */
  function Streak(v: Variant, env: Envelope, x: seq<int>, first: nat, k: nat): nat
    requires v.Valid() && env.Valid()
  {
    if k == 0 then 0 else if Flag(v, env, x, first, k - 1) then Streak(v, env, x, first, k - 1) + 1 else 0
  }

  datatype Report = Report(block: Block, active: seq<nat>, strong: seq<bool>, qualifying: bool, streak: nat)

  function ReportAt(v: Variant, env: Envelope, x: seq<int>, first: nat, k: nat): Report
    requires v.Valid() && env.Valid()
  {
    BlocksWellFormed(v, x, first, k);
    var block := BlockAt(v, x, first, k);
    Report(block, ActiveFragments(block, env, v), StrongBands(block, env, v),
           Flag(v, env, x, first, k), Streak(v, env, x, first, k + 1))
  }

  function Reports(v: Variant, env: Envelope, x: seq<int>, first: nat, a: nat, b: nat): (r: seq<Report>)
    requires v.Valid() && env.Valid()
    ensures |r| == if a <= b then b - a else 0
  {
    seq(if a <= b then b - a else 0, i requires i >= 0 => ReportAt(v, env, x, first, a + i))
  }

  /** The source index of each eighth block in a row. */
  function Decisions(reports: seq<Report>): seq<nat> {
    if reports == [] then []
    else
      Decisions(reports[..|reports| - 1]) +
      if reports[|reports| - 1].streak == 8 then [reports[|reports| - 1].block.end] else []
  }

  lemma {:induction false} DecisionsAppend(a: seq<Report>, b: seq<Report>)
    ensures Decisions(a + b) == Decisions(a) + Decisions(b)
  {
    if b == [] {
      assert a + b == a;
    } else {
      assert (a + b)[..|a + b| - 1] == a + b[..|b| - 1];
      DecisionsAppend(a, b[..|b| - 1]);
    }
  }

  /** A decision falls exactly on the eighth block of a maximal qualifying run. */
  lemma {:induction false} StreakIsRun(v: Variant, env: Envelope, x: seq<int>, first: nat, k: nat)
    requires v.Valid() && env.Valid()
    ensures var n := Streak(v, env, x, first, k);
            && n <= k && (forall i :: k - n <= i < k ==> Flag(v, env, x, first, i))
            && (n < k ==> !Flag(v, env, x, first, k - n - 1))
  {
    hide Flag;
    if k > 0 { StreakIsRun(v, env, x, first, k - 1); }
  }

  lemma DecisionAtEighth(v: Variant, env: Envelope, x: seq<int>, first: nat, k: nat)
    requires v.Valid() && env.Valid()
    ensures ReportAt(v, env, x, first, k).streak == 8 <==>
            && k >= 7 && (forall i :: k - 7 <= i <= k ==> Bursts(v, env, x, first, i))
            && (k == 7 || !Bursts(v, env, x, first, k - 8))
  {
    hide Flag, Bursts, BlockAt;
    StreakIsRun(v, env, x, first, k + 1);
    forall i: nat ensures Flag(v, env, x, first, i) <==> Bursts(v, env, x, first, i) {
      FlagIffBursts(v, env, x, first, i);
    }
  }

  /** The decisions among the first b blocks are the ends of the eighth blocks of maximal runs of evidence. */
  lemma {:induction false} DecisionIffEighth(v: Variant, env: Envelope, x: seq<int>, first: nat, b: nat, at: nat)
    requires v.Valid() && env.Valid()
    ensures at in Decisions(Reports(v, env, x, first, 0, b)) <==>
              exists k: nat ::
                && k < b && BlockAt(v, x, first, k).end == at
                && k >= 7 && (forall i :: k - 7 <= i <= k ==> Bursts(v, env, x, first, i))
                && (k == 7 || !Bursts(v, env, x, first, k - 8))
  {
    hide ReportAt, Reports, Decisions, Bursts, BlockAt, Variant.Valid, Envelope.Valid;
    if b == 0 {
      ReportsNone(v, env, x, first, 0);
      DecisionsNone();
    } else {
      DecisionIffEighth(v, env, x, first, b - 1, at);
      ReportsNext(v, env, x, first, 0, b - 1);
      DecisionsNext(Reports(v, env, x, first, 0, b - 1), ReportAt(v, env, x, first, b - 1));
      DecisionAtEighth(v, env, x, first, b - 1);
      ReportsBlock(v, env, x, first, b - 1);
    }
  }

  lemma ReportsBlock(v: Variant, env: Envelope, x: seq<int>, first: nat, k: nat)
    requires v.Valid() && env.Valid()
    ensures ReportAt(v, env, x, first, k).block == BlockAt(v, x, first, k)
  {
    hide BlockAt, Flag, Streak, ActiveFragments, StrongBands;
    BlocksWellFormed(v, x, first, k);
  }

  /** A silent stream is never decided on. */
  lemma {:induction false} SilenceIsQuiet(v: Variant, env: Envelope, x: seq<int>, first: nat, a: nat, b: nat)
    requires v.Valid() && env.Valid() && Silent(x) && a <= b
    ensures Decisions(Reports(v, env, x, first, a, b)) == []
    decreases b
  {
    hide ReportAt, Reports, Decisions, Silent, Variant.Valid, Envelope.Valid;
    if a == b {
      ReportsNone(v, env, x, first, a);
      DecisionsNone();
    } else {
      SilenceIsQuiet(v, env, x, first, a, b - 1);
      ReportsNext(v, env, x, first, a, b - 1);
      DecisionsNext(Reports(v, env, x, first, a, b - 1), ReportAt(v, env, x, first, b - 1));
      SilentReport(v, env, x, first, b - 1);
    }
  }

  lemma SilentReport(v: Variant, env: Envelope, x: seq<int>, first: nat, k: nat)
    requires v.Valid() && env.Valid() && Silent(x)
    ensures ReportAt(v, env, x, first, k).streak == 0
  {
    hide Flag, Silent, BlockAt;
    SilenceNeverFlags(v, env, x, first, k);
  }

  /** What is ripe has all its rows, whatever comes later. */
  lemma RipeHasRows(v: Variant, first: nat, at: nat)
    requires v.Valid()
    ensures Ripe(v, first, at) > 0 ==> Cut(v, first, Ripe(v, first, at)) <= BankNext(v, at)
  {
    hide Settled;
    CutLaws(v, first, Ripe(v, first, at));
  }

  lemma {:induction false} StreakCausal(v: Variant, env: Envelope, x: seq<int>, more: seq<int>, first: nat, k: nat)
    requires v.Valid() && env.Valid() && (k > 0 ==> Cut(v, first, k) <= BankNext(v, first + |x|))
    ensures Streak(v, env, x + more, first, k) == Streak(v, env, x, first, k)
  {
    hide BlockAt, Cut, BankNext, StrongBands, ActiveFragments, Qualifying;
    if k > 0 {
      CutGrows(v, first, k - 1, k);
      StreakCausal(v, env, x, more, first, k - 1);
      BlockCausal(v, x, more, first, k - 1);
    }
  }

  lemma ReportsCausal(v: Variant, env: Envelope, x: seq<int>, more: seq<int>, first: nat, a: nat, b: nat)
    requires v.Valid() && env.Valid() && (b > 0 ==> Cut(v, first, b) <= BankNext(v, first + |x|))
    ensures Reports(v, env, x + more, first, a, b) == Reports(v, env, x, first, a, b)
  {
    hide Cut, BankNext, ReportAt;
    var p, q := Reports(v, env, x + more, first, a, b), Reports(v, env, x, first, a, b);
    forall i | 0 <= i < |p| ensures p[i] == q[i] {
      CutGrows(v, first, a + i + 1, b);
      ReportCausal(v, env, x, more, first, a + i);
    }
  }

  lemma ReportCausal(v: Variant, env: Envelope, x: seq<int>, more: seq<int>, first: nat, k: nat)
    requires v.Valid() && env.Valid() && Cut(v, first, k + 1) <= BankNext(v, first + |x|)
    ensures ReportAt(v, env, x + more, first, k) == ReportAt(v, env, x, first, k)
  {
    hide BlockAt, Cut, BankNext, StrongBands, ActiveFragments, Qualifying, Streak;
    BlockCausal(v, x, more, first, k);
    StreakCausal(v, env, x, more, first, k + 1);
  }

  lemma ReportsJoin(v: Variant, env: Envelope, x: seq<int>, first: nat, a: nat, m: nat, b: nat)
    requires v.Valid() && env.Valid() && a <= m <= b
    ensures Reports(v, env, x, first, a, m) + Reports(v, env, x, first, m, b) == Reports(v, env, x, first, a, b)
  {
    hide ReportAt;
  }

  lemma ReportsNone(v: Variant, env: Envelope, x: seq<int>, first: nat, a: nat)
    requires v.Valid() && env.Valid()
    ensures Reports(v, env, x, first, a, a) == []
  {
  }

  lemma ReportsNext(v: Variant, env: Envelope, x: seq<int>, first: nat, a: nat, b: nat)
    requires v.Valid() && env.Valid() && a <= b
    ensures Reports(v, env, x, first, a, b) + [ReportAt(v, env, x, first, b)] == Reports(v, env, x, first, a, b + 1)
  {
    hide ReportAt;
  }

  /** The next report, from the block and the streak before it. */
  lemma ReportIs(v: Variant, env: Envelope, x: seq<int>, first: nat, k: nat, block: Block)
    requires v.Valid() && env.Valid() && block == BlockAt(v, x, first, k)
    ensures WellFormed(block)
    ensures var q, was := Qualifying(StrongBands(block, env, v)), Streak(v, env, x, first, k);
            && Streak(v, env, x, first, k + 1) == (if q then was + 1 else 0)
            && ReportAt(v, env, x, first, k)
                 == Report(block, ActiveFragments(block, env, v), StrongBands(block, env, v), q,
                           Streak(v, env, x, first, k + 1))
  {
    hide BlockAt, StrongBands, ActiveFragments, Qualifying;
    BlocksWellFormed(v, x, first, k);
  }

  /** The loop over ready blocks. */
  method Evaluate(v: Variant, env: Envelope, ready: seq<Block>, before: nat, ghost x: seq<int>, ghost first: nat,
                  ghost a: nat)
    returns (reports: seq<Report>, decisions: seq<nat>, streak: nat)
    requires v.Valid() && env.Valid() && ready == BlocksFrom(v, x, first, a, a + |ready|)
    requires before == Streak(v, env, x, first, a)
    ensures reports == Reports(v, env, x, first, a, a + |ready|) && decisions == Decisions(reports)
    ensures streak == Streak(v, env, x, first, a + |ready|)
  {
    hide BlockAt, StrongBands, ActiveFragments, Qualifying, Reports, ReportAt, Flag, Streak, WellFormed,
         Variant.Valid, Envelope.Valid, Decisions, BlocksFrom;
    ReportsNone(v, env, x, first, a);
    DecisionsNone();
    reports, decisions, streak := [], [], before;
    for i := 0 to |ready|
      invariant reports == Reports(v, env, x, first, a, a + i) && decisions == Decisions(reports)
      invariant streak == Streak(v, env, x, first, a + i)
    {
      BlocksAt(v, x, first, a, a + |ready|, i);
      ReportIs(v, env, x, first, a + i, ready[i]);
      ReportsNext(v, env, x, first, a, a + i);
      var active, strong := ActiveFragments(ready[i], env, v), StrongBands(ready[i], env, v);
      var qualifying := Qualifying(strong);
      streak := if qualifying then streak + 1 else 0;
      var report := Report(ready[i], active, strong, qualifying, streak);
      DecisionsNext(reports, report);
      reports := reports + [report];
      if streak == 8 { decisions := decisions + [ready[i].end]; }
    }
  }

  lemma BlocksAt(v: Variant, x: seq<int>, first: nat, a: nat, b: nat, i: nat)
    requires v.Valid() && a + i < b
    ensures BlocksFrom(v, x, first, a, b)[i] == BlockAt(v, x, first, a + i)
  {
    hide BlockAt;
  }

  lemma DecisionsNone()
    ensures Decisions([]) == []
  {
  }

  lemma DecisionsNext(reports: seq<Report>, report: Report)
    ensures Decisions(reports + [report]) == Decisions(reports) + if report.streak == 8 then [report.block.end] else []
  {
    assert (reports + [report])[..|reports|] == reports;
  }

  class FixedFastOracle {
    const bank: Bank
    const env: Envelope
    var streak: nat

    ghost predicate Valid()
      reads this, bank, bank.prefix, bank.filters
    {
      && bank.Valid() && bank.v.Valid() && env.Valid()
      && streak == Streak(bank.v, env, bank.source, bank.firstIndex,
                          Ripe(bank.v, bank.firstIndex, bank.firstIndex + |bank.source|))
    }

    constructor (bank: Bank, env: Envelope)
      requires bank.Valid() && bank.v.Valid() && bank.source == [] && env.Valid()
      ensures Valid() && this.bank == bank && this.env == env
    {
      this.bank, this.env, streak := bank, env, 0;
      new;
      NothingYet(bank.v, bank.firstIndex);
    }

    method Reset()
      requires Valid()
      modifies this, bank, bank.prefix, bank.filters
      ensures Valid() && bank.source == [] && streak == 0
    {
      bank.Reset();
      streak := 0;
      NothingYet(bank.v, bank.firstIndex);
    }

    /** process(): the reports of the blocks that ripened, and their decisions. */
    method Process(codes: seq<int>, start: nat) returns (ok: bool, reports: seq<Report>, decisions: seq<nat>)
      requires Valid()
      modifies this, bank, bank.prefix, bank.filters
      ensures Valid() && ok == old(bank.Accepts(codes, start))
      ensures !ok ==> unchanged(this) && unchanged(bank) && unchanged(bank.filters)
      ensures !ok && bank.prefix != null ==> unchanged(bank.prefix)
      ensures ok ==> bank.source == old(bank.source) + codes
      ensures ok && (old(bank.source) != [] || codes == []) ==> bank.firstIndex == old(bank.firstIndex)
      ensures ok && old(bank.source) == [] && codes != [] ==> bank.firstIndex == start
      ensures ok ==> reports == Reports(bank.v, env, bank.source, bank.firstIndex,
                                        Ripe(bank.v, bank.firstIndex, bank.firstIndex + old(|bank.source|)),
                                        Ripe(bank.v, bank.firstIndex, bank.firstIndex + |bank.source|))
      ensures ok ==> decisions == Decisions(reports)
    {
      hide Reports, Ripe, Streak, BlocksFrom, Decisions, Bank.Valid, Bank.Accepts, Variant.Valid;
      reports, decisions := [], [];
      var ready;
      ok, ready := bank.Process(codes, start);
      if !ok { return; }
      reports, decisions := Judge(ready, old(bank.source), codes, old(bank.firstIndex));
    }

    /** evaluate_sums() and the streak over what the bank released. */
    method Judge(ready: seq<Block>, ghost before: seq<int>, ghost codes: seq<int>, ghost firstBefore: nat)
      returns (reports: seq<Report>, decisions: seq<nat>)
      requires bank.v.Valid() && env.Valid() && bank.source == before + codes
      requires before != [] || codes == [] ==> bank.firstIndex == firstBefore
      requires var v, first := bank.v, bank.firstIndex;
               && ready == BlocksFrom(v, bank.source, first, Ripe(v, first, first + |before|),
                                      Ripe(v, first, first + |bank.source|))
      requires streak == Streak(bank.v, env, before, firstBefore, Ripe(bank.v, firstBefore, firstBefore + |before|))
      modifies `streak
      ensures var v, first := bank.v, bank.firstIndex;
              && reports == Reports(v, env, bank.source, first, Ripe(v, first, first + |before|),
                                    Ripe(v, first, first + |bank.source|))
              && decisions == Decisions(reports)
              && streak == Streak(v, env, bank.source, first, Ripe(v, first, first + |bank.source|))
    {
      hide BlockAt, Flag, Ripe, Cut, BankNext;
      ghost var v, first := bank.v, bank.firstIndex;
      ghost var a, b := Ripe(v, first, first + |before|), Ripe(v, first, first + |bank.source|);
      RipeGrows(v, first, first + |before|, first + |bank.source|);
      RipeHasRows(v, first, first + |before|);
      StreakCausal(v, env, before, codes, first, a);
      if before == [] {
        NothingYet(v, first);
        NothingYet(v, firstBefore);
      }
      reports, decisions, streak := Evaluate(bank.v, env, ready, streak, bank.source, first, a);
    }
  }

  // --------------------------------------------------------------- any way of splitting

  /** The reports of a stream fed in chunks, after x. */
  function Answers(v: Variant, env: Envelope, first: nat, x: seq<int>, chunks: seq<seq<int>>): seq<Report>
    requires v.Valid() && env.Valid()
    decreases |chunks|
  {
    if chunks == [] then []
    else
      Reports(v, env, x + chunks[0], first, Ripe(v, first, first + |x|), Ripe(v, first, first + |x + chunks[0]|)) +
      Answers(v, env, first, x + chunks[0], chunks[1..])
  }

  /** However the stream is split, the same blocks and streaks come out, so the same decisions. */
  lemma {:induction false} SplitIndependent(v: Variant, env: Envelope, first: nat, x: seq<int>, chunks: seq<seq<int>>)
    requires v.Valid() && env.Valid()
    ensures Answers(v, env, first, x, chunks)
         == Reports(v, env, x + Flat(chunks), first, Ripe(v, first, first + |x|),
                    Ripe(v, first, first + |x + Flat(chunks)|))
    decreases |chunks|
  {
    hide Ripe, Reports, Variant.Valid, Envelope.Valid;
    if chunks == [] {
      assert x + Flat(chunks) == x;
      ReportsNone(v, env, x, first, Ripe(v, first, first + |x|));
    } else {
      var x', rest := x + chunks[0], Flat(chunks[1..]);
      SplitIndependent(v, env, first, x', chunks[1..]);
      FlatNext(x, chunks);
      hide Flat;
      ReportsContinue(v, env, first, |x|, x', rest);
    }
  }

  lemma FlatNext(x: seq<int>, chunks: seq<seq<int>>)
    requires chunks != []
    ensures x + Flat(chunks) == (x + chunks[0]) + Flat(chunks[1..])
  {
  }

  /** The reports of a chunk and those of what follows are those of both. */
  lemma ReportsContinue(v: Variant, env: Envelope, first: nat, n: nat, x: seq<int>, rest: seq<int>)
    requires v.Valid() && env.Valid() && n <= |x|
    ensures var a, m, b := Ripe(v, first, first + n), Ripe(v, first, first + |x|), Ripe(v, first, first + |x + rest|);
            Reports(v, env, x, first, a, m) + Reports(v, env, x + rest, first, m, b)
              == Reports(v, env, x + rest, first, a, b)
  {
    hide Ripe, Reports;
    var a, m, b := Ripe(v, first, first + n), Ripe(v, first, first + |x|), Ripe(v, first, first + |x + rest|);
    RipeGrows(v, first, first + n, first + |x|);
    RipeGrows(v, first, first + |x|, first + |x + rest|);
    RipeHasRows(v, first, first + |x|);
    ReportsCausal(v, env, x, rest, first, a, m);
    ReportsJoin(v, env, x + rest, first, a, m, b);
  }
}
