/** src/modulation.h: the integer modulation pipeline of one carrier cycle. */
module Modulation {

  const WORD := 0x1_0000_0000
  const LUT_SIZE := 2048            // SpwmLutSize
  const PHASE_120 := 1_431_655_765  // PhaseShift120Deg
  const RAIL := 32767

  /** C division by two: towards zero. */
  function HalfTowardsZero(x: int): int {
    if x >= 0 then x / 2 else -((-x) / 2)
  }

  /** It rounds no number away from zero, and a number and its negative alike. */
  lemma HalvesTowardsZero(x: int)
    ensures var h := HalfTowardsZero(x); HalfTowardsZero(-x) == -h && (x >= 0 ==> 2 * h <= x <= 2 * h + 1)
  {
  }

  /** An arithmetic right shift floors. */
  function ShiftRight(x: int, bits: nat): int
    requires bits == 8 || bits == 15
  {
    if bits == 8 then x / 256 else x / 32768
  }

  /** refFromPhase(): the top 11 bits pick the entry, the next 8 interpolate. */
  function RefFromPhase(lut: seq<int>, phase: nat): int
    requires |lut| == LUT_SIZE && phase < WORD
  {
    var idx, frac := phase / 0x20_0000, phase / 0x2000 % 256;
    var a, b := lut[idx], lut[(idx + 1) % LUT_SIZE];
    a + ShiftRight((b - a) * frac, 8)
  }

  /** Interpolation stays between the two entries. */
  lemma RefIsBetween(lut: seq<int>, phase: nat)
    requires |lut| == LUT_SIZE && phase < WORD
    ensures var idx := phase / 0x20_0000;
            var a, b := lut[idx], lut[(idx + 1) % LUT_SIZE];
            (a <= b ==> a <= RefFromPhase(lut, phase) <= b) && (b <= a ==> b <= RefFromPhase(lut, phase) <= a)
  {
    var idx, frac := phase / 0x20_0000, phase / 0x2000 % 256;
    Interpolate(lut[(idx + 1) % LUT_SIZE] - lut[idx], frac);
  }

  lemma Interpolate(d: int, frac: nat)
    requires frac < 256
    ensures d >= 0 ==> 0 <= d * frac / 256 <= d
    ensures d <= 0 ==> d <= d * frac / 256 <= 0
  {
    if d >= 0 {
      assert 0 <= d * frac <= d * 256;
    } else {
      assert d * 256 <= d * frac <= 0;
    }
  }

  function Scale(unit: int, indexQ15: nat): int {
    ShiftRight(unit * indexQ15, 15)
  }

  lemma ProductNonNegative(a: nat, b: nat)
    ensures a * b >= 0
  {
  }

  /** Entries and indices of 16 bits: the product fits an int32_t. */
  lemma ScaleFits(unit: int, indexQ15: nat)
    requires -32768 <= unit <= 32768 && indexQ15 < 65536
    ensures -0x8000_0000 <= unit * indexQ15 < 0x8000_0000
  {
    ProductNonNegative(32768 - unit, indexQ15);
    ProductNonNegative(unit + 32768, indexQ15);
    assert (32768 - unit) * indexQ15 == 32768 * indexQ15 - unit * indexQ15;
    assert (unit + 32768) * indexQ15 == unit * indexQ15 + 32768 * indexQ15;
  }

  function Leg(phase: nat, k: nat): nat {
    (phase - k * PHASE_120) % WORD
  }

  /** threePhaseScaledRefs(). */
  function ScaledRefs(lut: seq<int>, phase: nat, indexQ15: nat): (v: seq<int>)
    requires |lut| == LUT_SIZE && phase < WORD
    ensures |v| == 3
  {
    [Scale(RefFromPhase(lut, phase), indexQ15),
     Scale(RefFromPhase(lut, Leg(phase, 1)), indexQ15),
     Scale(RefFromPhase(lut, Leg(phase, 2)), indexQ15)]
  }

  /** The reference is the line from one table entry to the next, rounded down: `frac` 256ths of the way. */
  lemma RefIsOnTheLine(lut: seq<int>, phase: nat, idx: nat, frac: nat)
    requires |lut| == LUT_SIZE && idx < LUT_SIZE && frac < 256
    requires idx * 0x20_0000 + frac * 0x2000 <= phase < idx * 0x20_0000 + (frac + 1) * 0x2000
    ensures phase < WORD
    ensures var ref, line := RefFromPhase(lut, phase), (256 - frac) * lut[idx] + frac * lut[(idx + 1) % LUT_SIZE];
            256 * ref <= line < 256 * (ref + 1)
  {
    PhaseDigits(phase, idx, frac);
    var a, b := lut[idx], lut[(idx + 1) % LUT_SIZE];
    assert (256 - frac) * a + frac * b == 256 * a + (b - a) * frac;
  }

  lemma PhaseDigits(phase: nat, idx: nat, frac: nat)
    requires frac < 256 && idx * 0x20_0000 + frac * 0x2000 <= phase < idx * 0x20_0000 + (frac + 1) * 0x2000
    ensures phase / 0x20_0000 == idx && phase / 0x2000 % 256 == frac
  {
    assert phase / 0x2000 == 256 * idx + frac;
  }

  /** A multiplication by index/32768, rounded down; the full index leaves the reference as it is. */
  lemma ScaleIsFloor(unit: int, indexQ15: nat)
    ensures 32768 * Scale(unit, indexQ15) <= unit * indexQ15 < 32768 * (Scale(unit, indexQ15) + 1)
    ensures indexQ15 == 32768 ==> Scale(unit, indexQ15) == unit
  {
  }

  /** Legs 0, 1 and 2 in that order, a third of a turn apart: a leg carries k thirds of a turn later
      what leg 0 carries now.  Three such thirds are a turn but for one count. */
  lemma PhaseSequence(lut: seq<int>, phase: nat, indexQ15: nat, k: nat)
    requires |lut| == LUT_SIZE && phase < WORD && k < 3
    ensures 3 * PHASE_120 == WORD - 1
    ensures ScaledRefs(lut, (phase + k * PHASE_120) % WORD, indexQ15)[k] == ScaledRefs(lut, phase, indexQ15)[0]
  {
    hide RefFromPhase, Scale;
    LegBack(phase, k);
  }

  lemma LegBack(phase: nat, k: nat)
    requires phase < WORD && k < 3
    ensures Leg((phase + k * PHASE_120) % WORD, k) == phase
  {
  }

  // ---------------------------------------------------------------- zero sequences

  function Abs(x: int): nat { if x < 0 then -x else x }

  /** The largest and the smallest of three. */
  ghost predicate Extremes(v: seq<int>, mx: int, mn: int)
    requires |v| == 3
  {
    && mx in v && mn in v && forall k :: 0 <= k < 3 ==> mn <= v[k] <= mx
  }

  /** continuousSvmZss(). */
  method ContinuousSvmZss(v: seq<int>) returns (zss: int, ghost mx: int, ghost mn: int)
    requires |v| == 3
    ensures Extremes(v, mx, mn) && zss == HalfTowardsZero(-(mx + mn))
  {
    var hi, lo := v[0], v[0];
    for k := 1 to 3
      invariant hi in v && lo in v && forall j :: 0 <= j < k ==> lo <= v[j] <= hi
    {
      if v[k] > hi { hi := v[k]; }
      if v[k] < lo { lo := v[k]; }
    }
    mx, mn := hi, lo;
    zss := HalfTowardsZero(-(hi + lo));
  }

  datatype DpwmVariant = DpwmMin | DpwmMax | Dpwm3 | DpwmGeneralised

  /** The variants that clamp the leg a magnitude picks, to the rail on its own side. */
  predicate ByMagnitude(variant: DpwmVariant) {
    variant == Dpwm3 || variant == DpwmGeneralised
  }

  /** The zero sequence that carries leg `sel` to its rail. */
  function Pin(variant: DpwmVariant, x: int): int {
    match variant
    case DpwmMin => -RAIL - x
    case DpwmMax => RAIL - x
    case _ => if x >= 0 then RAIL - x else -RAIL - x
  }

  /** The first of the lowest. */
  predicate FirstLowest(v: seq<int>, s: nat) {
    s < |v| && forall k :: 0 <= k < |v| ==> v[s] <= v[k] && (k < s ==> v[s] < v[k])
  }

  predicate FirstHighest(v: seq<int>, s: nat) {
    s < |v| && forall k :: 0 <= k < |v| ==> v[k] <= v[s] && (k < s ==> v[k] < v[s])
  }

  function Magnitudes(v: seq<int>): (m: seq<int>)
    ensures |m| == |v| && forall k :: 0 <= k < |v| ==> m[k] == Abs(v[k])
  {
    seq(|v|, k requires 0 <= k < |v| => Abs(v[k]))
  }

  /** Which leg a variant chooses, of equals the first: the lowest, the highest, the one of intermediate
      magnitude, or the one of the largest after the clamp advance. */
  ghost predicate Chosen(variant: DpwmVariant, v: seq<int>, advanced: seq<int>, sel: nat)
    requires |v| == |advanced| == 3 && sel < 3
  {
    match variant
    case DpwmMin => FirstLowest(v, sel)
    case DpwmMax => FirstHighest(v, sel)
    case Dpwm3 => exists lo: nat, hi: nat ::
      && FirstLowest(Magnitudes(v), lo) && FirstHighest(Magnitudes(v), hi)
      && sel == if lo == hi then hi else 3 - lo - hi
    case DpwmGeneralised => FirstHighest(Magnitudes(advanced), sel)
  }

  /** An intermediate magnitude lies between those of the other two legs, or all three are equal. */
  lemma MiddleIsBetween(v: seq<int>, advanced: seq<int>, sel: nat)
    requires |v| == |advanced| == 3 && sel < 3 && Chosen(Dpwm3, v, advanced, sel)
    ensures exists lo: nat, hi: nat :: lo < 3 && hi < 3 && Abs(v[lo]) <= Abs(v[sel]) <= Abs(v[hi]) &&
              ((lo != sel && hi != sel && lo != hi) || Abs(v[0]) == Abs(v[1]) == Abs(v[2]))
  {
    hide Abs;
    var m := Magnitudes(v);
    var lo: nat, hi: nat :|
      FirstLowest(m, lo) && FirstHighest(m, hi) && sel == if lo == hi then hi else 3 - lo - hi;
    assert m[lo] <= m[sel] <= m[hi];
    if lo == hi { assert m[0] == m[1] == m[2]; }
  }

  method FindExtreme(v: seq<int>, highest: bool) returns (s: nat)
    requires |v| == 3
    ensures s < 3 && if highest then FirstHighest(v, s) else FirstLowest(v, s)
  {
    s := 0;
    for k := 1 to 3
      invariant 0 <= s < k && if highest then FirstHighest(v[..k], s) else FirstLowest(v[..k], s)
    {
      if if highest then v[k] > v[s] else v[k] < v[s] { s := k; }
    }
    assert v[..3] == v;
  }

  /** The intermediate magnitude; when all are equal neither search moves, and leg 0 is taken. */
  method FindMiddle(v: seq<int>) returns (s: nat)
    requires |v| == 3
    ensures s < 3 && Chosen(Dpwm3, v, v, s)
  {
    hide Abs;
    var mags := Magnitudes(v);
    var lo, hi := 0, 0;
    for k := 1 to 3
      invariant 0 <= lo < k && 0 <= hi < k && FirstLowest(mags[..k], lo) && FirstHighest(mags[..k], hi)
    {
      if mags[k] > mags[hi] { hi := k; }
      if mags[k] < mags[lo] { lo := k; }
    }
    assert mags[..3] == mags;
    s := if hi == lo then hi else 3 - hi - lo;
    assert FirstLowest(Magnitudes(v), lo) && FirstHighest(Magnitudes(v), hi);
  }

  /** The largest magnitude among the advanced references, the first of equals. */
  method FindLeading(advanced: seq<int>) returns (s: nat)
    requires |advanced| == 3
    ensures s < 3 && FirstHighest(Magnitudes(advanced), s)
  {
    var best: int := -1;
    s := 0;
    for k := 0 to 3
      invariant s < 3 && (k == 0 ==> best == -1) && (k > 0 ==> s < k && best == Abs(advanced[s]))
      invariant k > 0 ==> FirstHighest(Magnitudes(advanced)[..k], s)
    {
      if Abs(advanced[k]) > best { best, s := Abs(advanced[k]), k; }
    }
    assert Magnitudes(advanced)[..3] == Magnitudes(advanced);
  }

  /** dpwmZss(); `advanced` holds the references after the clamp-angle advance. */
  method DpwmZss(variant: DpwmVariant, v: seq<int>, advanced: seq<int>) returns (zss: int, ghost sel: nat)
    requires |v| == |advanced| == 3
    ensures sel < 3 && Chosen(variant, v, advanced, sel) && zss == Pin(variant, v[sel])
  {
    var s;
    match variant {
      case DpwmMin =>
        s := FindExtreme(v, false);
        zss := -RAIL - v[s];
      case DpwmMax =>
        s := FindExtreme(v, true);
        zss := RAIL - v[s];
      case Dpwm3 =>
        s := FindMiddle(v);
        zss := if v[s] >= 0 then RAIL - v[s] else -RAIL - v[s];
      case DpwmGeneralised =>
        s := FindLeading(advanced);
        zss := if v[s] >= 0 then RAIL - v[s] else -RAIL - v[s];
    }
    sel := s;
  }

  // -------------------------------------------------------------------------- duties

  function Saturate(v: int): int {
    if v > RAIL then RAIL else if v < -RAIL then -RAIL else v
  }

  /** dutyFromScaled(). */
  function DutyFromScaled(v: int, dtComp: int, polarity: int): (d: int)
    ensures 1 <= d <= 65535
  {
    32768 + Saturate(if polarity > 0 then v + dtComp else if polarity < 0 then v - dtComp else v)
  }

  /** Without dead-time compensation. */
  function Duty(v: int): int {
    32768 + Saturate(v)
  }

  /** Dead-time compensation goes the way of the reference, as far as the rail, and a reference and its
      negative get duties that mirror each other. */
  lemma CompensationIsSigned(v: int, dtComp: int, polarity: int)
    requires dtComp >= 0 && -RAIL <= v <= RAIL
    ensures var d := DutyFromScaled(v, dtComp, polarity) - Duty(v);
            && (polarity > 0 ==> d == if v + dtComp <= RAIL then dtComp else RAIL - v)
            && (polarity < 0 ==> -d == if v - dtComp >= -RAIL then dtComp else v + RAIL)
            && (polarity == 0 ==> d == 0)
    ensures DutyFromScaled(v, dtComp, polarity) + DutyFromScaled(-v, dtComp, -polarity) == 65536
  {
  }

  /** All line-to-line differences come out exactly. */
  ghost predicate Exact(v: seq<int>, zss: int)
    requires |v| == 3
  {
    forall i, j :: 0 <= i < 3 && 0 <= j < 3 ==> Duty(v[i] + zss) - Duty(v[j] + zss) == v[i] - v[j]
  }

  ghost predicate Unsaturated(v: seq<int>, zss: int)
    requires |v| == 3
  {
    forall k :: 0 <= k < 3 ==> -RAIL <= v[k] + zss <= RAIL
  }

  /** Once the extremes fit, everything does; once they do not, their difference is lost. */
  lemma ExactIffSpanFits(v: seq<int>, zss: int, mx: int, mn: int)
    requires |v| == 3 && Extremes(v, mx, mn)
    requires mx - mn <= 2 * RAIL ==> -RAIL <= mn + zss && mx + zss <= RAIL
    ensures Unsaturated(v, zss) <==> mx - mn <= 2 * RAIL
    ensures Exact(v, zss) <==> mx - mn <= 2 * RAIL
  {
    var i :| 0 <= i < 3 && v[i] == mx;
    var j :| 0 <= j < 3 && v[j] == mn;
    if mx - mn > 2 * RAIL {
      assert Duty(v[i] + zss) - Duty(v[j] + zss) <= 2 * RAIL;
    }
  }

  /** SVPWM: no leg saturates, and every difference is exact, exactly while the span fits. */
  lemma SvpwmExact(v: seq<int>, mx: int, mn: int)
    requires |v| == 3 && Extremes(v, mx, mn)
    ensures var zss := HalfTowardsZero(-(mx + mn));
            (Unsaturated(v, zss) <==> mx - mn <= 65534) && (Exact(v, zss) <==> mx - mn <= 65534)
  {
    ExactIffSpanFits(v, HalfTowardsZero(-(mx + mn)), mx, mn);
  }

  /** DPWMMIN and DPWMMAX likewise. */
  lemma DpwmExact(variant: DpwmVariant, v: seq<int>, advanced: seq<int>, sel: nat, mx: int, mn: int)
    requires |v| == |advanced| == 3 && Extremes(v, mx, mn) && (variant == DpwmMin || variant == DpwmMax)
    requires sel < 3 && Chosen(variant, v, advanced, sel)
    ensures var zss := Pin(variant, v[sel]);
            (Unsaturated(v, zss) <==> mx - mn <= 65534) && (Exact(v, zss) <==> mx - mn <= 65534)
  {
    ExactIffSpanFits(v, Pin(variant, v[sel]), mx, mn);
  }

  /** The other two: exactly while the span fits and the chosen leg is the extreme on its side. */
  lemma Dpwm3Exact(variant: DpwmVariant, v: seq<int>, sel: nat, mx: int, mn: int)
    requires |v| == 3 && Extremes(v, mx, mn) && sel < 3 && (variant == Dpwm3 || variant == DpwmGeneralised)
    ensures var zss := Pin(variant, v[sel]);
            Exact(v, zss) <==> mx - mn <= 65534 && v[sel] == if v[sel] >= 0 then mx else mn
  {
    var zss := Pin(variant, v[sel]);
    var i :| 0 <= i < 3 && v[i] == mx;
    var j :| 0 <= j < 3 && v[j] == mn;
    assert Exact(v, zss) ==> Duty(v[i] + zss) - Duty(v[sel] + zss) == mx - v[sel];
    assert Exact(v, zss) ==> Duty(v[j] + zss) - Duty(v[sel] + zss) == mn - v[sel];
  }

  /** Unbalanced references at which both choose a leg that is no extreme, and differences are lost. */
  lemma UnbalancedLosesDifferences()
    ensures var v := [20000, 10000, -5000];
            && Chosen(Dpwm3, v, v, 1) && Chosen(DpwmGeneralised, v, [0, 1, 0], 1)
            && !Exact(v, Pin(Dpwm3, v[1])) && !Exact(v, Pin(DpwmGeneralised, v[1]))
  {
    var v := [20000, 10000, -5000];
    assert FirstLowest(Magnitudes(v), 2) && FirstHighest(Magnitudes(v), 0);
    assert Duty(v[0] + Pin(Dpwm3, v[1])) - Duty(v[1] + Pin(Dpwm3, v[1])) == 0;
    assert Duty(v[0] + Pin(DpwmGeneralised, v[1])) - Duty(v[1] + Pin(DpwmGeneralised, v[1])) == 0;
  }

  /** Every variant holds one leg at duty 1 or 65535; the last two also under compensation. */
  lemma DpwmPins(variant: DpwmVariant, v: seq<int>, sel: nat, dtComp: int)
    requires |v| == 3 && sel < 3 && dtComp >= 0
    ensures var zss := Pin(variant, v[sel]);
            && Duty(v[sel] + zss) in {1, 65535}
            && (variant == DpwmMin ==> Duty(v[sel] + zss) == 1) && (variant == DpwmMax ==> Duty(v[sel] + zss) == 65535)
            && (variant == Dpwm3 || variant == DpwmGeneralised ==>
                  DutyFromScaled(v[sel] + zss, dtComp, v[sel]) in {1, 65535})
  {
  }

  /** 3D-SVPWM, while the span fits: each leg less the neutral is the reference exactly while
      the neutral leg itself does not saturate. */
  lemma NeutralExact(v: seq<int>, mx: int, mn: int)
    requires |v| == 3 && Extremes(v, mx, mn) && mx - mn <= 65534
    ensures var zss := HalfTowardsZero(-(mx + mn));
            (forall k :: 0 <= k < 3 ==> Duty(v[k] + zss) - Duty(zss) == v[k]) <==> -RAIL <= zss <= RAIL
  {
    SvpwmExact(v, mx, mn);
    assert Duty(v[0] + HalfTowardsZero(-(mx + mn))) - Duty(HalfTowardsZero(-(mx + mn))) == v[0] <==>
           -RAIL <= HalfTowardsZero(-(mx + mn)) <= RAIL;
  }

  // ------------------------------------------------------------------- level shifting

  /** lsCellDuty(): off below its band, on above it, linear or snapped inside. */
  function CellDuty(ref: nat, cell: nat, cells: nat, nearestLevel: bool): (d: nat)
    ensures d <= 65535
  {
    var scaled, bandStart := ref * cells, cell * 65536;
    if scaled <= bandStart then 0
    else
      var d := scaled - bandStart;
      if nearestLevel then if d >= 32768 then 65535 else 0
      else if d >= 65535 then 65535 else d
  }

  /** The first n cells together. */
  function Stack(ref: nat, n: nat, cells: nat): nat {
    if n == 0 then 0 else Stack(ref, n - 1, cells) + CellDuty(ref, n - 1, cells, false)
  }

  lemma {:induction false} StackSoFar(ref: nat, n: nat, cells: nat)
    ensures var scaled := ref * cells;
            Stack(ref, n, cells) == if scaled >= n * 65536 then n * 65535 else scaled - scaled / 65536
  {
    if n > 0 { StackSoFar(ref, n - 1, cells); }
  }

  /** The stacked bands add up to the scaled reference, less one step for every full band. */
  lemma StackConserves(ref: nat, cells: nat)
    requires ref < 65536 && cells > 0
    ensures Stack(ref, cells, cells) == ref * cells - ref * cells / 65536
  {
    StackSoFar(ref, cells, cells);
    ProductLess(ref, cells);
  }

  lemma ProductLess(ref: nat, cells: nat)
    requires ref < 65536 && cells > 0
    ensures ref * cells < 65536 * cells
  {
    ProductNonNegative(65535 - ref, cells);
    assert (65535 - ref) * cells == 65535 * cells - ref * cells;
  }

  /** How many of the first n cells nearest-level modulation turns on. */
  function Levels(ref: nat, n: nat, cells: nat): nat {
    if n == 0 then 0 else Levels(ref, n - 1, cells) + if CellDuty(ref, n - 1, cells, true) == 65535 then 1 else 0
  }

  lemma {:induction false} LevelsSoFar(ref: nat, n: nat, cells: nat)
    ensures var level := (ref * cells + 32768) / 65536; Levels(ref, n, cells) == if level <= n then level else n
  {
    if n > 0 {
      LevelsSoFar(ref, n - 1, cells);
      LevelStep(ref * cells, n - 1);
    }
  }

  lemma LevelStep(scaled: nat, k: nat)
    ensures (scaled + 32768) / 65536 > k <==> scaled >= k * 65536 + 32768
  {
  }

  /** Nearest-level modulation: every cell wholly on or off, and as many on as the nearest whole number of
      levels, halves up. */
  lemma NearestLevel(ref: nat, cell: nat, cells: nat)
    requires ref < 65536 && cell < cells
    ensures CellDuty(ref, cell, cells, true) in {0, 65535}
    ensures Levels(ref, cells, cells) == (ref * cells + 32768) / 65536
  {
    LevelsSoFar(ref, cells, cells);
    ProductLess(ref, cells);
  }

  // ------------------------------------------------------------------------ one cycle

  datatype Scheme = Svpwm | Dpwm | Svpwm3D | LevelShifted | FullReference

  datatype CellPlan = CellPlan(polarityInverted: bool, dutyComplement: bool)

  datatype Config =
    Config(scheme: Scheme, cells: nat, dpwmVariant: DpwmVariant, clampPhase: nat, nearestLevel: bool, dtComp: int)

  /** refToDuty(): compensation follows the unscaled reference. */
  function RefToDuty(unit: int, indexQ15: nat, dtComp: int): (d: int)
    ensures 1 <= d <= 65535
  {
    DutyFromScaled(Scale(unit, indexQ15), dtComp, unit)
  }

  function FinalDuty(duty: int, plan: CellPlan): int {
    if plan.dutyComplement then 65535 - duty else duty
  }

  /** A complemented duty is on for the rest of the period, and complementing twice is nothing. */
  lemma ComplementSums(duty: int, inverted: bool)
    ensures FinalDuty(duty, CellPlan(inverted, false)) == duty
    ensures FinalDuty(duty, CellPlan(inverted, true)) + FinalDuty(duty, CellPlan(inverted, false)) == 65535
    ensures var plan := CellPlan(inverted, true); FinalDuty(FinalDuty(duty, plan), plan) == duty
  {
  }

  /** How many slots a cycle fills. */
  function SlotCount(c: Config): nat {
    match c.scheme
    case Svpwm => 3
    case Dpwm => 3
    case Svpwm3D => 4
    case _ => c.cells
  }

  function Advanced(lut: seq<int>, phase: nat, clamp: nat): (a: seq<int>)
    requires |lut| == LUT_SIZE
    ensures |a| == 3
  {
    [RefFromPhase(lut, (phase + clamp) % WORD), RefFromPhase(lut, Leg((phase + clamp) % WORD, 1)),
     RefFromPhase(lut, Leg((phase + clamp) % WORD, 2))]
  }

  /** The advanced references are those of the advanced phase at full index. */
  lemma AdvancedAtFullIndex(lut: seq<int>, phase: nat, clamp: nat)
    requires |lut| == LUT_SIZE
    ensures Advanced(lut, phase, clamp) == ScaledRefs(lut, (phase + clamp) % WORD, 32768)
  {
    hide RefFromPhase;
  }

  /** The zero sequence the scheme asks for. */
  ghost predicate ZeroSequence(c: Config, v: seq<int>, advanced: seq<int>, zss: int)
    requires |v| == |advanced| == 3
  {
    if c.scheme == Dpwm then
      exists sel: nat :: sel < 3 && Chosen(c.dpwmVariant, v, advanced, sel) && zss == Pin(c.dpwmVariant, v[sel])
    else exists mx, mn :: Extremes(v, mx, mn) && zss == HalfTowardsZero(-(mx + mn))
  }

  predicate ThreePhase(c: Config) {
    c.scheme == Svpwm || c.scheme == Dpwm || c.scheme == Svpwm3D
  }

  /** All line-to-line differences of the references appear in the duties. */
  ghost predicate Faithful(d: seq<int>, v: seq<int>)
    requires |d| >= 3 && |v| == 3
  {
    forall i, j :: 0 <= i < 3 && 0 <= j < 3 ==> d[i] - d[j] == v[i] - v[j]
  }

  /** No two references further apart than a duty can show. */
  predicate SpanFits(v: seq<int>)
    requires |v| == 3
  {
    forall i, j :: 0 <= i < 3 && 0 <= j < 3 ==> v[i] - v[j] <= 65534
  }

  /** The three phase duties of a cycle, from the references to the comparators. */
  lemma CycleIsExact(c: Config, v: seq<int>, advanced: seq<int>, zss: int, d: seq<int>)
    requires ThreePhase(c) && |v| == |advanced| == 3 && |d| >= 3 && ZeroSequence(c, v, advanced, zss)
    requires forall k :: 0 <= k < 3 ==> d[k] == DutyFromScaled(v[k] + zss, c.dtComp, v[k])
    ensures c.dtComp == 0 && (c.scheme == Dpwm ==> !ByMagnitude(c.dpwmVariant)) ==>
              (Faithful(d, v) <==> SpanFits(v))
    ensures c.dtComp == 0 && c.scheme == Dpwm && Faithful(d, v) ==> SpanFits(v)
    ensures c.scheme == Dpwm && (c.dtComp == 0 || (c.dtComp > 0 && ByMagnitude(c.dpwmVariant))) ==>
              exists k :: 0 <= k < 3 && d[k] in {1, 65535}
    ensures c.dtComp == 0 && c.scheme == Svpwm3D && SpanFits(v) ==>
              ((forall k :: 0 <= k < 3 ==> d[k] - Duty(zss) == v[k]) <==> -RAIL <= zss <= RAIL)
  {
    hide Chosen, DutyFromScaled, Duty, Faithful, SpanFits;
    if c.dtComp == 0 { Plain(c, v, zss, d); }
    if c.scheme == Dpwm {
      var sel: nat :| sel < 3 && Chosen(c.dpwmVariant, v, advanced, sel) && zss == Pin(c.dpwmVariant, v[sel]);
      DpwmCycle(c.dpwmVariant, v, advanced, sel);
      if c.dtComp >= 0 { DpwmPins(c.dpwmVariant, v, sel, c.dtComp); }
    } else {
      SvpwmCycle(v, zss);
    }
  }

  lemma Plain(c: Config, v: seq<int>, zss: int, d: seq<int>)
    requires c.dtComp == 0 && |v| == 3 && |d| >= 3
    requires forall k :: 0 <= k < 3 ==> d[k] == DutyFromScaled(v[k] + zss, c.dtComp, v[k])
    ensures forall k :: 0 <= k < 3 ==> d[k] == Duty(v[k] + zss)
    ensures Faithful(d, v) <==> Exact(v, zss)
  {
    hide DutyFromScaled, Duty;
    forall k | 0 <= k < 3 ensures d[k] == Duty(v[k] + zss) { Uncompensated(v[k] + zss, v[k]); }
  }

  lemma DpwmCycle(variant: DpwmVariant, v: seq<int>, advanced: seq<int>, sel: nat)
    requires |v| == |advanced| == 3 && sel < 3 && Chosen(variant, v, advanced, sel)
    ensures Exact(v, Pin(variant, v[sel])) ==> SpanFits(v)
    ensures variant == DpwmMin || variant == DpwmMax ==> (Exact(v, Pin(variant, v[sel])) <==> SpanFits(v))
  {
    hide Exact, Chosen;
    var mx, mn := SortedEnds(v);
    if variant == DpwmMin || variant == DpwmMax {
      DpwmExact(variant, v, advanced, sel, mx, mn);
    } else {
      Dpwm3Exact(variant, v, sel, mx, mn);
    }
  }

  lemma SvpwmCycle(v: seq<int>, zss: int)
    requires |v| == 3 && exists mx, mn :: Extremes(v, mx, mn) && zss == HalfTowardsZero(-(mx + mn))
    ensures Exact(v, zss) <==> SpanFits(v)
    ensures SpanFits(v) ==>
              ((forall k :: 0 <= k < 3 ==> Duty(v[k] + zss) - Duty(zss) == v[k]) <==> -RAIL <= zss <= RAIL)
  {
    hide Exact, Duty;
    var hi, lo :| Extremes(v, hi, lo) && zss == HalfTowardsZero(-(hi + lo));
    var mx, mn := SortedEnds(v);
    SvpwmExact(v, hi, lo);
    if SpanFits(v) { NeutralExact(v, hi, lo); }
  }

  lemma Uncompensated(x: int, polarity: int)
    ensures DutyFromScaled(x, 0, polarity) == Duty(x)
  {
  }

  lemma SortedEnds(v: seq<int>) returns (mx: int, mn: int)
    requires |v| == 3
    ensures Extremes(v, mx, mn) && (mx - mn <= 65534 <==> SpanFits(v))
  {
    mx := if v[0] >= v[1] && v[0] >= v[2] then v[0] else if v[1] >= v[2] then v[1] else v[2];
    mn := if v[0] <= v[1] && v[0] <= v[2] then v[0] else if v[1] <= v[2] then v[1] else v[2];
    var i :| 0 <= i < 3 && v[i] == mx;
    var j :| 0 <= j < 3 && v[j] == mn;
    assert SpanFits(v) ==> v[i] - v[j] <= 65534;
  }

  /** modulationCycleDuties(): the slots filled in place.  Without dead-time compensation the
      duties differ as the references do exactly while those fit, and DPWM rests one leg. */
  method CycleDuties(lut: seq<int>, phase: nat, indexQ15: nat, c: Config, plans: seq<CellPlan>, duties: array<int>)
    returns (ghost zss: int)
    requires |lut| == LUT_SIZE && phase < WORD && SlotCount(c) <= duties.Length && c.cells <= |plans|
    modifies duties
    ensures duties[SlotCount(c)..] == old(duties[SlotCount(c)..])
    ensures c.scheme == Svpwm || c.scheme == Dpwm || c.scheme == Svpwm3D ==>
              var v := ScaledRefs(lut, phase, indexQ15);
              && ZeroSequence(c, v, Advanced(lut, phase, c.clampPhase), zss)
              && (forall k :: 0 <= k < 3 ==> duties[k] == DutyFromScaled(v[k] + zss, c.dtComp, v[k]))
              && (c.scheme == Svpwm3D ==> duties[3] == Duty(zss))
    ensures ThreePhase(c) && c.dtComp == 0 && (c.scheme == Dpwm ==> !ByMagnitude(c.dpwmVariant)) ==>
              var v := ScaledRefs(lut, phase, indexQ15);
              Faithful(duties[..], v) <==> SpanFits(v)
    ensures c.scheme == Dpwm && (c.dtComp == 0 || (c.dtComp > 0 && ByMagnitude(c.dpwmVariant))) ==>
              exists k :: 0 <= k < 3 && duties[k] in {1, 65535}
    ensures c.dtComp == 0 && c.scheme == Svpwm3D && SpanFits(ScaledRefs(lut, phase, indexQ15)) ==>
              var v := ScaledRefs(lut, phase, indexQ15);
              ((forall k :: 0 <= k < 3 ==> duties[k] - duties[3] == v[k]) <==> -RAIL <= zss <= RAIL)
    ensures c.scheme == FullReference ==>
              forall k :: 0 <= k < c.cells ==>
                duties[k] == FinalDuty(RefToDuty(RefFromPhase(lut, phase), indexQ15, c.dtComp), plans[k])
    ensures c.scheme == LevelShifted ==>
              forall k :: 0 <= k < c.cells ==>
                duties[k] == FinalDuty(CellDuty(RefToDuty(RefFromPhase(lut, phase), indexQ15, 0), k, c.cells,
                                                c.nearestLevel), plans[k])
  {
    hide RefFromPhase, Scale, DutyFromScaled, CellDuty, Chosen, Extremes;
    if c.scheme == Svpwm || c.scheme == Dpwm || c.scheme == Svpwm3D {
      var v := ScaledRefs(lut, phase, indexQ15);
      var z;
      if c.scheme == Dpwm {
        ghost var sel;
        z, sel := DpwmZss(c.dpwmVariant, v, Advanced(lut, phase, c.clampPhase));
      } else {
        ghost var mx, mn;
        z, mx, mn := ContinuousSvmZss(v);
      }
      zss := z;
      for k := 0 to 3
        invariant duties[SlotCount(c)..] == old(duties[SlotCount(c)..])
        invariant forall j :: 0 <= j < k ==> duties[j] == DutyFromScaled(v[j] + zss, c.dtComp, v[j])
      {
        duties[k] := DutyFromScaled(v[k] + z, c.dtComp, v[k]);
      }
      if c.scheme == Svpwm3D {
        NoCompensation(z);
        duties[3] := DutyFromScaled(z, 0, 0);
      }
      CycleIsExact(c, v, Advanced(lut, phase, c.clampPhase), zss, duties[..]);
      return;
    }
    zss := 0;
    var s := RefFromPhase(lut, phase);
    var ref := RefToDuty(s, indexQ15, if c.scheme == LevelShifted then 0 else c.dtComp);
    for k := 0 to c.cells
      invariant duties[SlotCount(c)..] == old(duties[SlotCount(c)..])
      invariant forall j :: 0 <= j < k ==>
        duties[j] == FinalDuty(if c.scheme == LevelShifted then CellDuty(ref, j, c.cells, c.nearestLevel) else ref,
                               plans[j])
    {
      duties[k] := FinalDuty(if c.scheme == LevelShifted then CellDuty(ref, k, c.cells, c.nearestLevel) else ref,
                             plans[k]);
    }
  }

  lemma NoCompensation(z: int)
    ensures DutyFromScaled(z, 0, 0) == Duty(z)
  {
  }
}
