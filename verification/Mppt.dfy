/** src/mppt_math.h: the adaptive-step perturb-and-observe tracker, and where it ends up. */
module Mppt {

  const FLAT_CAP := 4        // MpptFlatCap
  const INT32 := 0x8000_0000 // one past the largest int32_t

  datatype Params = Params(minIndex: nat, maxIndex: nat, stepMax: nat, stepMin: nat, deadband: nat, restartDelta: nat)
  {
    /** What validateConfig() leaves (src/config_serde.h:518-536). */
    predicate Valid() {
      minIndex < maxIndex && 1 <= stepMin <= stepMax
    }
  }

  /** static_cast<int32_t> of a uint32_t. */
  function AsInt32(u: nat): int {
    if u < INT32 then u else u - 2 * INT32
  }

  /** The fields of MpptState as a value. */
  datatype Tracker = Tracker(prevPower: int, dir: int, step: nat, index: nat, growCnt: nat, flatCnt: nat, primed: bool)

  function Clamp(x: int, p: Params): (r: int)
    requires p.Valid()
  {
    if x < p.minIndex then p.minIndex else if x > p.maxIndex then p.maxIndex else x
  }

  function Initial(start: nat, p: Params): Tracker
    requires p.Valid()
  {
    Tracker(0, 1, p.stepMax, Clamp(start, p), 0, 0, false)
  }

  /** The decision on a power difference, before the index moves. */
  function Judged(s: Tracker, p: Params, delta: int): Tracker {
    var mag := if delta >= 0 then delta else -delta;
    if mag > AsInt32(p.restartDelta) then
      s.(step := p.stepMax, growCnt := 0, flatCnt := 0, dir := if delta < 0 then -s.dir else s.dir)
    else if mag <= p.deadband then
      if s.flatCnt + 1 >= FLAT_CAP then s.(growCnt := 0, flatCnt := 0, dir := -s.dir)
      else s.(growCnt := 0, flatCnt := s.flatCnt + 1)
    else if delta > 0 then
      if s.growCnt + 1 >= 2 then
        s.(flatCnt := 0, growCnt := 0, step := if 2 * s.step > p.stepMax then p.stepMax else 2 * s.step)
      else s.(flatCnt := 0, growCnt := s.growCnt + 1)
    else
      s.(dir := -s.dir, growCnt := 0, flatCnt := 0, step := if s.step / 2 < p.stepMin then p.stepMin else s.step / 2)
  }

  /** One step in the current direction; a rail overwrites the direction. */
  function Moved(s: Tracker, p: Params): Tracker
    requires p.Valid()
  {
    var next := if s.dir > 0 then s.index + s.step else s.index - s.step;
    if next <= p.minIndex then s.(index := p.minIndex, dir := 1)
    else if next >= p.maxIndex then s.(index := p.maxIndex, dir := -1)
    else s.(index := next)
  }

  function Step(s: Tracker, p: Params, power: int): Tracker
    requires p.Valid()
  {
    if !s.primed then Moved(s.(prevPower := power, primed := true), p)
    else Moved(Judged(s, p, power - s.prevPower).(prevPower := power), p)
  }

  class MpptState {
    var prevPower: int
    var dir: int
    var step: nat
    var index: nat
    var growCnt: nat
    var flatCnt: nat
    var primed: bool

    ghost function View(): Tracker
      reads this
    {
      Tracker(prevPower, dir, step, index, growCnt, flatCnt, primed)
    }

    ghost predicate Valid()
      reads this
    {
      dir == 1 || dir == -1
    }

    constructor (start: nat, p: Params)
      requires p.Valid()
      ensures Valid() && View() == Initial(start, p)
      ensures dir == 1 && step == p.stepMax && growCnt == flatCnt == 0 && !primed
    {
      prevPower, dir, step, index := 0, 1, p.stepMax, start;
      growCnt, flatCnt, primed := 0, 0, false;
      new;
      if index < p.minIndex { index := p.minIndex; }
      if index > p.maxIndex { index := p.maxIndex; }
    }

    /** mpptStep(); a power difference outside int32_t is undefined in C++. */
    method Evaluate(p: Params, power: int) returns (next: nat)
      requires Valid() && p.Valid()
      requires primed ==> -INT32 < power - prevPower < INT32
      modifies this
      ensures Valid() && View() == Step(old(View()), p, power)
      ensures next == index
    {
      if !primed {
        prevPower := power;
        primed := true;
      } else {
        var delta := power - prevPower;
        prevPower := power;
        Judge(p, delta);
      }
      Move(p);
      next := index;
    }

    method Judge(p: Params, delta: int)
      requires Valid()
      modifies this
      ensures Valid() && View() == Judged(old(View()), p, delta)
    {
      var mag := if delta >= 0 then delta else -delta;
      if mag > AsInt32(p.restartDelta) {
        step, growCnt, flatCnt := p.stepMax, 0, 0;
        if delta < 0 { dir := -dir; }
      } else if mag <= p.deadband {
        growCnt, flatCnt := 0, flatCnt + 1;
        if flatCnt >= FLAT_CAP {
          flatCnt, dir := 0, -dir;
        }
      } else if delta > 0 {
        flatCnt, growCnt := 0, growCnt + 1;
        if growCnt >= 2 {
          var doubled := 2 * step;
          step, growCnt := if doubled > p.stepMax then p.stepMax else doubled, 0;
        }
      } else {
        var halved := step / 2;
        dir, step := -dir, if halved < p.stepMin then p.stepMin else halved;
        growCnt, flatCnt := 0, 0;
      }
    }

    method Move(p: Params)
      requires Valid() && p.Valid()
      modifies this
      ensures Valid() && View() == Moved(old(View()), p)
    {
      var next: int := index + dir * step;
      if next <= p.minIndex {
        next, dir := p.minIndex, 1;
      }
      if next >= p.maxIndex {
        next, dir := p.maxIndex, -1;
      }
      index := next;
    }
  }

  // ------------------------------------------------------------- a static power curve

  /** Power by index: a smallest step towards the peak, on either side of it, gains more
      than the deadband. */
  ghost predicate Curve(f: seq<int>, p: Params, peak: nat) {
    && p.minIndex <= peak <= p.maxIndex < |f|
    && (forall i, j :: p.minIndex <= i && i + p.stepMin <= j <= peak ==> f[j] - f[i] > p.deadband)
    && (forall i, j :: peak <= i && i + p.stepMin <= j <= p.maxIndex ==> f[i] - f[j] > p.deadband)
  }

  ghost predicate StrictlyUnimodal(f: seq<int>, p: Params, peak: nat) {
    && p.minIndex <= peak <= p.maxIndex < |f|
    && (forall i, j :: p.minIndex <= i < j <= peak ==> f[i] < f[j])
    && (forall i, j :: peak <= i < j <= p.maxIndex ==> f[i] > f[j])
  }

  /** The tracker after n evaluations of the curve. */
  ghost function Track(f: seq<int>, p: Params, start: nat, n: nat): (s: Tracker)
    requires p.Valid() && p.maxIndex < |f|
    ensures p.minIndex <= s.index <= p.maxIndex
  {
    if n == 0 then Initial(start, p)
    else var s := Track(f, p, start, n - 1); Step(s, p, f[s.index])
  }

  /** Closer to the peak than two of the largest steps. */
  predicate InBand(s: Tracker, p: Params, peak: nat) {
    -2 * p.stepMax < s.index - peak < 2 * p.stepMax
  }

  /** Holds from the first evaluation on; `a` is where prevPower was measured. */
  ghost predicate Inv(s: Tracker, f: seq<int>, p: Params, a: int) {
    && s.primed && s.flatCnt < FLAT_CAP && p.stepMin <= s.step <= p.stepMax
    && p.minIndex <= s.index <= p.maxIndex < |f| && p.minIndex <= a <= p.maxIndex && s.prevPower == f[a]
    && 0 - p.stepMax <= s.index - a <= p.stepMax
    && (s.dir == 1 || s.dir == -1)
    && (s.index == p.minIndex ==> s.dir == 1) && (s.index == p.maxIndex ==> s.dir == -1)
    && (p.minIndex < s.index < p.maxIndex ==>
          if s.dir == 1 then s.index - a >= p.stepMin else a - s.index >= p.stepMin)
  }

  lemma FirstStep(f: seq<int>, p: Params, start: nat)
    requires p.Valid() && p.maxIndex < |f|
    ensures Inv(Track(f, p, start, 1), f, p, Track(f, p, start, 0).index)
  {
    assert Track(f, p, start, 0) == Initial(start, p);
  }

  lemma InvStep(s: Tracker, f: seq<int>, p: Params, a: int)
    requires p.Valid() && Inv(s, f, p, a)
    ensures Inv(Step(s, p, f[s.index]), f, p, s.index)
  {
  }

  /** Right of the peak by at least the largest step, the tracker heads down or sits at the rail. */
  lemma HeadsDown(s: Tracker, f: seq<int>, p: Params, peak: nat, a: int)
    requires p.Valid() && Curve(f, p, peak) && Inv(s, f, p, a) && s.index >= peak + p.stepMax
    ensures Step(s, p, f[s.index]).index <= s.index
    ensures s.index < p.maxIndex ==> Step(s, p, f[s.index]).index <= s.index - p.stepMin
  {
    if s.index < p.maxIndex {
      if s.dir == 1 {
        assert f[a] - f[s.index] > p.deadband;
      } else {
        assert f[s.index] - f[a] > p.deadband;
      }
    }
  }

  lemma HeadsUp(s: Tracker, f: seq<int>, p: Params, peak: nat, a: int)
    requires p.Valid() && Curve(f, p, peak) && Inv(s, f, p, a) && s.index <= peak - p.stepMax
    ensures Step(s, p, f[s.index]).index >= s.index
    ensures s.index > p.minIndex ==> Step(s, p, f[s.index]).index >= s.index + p.stepMin
  {
    if s.index > p.minIndex {
      if s.dir == 1 {
        assert f[s.index] - f[a] > p.deadband;
      } else {
        assert f[a] - f[s.index] > p.deadband;
      }
    }
  }

  lemma StepIsBounded(s: Tracker, f: seq<int>, p: Params, a: int)
    requires p.Valid() && Inv(s, f, p, a)
    ensures 0 - p.stepMax <= Step(s, p, f[s.index]).index - s.index <= p.stepMax
  {
  }

  /** The band traps: doubling, halving, rails and restarts never lead out of it. */
  lemma BandTraps(s: Tracker, f: seq<int>, p: Params, peak: nat, a: int)
    requires p.Valid() && Curve(f, p, peak) && Inv(s, f, p, a) && InBand(s, p, peak)
    ensures InBand(Step(s, p, f[s.index]), p, peak)
  {
    hide Step, Inv;
    StepIsBounded(s, f, p, a);
    if s.index >= peak + p.stepMax {
      HeadsDown(s, f, p, peak, a);
    } else if s.index <= peak - p.stepMax {
      HeadsUp(s, f, p, peak, a);
    }
  }

  // ------------------------------------------------------------------ getting there

  /** How far out of the band, charging the evaluations a rail can waste. */
  ghost function Lag(s: Tracker, p: Params, peak: nat, a: int): nat {
    var rail := if a != s.index then 3 else if s.flatCnt + 1 == FLAT_CAP then 2 else 1;
    if s.index >= peak + 2 * p.stepMax then
      s.index - peak - 2 * p.stepMax + if s.index == p.maxIndex then rail * p.stepMin else 0
    else if s.index + 2 * p.stepMax <= peak then
      peak - 2 * p.stepMax - s.index + if s.index == p.minIndex then rail * p.stepMin else 0
    else 0
  }

  lemma ProgressFromAbove(s: Tracker, f: seq<int>, p: Params, peak: nat, a: int)
    requires p.Valid() && Curve(f, p, peak) && Inv(s, f, p, a) && s.index >= peak + 2 * p.stepMax
    ensures var t := Step(s, p, f[s.index]);
            InBand(t, p, peak) || Lag(t, p, peak, s.index) + p.stepMin <= Lag(s, p, peak, a)
  {
    HeadsDown(s, f, p, peak, a);
    StepIsBounded(s, f, p, a);
  }

  lemma ProgressFromBelow(s: Tracker, f: seq<int>, p: Params, peak: nat, a: int)
    requires p.Valid() && Curve(f, p, peak) && Inv(s, f, p, a) && s.index + 2 * p.stepMax <= peak
    ensures var t := Step(s, p, f[s.index]);
            InBand(t, p, peak) || Lag(t, p, peak, s.index) + p.stepMin <= Lag(s, p, peak, a)
  {
    HeadsUp(s, f, p, peak, a);
    StepIsBounded(s, f, p, a);
  }

  /** n * stepMin, by repeated addition. */
  function Walked(n: nat, stepMin: nat): nat {
    if n == 0 then 0 else Walked(n - 1, stepMin) + stepMin
  }

  /** Until it is in the band, every evaluation pays at least stepMin of the lag. */
  lemma {:induction false} Approaches(f: seq<int>, p: Params, peak: nat, start: nat, n: nat)
    requires p.Valid() && Curve(f, p, peak) && n >= 1
    ensures Inv(Track(f, p, start, n), f, p, Track(f, p, start, n - 1).index)
    ensures InBand(Track(f, p, start, n), p, peak) ||
            Lag(Track(f, p, start, n), p, peak, Track(f, p, start, n - 1).index) + Walked(n - 1, p.stepMin)
              <= p.maxIndex - p.minIndex + 3 * p.stepMin
  {
    hide Inv, Step, InBand, Lag;
    if n == 1 {
      FirstStep(f, p, start);
      LagIsBounded(Track(f, p, start, 1), f, p, peak, Track(f, p, start, 0).index);
    } else {
      Approaches(f, p, peak, start, n - 1);
      var s, a := Track(f, p, start, n - 1), Track(f, p, start, n - 2).index;
      InvStep(s, f, p, a);
      if InBand(s, p, peak) {
        BandTraps(s, f, p, peak, a);
      } else {
        Progress(s, f, p, peak, a);
      }
    }
  }

  lemma LagIsBounded(s: Tracker, f: seq<int>, p: Params, peak: nat, a: int)
    requires p.Valid() && Curve(f, p, peak) && Inv(s, f, p, a)
    ensures Lag(s, p, peak, a) <= p.maxIndex - p.minIndex + 3 * p.stepMin
  {
  }

  lemma Progress(s: Tracker, f: seq<int>, p: Params, peak: nat, a: int)
    requires p.Valid() && Curve(f, p, peak) && Inv(s, f, p, a) && !InBand(s, p, peak)
    ensures var t := Step(s, p, f[s.index]);
            InBand(t, p, peak) || Lag(t, p, peak, s.index) + p.stepMin <= Lag(s, p, peak, a)
  {
    hide Step, Inv, Curve, Lag;
    if s.index >= peak + 2 * p.stepMax {
      ProgressFromAbove(s, f, p, peak, a);
    } else {
      ProgressFromBelow(s, f, p, peak, a);
    }
  }

  /** As many evaluations as the widest walk takes, and five more. */
  function Enough(p: Params): nat
    requires p.Valid()
  {
    (p.maxIndex - p.minIndex) / p.stepMin + 5
  }

  lemma {:induction false} WalkedEnough(n: nat, k: nat, stepMin: nat, distance: nat)
    requires stepMin >= 1 && n >= k && distance < k * stepMin
    ensures Walked(n, stepMin) > distance
  {
    WalkedIsProduct(k, stepMin);
    WalkedGrows(k, n, stepMin);
  }

  lemma {:induction false} WalkedIsProduct(n: nat, stepMin: nat)
    ensures Walked(n, stepMin) == n * stepMin
  {
    if n > 0 { WalkedIsProduct(n - 1, stepMin); }
  }

  lemma {:induction false} WalkedGrows(m: nat, n: nat, stepMin: nat)
    requires m <= n
    ensures Walked(m, stepMin) <= Walked(n, stepMin)
  {
    if m < n { WalkedGrows(m, n - 1, stepMin); }
  }

  /** From any start, on any such curve, the tracker is near the peak for good. */
  lemma Converges(f: seq<int>, p: Params, peak: nat, start: nat, n: nat)
    requires p.Valid() && Curve(f, p, peak) && n >= Enough(p)
    ensures InBand(Track(f, p, start, n), p, peak)
  {
    hide Track, Curve, Lag, Inv, InBand, Walked;
    Approaches(f, p, peak, start, n);
    var range := p.maxIndex - p.minIndex;
    var k := range / p.stepMin + 4;
    assert range + 3 * p.stepMin < k * p.stepMin by {
      assert range == p.stepMin * (range / p.stepMin) + range % p.stepMin;
      assert k * p.stepMin == p.stepMin * (range / p.stepMin) + 4 * p.stepMin;
    }
    WalkedEnough(n - 1, k, p.stepMin, range + 3 * p.stepMin);
  }

  /** Once an evaluation has landed in the band, no later one leaves it. */
  lemma {:induction false} NeverLeaves(f: seq<int>, p: Params, peak: nat, start: nat, m: nat, n: nat)
    requires p.Valid() && Curve(f, p, peak) && 1 <= m <= n && InBand(Track(f, p, start, m), p, peak)
    ensures InBand(Track(f, p, start, n), p, peak)
  {
    hide Inv, Step, InBand;
    if m < n {
      NeverLeaves(f, p, peak, start, m, n - 1);
      Approaches(f, p, peak, start, n - 1);
      BandTraps(Track(f, p, start, n - 1), f, p, peak, Track(f, p, start, n - 2).index);
    }
  }

  /** With deadband 0 a strictly rising then strictly falling curve is enough. */
  lemma StrictCurveConverges(f: seq<int>, p: Params, peak: nat, start: nat, n: nat)
    requires p.Valid() && p.deadband == 0 && StrictlyUnimodal(f, p, peak) && n >= Enough(p)
    ensures InBand(Track(f, p, start, n), p, peak)
  {
    assert Curve(f, p, peak);
    Converges(f, p, peak, start, n);
  }

  /** The first, unprimed step goes up whatever the power: from inside the band it leads
      out exactly when the band ends before a largest step does, and before the upper rail. */
  lemma FirstStepLeaves(f: seq<int>, p: Params, peak: nat, start: nat)
    requires p.Valid() && p.maxIndex < |f| && InBand(Track(f, p, start, 0), p, peak)
    ensures !InBand(Track(f, p, start, 1), p, peak) <==>
            Clamp(start, p) >= peak + p.stepMax && p.maxIndex >= peak + 2 * p.stepMax
  {
    assert Track(f, p, start, 0) == Initial(start, p);
  }

  /** The defaults, peak at 500: started at 530 the tracker leaves the band at once. */
  lemma FirstStepCanLeave(f: seq<int>)
    requires |f| == 1001
    ensures var p := Params(50, 1000, 20, 5, 0, 1000);
            InBand(Track(f, p, 530, 0), p, 500) && !InBand(Track(f, p, 530, 1), p, 500)
  {
    var p := Params(50, 1000, 20, 5, 0, 1000);
    assert Track(f, p, 530, 0) == Initial(530, p);
    FirstStepLeaves(f, p, 500, 530);
  }

  // ----------------------------------------------------- the adaptive step, on any powers

  /** The tracker after these further measurements. */
  function After(s: Tracker, p: Params, powers: seq<int>): Tracker
    requires p.Valid()
  {
    if powers == [] then s else Step(After(s, p, powers[..|powers| - 1]), p, powers[|powers| - 1])
  }

  /** What holds between evaluations, whatever was measured. */
  predicate Running(s: Tracker, p: Params) {
    && p.stepMin <= s.step <= p.stepMax && p.minIndex <= s.index <= p.maxIndex
    && (s.dir == 1 || s.dir == -1) && s.flatCnt < FLAT_CAP && s.growCnt < 2
  }

  lemma StepRuns(s: Tracker, p: Params, power: int)
    requires p.Valid() && Running(s, p)
    ensures Running(Step(s, p, power), p) && Step(s, p, power).primed
  {
  }

  lemma {:induction false} RunKeeps(p: Params, start: nat, powers: seq<int>)
    requires p.Valid()
    ensures var s := After(Initial(start, p), p, powers); Running(s, p) && (s.primed <==> powers != [])
  {
    hide Step;
    if powers != [] {
      var n := |powers| - 1;
      RunKeeps(p, start, powers[..n]);
      StepRuns(After(Initial(start, p), p, powers[..n]), p, powers[n]);
    }
  }

  /** A change past restartDelta, of which a setting from 2^31 on has none, as int32_t it is negative. */
  predicate Jumps(p: Params, delta: int) {
    p.restartDelta >= INT32 || delta > p.restartDelta || -delta > p.restartDelta
  }

  predicate Gains(p: Params, delta: int) {
    !Jumps(p, delta) && delta > p.deadband
  }

  predicate Loses(p: Params, delta: int) {
    !Jumps(p, delta) && -delta > p.deadband
  }

  predicate IsFlat(p: Params, delta: int) {
    !Jumps(p, delta) && 0 - p.deadband <= delta <= p.deadband
  }

  /** After a jump the next move is a largest step, on after a rise and back after a fall, and only a
      rail cuts it short. */
  lemma JumpRestarts(s: Tracker, p: Params, power: int)
    requires p.Valid() && Running(s, p) && s.primed && p.restartDelta < 2 * INT32 && Jumps(p, power - s.prevPower)
    ensures var t, dir := Step(s, p, power), if power < s.prevPower then -s.dir else s.dir;
            && t.step == p.stepMax && t.growCnt == t.flatCnt == 0
            && t.index == Clamp(if dir == 1 then s.index + p.stepMax else s.index - p.stepMax, p)
            && (p.minIndex < t.index < p.maxIndex ==> t.dir == dir)
  {
  }

  /** A loss turns back with half the step, never below the smallest. */
  lemma LossRefines(s: Tracker, p: Params, power: int)
    requires p.Valid() && Running(s, p) && s.primed && Loses(p, power - s.prevPower)
    ensures var t := Step(s, p, power);
            && t.step >= p.stepMin && (2 * t.step <= s.step || t.step == p.stepMin) && 2 * t.step + 1 >= s.step
            && t.growCnt == t.flatCnt == 0
            && t.index == Clamp(if s.dir == 1 then s.index - t.step else s.index + t.step, p)
            && (p.minIndex < t.index < p.maxIndex ==> t.dir == -s.dir)
  {
  }

  /** Every one of these measurements gains on the one before it. */
  predicate Climb(p: Params, prev: int, powers: seq<int>) {
    powers == [] ||
    var n := |powers| - 1;
    Climb(p, prev, powers[..n]) && Gains(p, powers[n] - Latest(prev, powers[..n]))
  }

  function Latest(prev: int, powers: seq<int>): int {
    if powers == [] then prev else powers[|powers| - 1]
  }

  /** `step` doubled n times. */
  function Doubled(step: nat, n: nat): nat {
    if n == 0 then step else 2 * Doubled(step, n - 1)
  }

  function Smaller(a: nat, b: nat): nat {
    if a <= b then a else b
  }

  lemma {:induction false} LastPower(s: Tracker, p: Params, powers: seq<int>)
    requires p.Valid() && s.primed
    ensures After(s, p, powers).primed && After(s, p, powers).prevPower == Latest(s.prevPower, powers)
  {
    if powers != [] { LastPower(s, p, powers[..|powers| - 1]); }
  }

  /** Two gains in a row double the step, up to the largest: after n of them it is exactly
      2^(n/2) times the first, or the largest step. */
  lemma {:induction false} GainsAccelerate(s: Tracker, p: Params, powers: seq<int>)
    requires p.Valid() && Running(s, p) && s.primed && Climb(p, s.prevPower, powers)
    ensures var t, n := After(s, p, powers), s.growCnt + |powers|;
            && Running(t, p) && t.step == Smaller(p.stepMax, Doubled(s.step, n / 2)) && t.growCnt == n % 2
    ensures powers != [] ==> After(s, p, powers).flatCnt == 0
  {
    hide Step, Gains;
    if powers != [] {
      var n := |powers| - 1;
      GainsAccelerate(s, p, powers[..n]);
      LastPower(s, p, powers[..n]);
      GainAccelerates(After(s, p, powers[..n]), p, powers[n]);
      assert (s.growCnt + n + 1) / 2 == (s.growCnt + n) / 2 + if (s.growCnt + n) % 2 == 1 then 1 else 0;
    }
  }

  lemma GainAccelerates(s: Tracker, p: Params, power: int)
    requires p.Valid() && Running(s, p) && s.primed && Gains(p, power - s.prevPower)
    ensures var t := Step(s, p, power);
            && Running(t, p) && t.flatCnt == 0 && t.growCnt == (s.growCnt + 1) % 2
            && t.step == if s.growCnt == 1 then Smaller(p.stepMax, 2 * s.step) else s.step
  {
  }

  /** A gain moves on in the same direction by the step it leaves; only a rail cuts that short. */
  lemma GainGoesOn(s: Tracker, p: Params, power: int)
    requires p.Valid() && Running(s, p) && s.primed && Gains(p, power - s.prevPower)
    ensures var t := Step(s, p, power);
            && s.step <= t.step <= 2 * s.step
            && t.index == Clamp(if s.dir == 1 then s.index + t.step else s.index - t.step, p)
            && (p.minIndex < t.index < p.maxIndex ==> t.dir == s.dir)
  {
  }

  /** Clear of the rails so far. */
  ghost predicate Clear(s: Tracker, p: Params, powers: seq<int>)
    requires p.Valid()
  {
    forall k :: 0 < k <= |powers| ==> p.minIndex < After(s, p, powers[..k]).index < p.maxIndex
  }

  /** So n gains clear of the rails carry the index on by n of the first step at least. */
  lemma {:induction false} GainsCarryOn(s: Tracker, p: Params, powers: seq<int>)
    requires p.Valid() && Running(s, p) && s.primed && Climb(p, s.prevPower, powers) && Clear(s, p, powers)
    ensures var t, moved := After(s, p, powers), After(s, p, powers).index - s.index;
            && t.dir == s.dir && t.step >= s.step
            && (if s.dir == 1 then moved else -moved) >= Walked(|powers|, s.step)
  {
    hide Step;
    if powers != [] {
      var n := |powers| - 1;
      assert powers[..|powers|] == powers;
      assert forall k :: 0 <= k <= n ==> powers[..n][..k] == powers[..k];
      GainsCarryOn(s, p, powers[..n]);
      GainsAccelerate(s, p, powers[..n]);
      LastPower(s, p, powers[..n]);
      GainGoesOn(After(s, p, powers[..n]), p, powers[n]);
    }
  }

  // ----------------------------------------------------------------------- on a plateau

  /** Every one of these measurements is the one before it, but for noise. */
  predicate Plateau(p: Params, prev: int, powers: seq<int>) {
    powers == [] ||
    var n := |powers| - 1;
    Plateau(p, prev, powers[..n]) && IsFlat(p, powers[n] - Latest(prev, powers[..n]))
  }

  /** Flat results keep the step and count up to the fourth. */
  lemma {:induction false} FlatsCount(s: Tracker, p: Params, powers: seq<int>)
    requires p.Valid() && Running(s, p) && s.primed && Plateau(p, s.prevPower, powers)
    ensures var t := After(s, p, powers);
            && Running(t, p) && t.step == s.step && t.flatCnt == (s.flatCnt + |powers|) % 4
            && (powers != [] ==> t.growCnt == 0)
  {
    hide Step, IsFlat, Running;
    if powers != [] {
      var n := |powers| - 1;
      FlatsCount(s, p, powers[..n]);
      LastPower(s, p, powers[..n]);
      FlatGoesOn(After(s, p, powers[..n]), p, powers[n]);
    } else {
      FewFlats(s, p);
    }
  }

  lemma FewFlats(s: Tracker, p: Params)
    requires Running(s, p)
    ensures s.flatCnt < 4
  {
  }

  /** The direction after n flat results in a row: every fourth turns it. */
  function Turned(dir: int, n: nat): int {
    if n / 4 % 2 == 0 then dir else -dir
  }

  lemma TurnedNext(dir: int, n: nat)
    ensures Turned(dir, n + 1) == if n % 4 == 3 then -Turned(dir, n) else Turned(dir, n)
  {
    if n % 4 == 3 { assert (n + 1) / 4 == n / 4 + 1; } else { assert (n + 1) / 4 == n / 4; }
  }

  /** Clear of the rails every fourth flat result in a row turns the direction, and none else. */
  lemma {:induction false} FourFlatsTurn(s: Tracker, p: Params, powers: seq<int>)
    requires p.Valid() && Running(s, p) && s.primed && Plateau(p, s.prevPower, powers) && Clear(s, p, powers)
    ensures After(s, p, powers).dir == Turned(s.dir, s.flatCnt + |powers|)
  {
    hide Step, IsFlat, Turned, Running;
    if powers != [] {
      var n := |powers| - 1;
      assert powers[..|powers|] == powers;
      assert forall k :: 0 <= k <= n ==> powers[..n][..k] == powers[..k];
      FourFlatsTurn(s, p, powers[..n]);
      FlatsCount(s, p, powers[..n]);
      LastPower(s, p, powers[..n]);
      FlatGoesOn(After(s, p, powers[..n]), p, powers[n]);
      TurnedNext(s.dir, s.flatCnt + n);
    } else {
      NotTurned(s, p);
    }
  }

  lemma NotTurned(s: Tracker, p: Params)
    requires Running(s, p)
    ensures Turned(s.dir, s.flatCnt) == s.dir
  {
  }

  lemma FlatGoesOn(s: Tracker, p: Params, power: int)
    requires p.Valid() && Running(s, p) && s.primed && IsFlat(p, power - s.prevPower)
    ensures var t := Step(s, p, power);
            && Running(t, p) && t.step == s.step && t.growCnt == 0 && t.flatCnt == (s.flatCnt + 1) % 4
            && (p.minIndex < t.index < p.maxIndex ==> t.dir == if s.flatCnt == 3 then -s.dir else s.dir)
  {
  }

  /** How far the tracker goes on before four flat results turn it. */
  function Reach(flatCnt: nat, step: nat): nat {
    if flatCnt == 0 then 3 * step else if flatCnt == 1 then 2 * step else if flatCnt == 2 then step else 0
  }

  /** Between lo and four steps above it, and turning or stopped by a rail there. */
  ghost predicate Penned(s: Tracker, p: Params, lo: int) {
    && lo <= s.index <= lo + 4 * s.step
    && var end := if s.dir == 1 then s.index + Reach(s.flatCnt, s.step) else s.index - Reach(s.flatCnt, s.step);
       || (end == if s.dir == 1 then lo + 4 * s.step else lo)
       || (lo == p.minIndex && if s.dir == 1 then end <= lo + 4 * s.step else end <= lo)
       || (lo + 4 * s.step == p.maxIndex && if s.dir == 1 then end >= lo + 4 * s.step else end >= lo)
  }

  lemma FlatMoves(s: Tracker, p: Params, power: int)
    requires p.Valid() && Running(s, p) && s.primed && IsFlat(p, power - s.prevPower)
    ensures var turns := s.flatCnt == 3;
            Step(s, p, power) == Moved(s.(prevPower := power, growCnt := 0, dir := if turns then -s.dir else s.dir,
                                          flatCnt := if turns then 0 else s.flatCnt + 1), p)
  {
    hide Moved;
  }

  /** One flat result; where a rail turns the tracker, the pen moves up to the rail. */
  lemma FlatStaysPenned(s: Tracker, p: Params, power: int, lo: int, at: nat) returns (lo': int)
    requires p.Valid() && Running(s, p) && s.primed && IsFlat(p, power - s.prevPower)
    requires Penned(s, p, lo) && p.maxIndex - p.minIndex > 4 * s.step
    requires lo <= at <= lo + 4 * s.step && p.minIndex <= at <= p.maxIndex
    ensures var t := Step(s, p, power); t.step == s.step && Penned(t, p, lo') && lo' <= at <= lo' + 4 * t.step
  {
    hide Step, IsFlat;
    var t := Step(s, p, power);
    FlatMoves(s, p, power);
    if t.index == p.minIndex {
      lo' := p.minIndex;
    } else if t.index == p.maxIndex {
      lo' := p.maxIndex - 4 * s.step;
    } else {
      lo' := lo;
    }
  }

  /** On a plateau of any length the index stays within four steps of where it began, rails or not. */
  lemma {:induction false} PlateauIsBounded(s: Tracker, p: Params, powers: seq<int>)
    requires p.Valid() && Running(s, p) && s.primed && Plateau(p, s.prevPower, powers)
    ensures -4 * s.step <= After(s, p, powers).index - s.index <= 4 * s.step
  {
    hide Penned, Step;
    if p.maxIndex - p.minIndex > 4 * s.step {
      var lo := FlatsStayPenned(s, p, powers);
      PenHolds(After(s, p, powers), p, lo);
    }
    FlatsCount(s, p, powers);
  }

  lemma PenHolds(s: Tracker, p: Params, lo: int)
    requires Penned(s, p, lo)
    ensures lo <= s.index <= lo + 4 * s.step
  {
  }

  lemma {:induction false} FlatsStayPenned(s: Tracker, p: Params, powers: seq<int>) returns (lo: int)
    requires p.Valid() && Running(s, p) && s.primed && Plateau(p, s.prevPower, powers)
    requires p.maxIndex - p.minIndex > 4 * s.step
    ensures var t := After(s, p, powers); t.step == s.step && Penned(t, p, lo) && lo <= s.index <= lo + 4 * s.step
  {
    if powers == [] {
      lo := if s.dir == 1 then s.index + Reach(s.flatCnt, s.step) - 4 * s.step
            else s.index - Reach(s.flatCnt, s.step);
    } else {
      hide Penned, Step;
      var n := |powers| - 1;
      var before := FlatsStayPenned(s, p, powers[..n]);
      FlatsCount(s, p, powers[..n]);
      LastPower(s, p, powers[..n]);
      lo := FlatStaysPenned(After(s, p, powers[..n]), p, powers[n], before, s.index);
    }
  }
}
